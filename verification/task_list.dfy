/** The task list: loading, delete by id, the update dialog's field edits and
    the replace-by-id update, each applied only after the server answers. */
module TaskList {
  import opened Outcomes
  import Seqs

  /** The record as this component declares it. `id` is the server's `_id`. */
  datatype Task = Task(id: string, name: string, description: string, deadlineDate: string, deadlineTime: string)

  datatype TaskAttr = Id | Name | Description | DeadlineDate | DeadlineTime

  function Get(t: Task, a: TaskAttr): string
  {
    match a
    case Id => t.id
    case Name => t.name
    case Description => t.description
    case DeadlineDate => t.deadlineDate
    case DeadlineTime => t.deadlineTime
  }

  function HasId(id: string): Task -> bool
  {
    (t: Task) => t.id == id
  }

  function OtherId(id: string): Task -> bool
  {
    (t: Task) => t.id != id
  }

  /** The effect on `refresh`: the server's list replaces the current one;
      a failure keeps it. */
  function LoadTasks(tasks: seq<Task>, resp: ApiResult<seq<Task>>): (r: seq<Task>)
    ensures resp.Ok? ==> r == resp.data
    ensures resp.Fail? ==> r == tasks
  {
    match resp
    case Ok(data) => data
    case Fail(_) => tasks
  }

  /** `deleteTask(id)`: after the server confirms, every task with that id is
      gone and the others remain, in order; on failure nothing changes. */
  function DeleteTask(tasks: seq<Task>, id: string, resp: Ack): (r: seq<Task>)
    ensures resp.Fail? ==> r == tasks
    ensures resp.Ok? ==> forall t :: multiset(r)[t] == if t.id != id then multiset(tasks)[t] else 0
    ensures Seqs.IsSubseq(r, tasks)
  {
    if resp.Ok? then Seqs.Filter(tasks, OtherId(id))
    else
      Seqs.SubseqRefl(tasks);
      tasks
  }

  /** Deleting the same id a second time changes nothing. */
  lemma DeleteTaskIdempotent(tasks: seq<Task>, id: string)
    ensures DeleteTask(DeleteTask(tasks, id, Ok(())), id, Ok(())) == DeleteTask(tasks, id, Ok(()))
  {
    Seqs.FilterIdempotent(tasks, OtherId(id));
  }

  /** `handleInputChange`: no task selected stays none; otherwise only the
      named field changes. */
  function HandleInputChange(sel: Option<Task>, field: TaskAttr, value: string): (r: Option<Task>)
    ensures r.Some? <==> sel.Some?
    ensures r.Some? ==> Get(r.value, field) == value
    ensures r.Some? ==> forall b :: b != field ==> Get(r.value, b) == Get(sel.value, b)
  {
    match sel
    case None => None
    case Some(t) =>
      Some(match field
        case Id => t.(id := value)
        case Name => t.(name := value)
        case Description => t.(description := value)
        case DeadlineDate => t.(deadlineDate := value)
        case DeadlineTime => t.(deadlineTime := value))
  }

  /** The request sent, the list after the answer, and whether the dialog closes. */
  datatype UpdateStep = UpdateStep(request: Option<Task>, tasks: seq<Task>, closed: bool)

  /** `handleUpdateTask`: nothing happens unless a task with a non-empty id
      is selected; after the server confirms, each task with that id is
      replaced by the edited one and nothing else moves; a failure keeps the
      list. */
  function HandleUpdateTask(tasks: seq<Task>, sel: Option<Task>, resp: Ack): (r: UpdateStep)
    ensures r.request.Some? <==> sel.Some? && sel.value.id != ""
    ensures r.request.Some? ==> r.request.value == sel.value
    ensures r.request.None? || resp.Fail? ==> r.tasks == tasks && !r.closed
    ensures r.request.Some? && resp.Ok? ==>
              && r.closed
              && |r.tasks| == |tasks|
              && forall i :: 0 <= i < |tasks| ==>
                   r.tasks[i] == if tasks[i].id == sel.value.id then sel.value else tasks[i]
  {
    match sel
    case Some(t) =>
      if t.id == "" then UpdateStep(None, tasks, false)
      else if resp.Fail? then UpdateStep(Some(t), tasks, false)
      else UpdateStep(Some(t), Seqs.Replace(tasks, HasId(t.id), t), true)
    case None => UpdateStep(None, tasks, false)
  }

  /** Deleting a task after updating it leaves what deleting it straight
      away leaves: the update is confined to the tasks with that id. */
  lemma DeleteAfterUpdate(tasks: seq<Task>, t: Task)
    requires t.id != ""
    ensures DeleteTask(HandleUpdateTask(tasks, Some(t), Ok(())).tasks, t.id, Ok(()))
            == DeleteTask(tasks, t.id, Ok(()))
  {
    Seqs.FilterAfterReplace(tasks, HasId(t.id), OtherId(t.id), t);
  }
}
