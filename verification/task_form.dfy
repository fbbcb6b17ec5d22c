/** The task form: "assign to all users", the two submit guards, the reset
    after a created task, and the admin-only submit button. The signed-in
    user is an explicit input. Deadlines are abstract ordered values. */
module TaskForm {
  import opened Outcomes
  import opened Users
  import AdminGate

  /** The task being written; `users` holds the assigned user ids. */
  datatype NewTask = NewTask(
    name: string,
    description: string,
    deadlineDate: string,
    deadlineTime: string,
    users: seq<string>)

  const EmptyTask := NewTask("", "", "", "", [])

  /** The form, the checkbox, and the users fetched on mount. */
  datatype FormState = FormState(task: NewTask, assignAll: bool, fetched: seq<User>)

  const Initial := FormState(EmptyTask, false, [])

  const DeadlinePast := "Deadline must be in the future."
  const NoUsers := "Please select at least one user."
  const CreateFailed := "Failed to create task. Please try again."

  /** The mount-time fetch; a failure is only logged. */
  function LoadUsers(st: FormState, resp: ApiResult<seq<User>>): (r: FormState)
    ensures r.fetched == (if resp.Ok? then resp.data else st.fetched)
    ensures r.task == st.task && r.assignAll == st.assignAll
  {
    match resp
    case Ok(data) => st.(fetched := data)
    case Fail(_) => st
  }

  datatype TaskInput = Name | Description | DeadlineDate | DeadlineTime

  function InputValue(t: NewTask, field: TaskInput): string
  {
    match field
    case Name => t.name
    case Description => t.description
    case DeadlineDate => t.deadlineDate
    case DeadlineTime => t.deadlineTime
  }

  /** `handleInputChange`: only the named field changes. */
  function HandleInputChange(st: FormState, field: TaskInput, value: string): (r: FormState)
    ensures InputValue(r.task, field) == value
    ensures forall g :: g != field ==> InputValue(r.task, g) == InputValue(st.task, g)
    ensures r.task.users == st.task.users && r.assignAll == st.assignAll && r.fetched == st.fetched
  {
    var t := st.task;
    st.(task := match field
      case Name => t.(name := value)
      case Description => t.(description := value)
      case DeadlineDate => t.(deadlineDate := value)
      case DeadlineTime => t.(deadlineTime := value))
  }

  /** `handleUserSelection`: checking assigns every fetched user, in order;
      unchecking assigns nobody. Nothing else changes. */
  function HandleUserSelection(st: FormState, checked: bool): (r: FormState)
    ensures r.assignAll == checked
    ensures checked ==> |r.task.users| == |st.fetched|
    ensures checked ==> forall i :: 0 <= i < |st.fetched| ==> r.task.users[i] == st.fetched[i].id
    ensures !checked ==> r.task.users == []
    ensures r.task == st.task.(users := r.task.users) && r.fetched == st.fetched
  {
    st.(assignAll := checked, task := st.task.(users := if checked then Ids(st.fetched) else []))
  }

  /** A run of checkbox clicks, in order. */
  function ApplyClicks(st: FormState, clicks: seq<bool>): FormState
    decreases |clicks|
  {
    if clicks == [] then st else ApplyClicks(HandleUserSelection(st, clicks[0]), clicks[1..])
  }

  /** After any run of clicks the checkbox shows the last one, and the
      assignment matches it. */
  lemma {:induction false} CheckboxFollowsLastClick(st: FormState, clicks: seq<bool>)
    requires clicks != []
    ensures ApplyClicks(st, clicks).assignAll == clicks[|clicks| - 1]
    ensures ApplyClicks(st, clicks).task.users ==
            (if clicks[|clicks| - 1] then Ids(st.fetched) else [])
    ensures ApplyClicks(st, clicks).fetched == st.fetched
    decreases |clicks|
  {
    if |clicks| > 1 {
      CheckboxFollowsLastClick(HandleUserSelection(st, clicks[0]), clicks[1..]);
    }
  }

  /** The deadline built from the date and time inputs: `None` is an
      invalid date, which compares false with everything. */
  type Deadline = Option<int>

  /** `selectedDeadline <= currentDate`. */
  predicate NotInFuture(deadline: Deadline, now: int)
  {
    deadline.Some? && deadline.value <= now
  }

  /** Everything one press of "Create Task" does. */
  datatype Submit = Submit(state: FormState, request: Option<NewTask>, taskAdded: bool, failure: Option<string>)

  /** `handleSubmit`: a deadline not in the future is refused first, then an
      empty assignment; otherwise the task is posted, and only a success
      resets the form and the checkbox and fires `onTaskAdded`. */
  function HandleSubmit(st: FormState, deadline: Deadline, now: int, resp: Ack): (r: Submit)
    ensures r.request.Some? <==> !NotInFuture(deadline, now) && st.task.users != []
    ensures NotInFuture(deadline, now) ==> r.failure == Some(DeadlinePast)
    ensures !NotInFuture(deadline, now) && st.task.users == [] ==> r.failure == Some(NoUsers)
    ensures r.request.Some? ==> r.request.value == st.task
    ensures r.taskAdded <==> r.request.Some? && resp.Ok?
    ensures r.taskAdded ==> r.state == Initial.(fetched := st.fetched)
    ensures !r.taskAdded ==> r.state == st
  {
    if NotInFuture(deadline, now) then Submit(st, None, false, Some(DeadlinePast))
    else if |st.task.users| == 0 then Submit(st, None, false, Some(NoUsers))
    else match resp
      case Ok(_) => Submit(st.(task := EmptyTask, assignAll := false), Some(st.task), true, None)
      case Fail(_) => Submit(st, Some(st.task), false, Some(CreateFailed))
  }

  /** An unparseable deadline slips past the deadline check. */
  lemma InvalidDeadlinePasses(st: FormState, now: int, resp: Ack)
    requires st.task.users != []
    ensures HandleSubmit(st, None, now, resp).request == Some(st.task)
  {
  }

  /** `user?.role === "admin"`. */
  function IsAdmin(user: Option<User>): (b: bool)
    ensures b <==> user.Some? && user.value.role == "admin"
  {
    match user
    case None => false
    case Some(u) => u.role == "admin"
  }

  /** The submit button is disabled for everyone but an admin. */
  function SubmitDisabled(user: Option<User>): (d: bool)
    ensures d <==> user.None? || user.value.role != "admin"
  {
    !IsAdmin(user)
  }

  /** For a signed-in user the submit button is enabled exactly when the
      admin wrapper would render the page for that user's role. */
  lemma SubmitEnabledIffGateRenders(u: User)
    ensures !SubmitDisabled(Some(u)) <==> AdminGate.Decide(true, Some(u.role)).render
  {
  }

  /** Ticking "assign to all" before the mount-time fetch has answered
      assigns nobody, and the fetch does not repair it: the box stays
      ticked, the assignment stays empty, and a submit with a good
      deadline is refused for having no users. */
  lemma CheckedBeforeFetch(users: seq<User>, deadline: Deadline, now: int, resp: Ack)
    requires !NotInFuture(deadline, now)
    ensures LoadUsers(HandleUserSelection(Initial, true), Ok(users)).assignAll
    ensures LoadUsers(HandleUserSelection(Initial, true), Ok(users)).task.users == []
    ensures HandleSubmit(LoadUsers(HandleUserSelection(Initial, true), Ok(users)), deadline, now, resp).failure
            == Some(NoUsers)
  {
  }
}
