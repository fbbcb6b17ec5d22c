/** The admin settings page: the user list with its loading and error state,
    and the add, update and delete handlers it hands to its children. */
module SettingsPage {
  import opened Outcomes
  import opened Users
  import Seqs
  import UserList

  datatype State = State(users: seq<User>, isLoading: bool, error: Option<string>)

  const Initial := State([], true, None)
  const FetchFailed := "Failed to fetch users"

  /** `fetchUsers`: success replaces the list and clears the error; failure
      sets a non-empty error and keeps the list; loading ends either way. */
  function FetchUsers(st: State, resp: ApiResult<seq<User>>): (r: State)
    ensures !r.isLoading
    ensures resp.Ok? ==> r.users == resp.data && r.error.None?
    ensures resp.Fail? ==> r.users == st.users && r.error.Some? && r.error.value != ""
  {
    match resp
    case Ok(data) => State(data, false, None)
    case Fail(_) => st.(isLoading := false, error := Some(ErrorText(resp, FetchFailed)))
  }

  /** The state after a handler, and whether it rethrew the server's error. */
  datatype Change = Change(state: State, rethrown: bool)

  /** The form `addUser` posts, and what the post did to the page. */
  datatype Added = Added(request: UserFormData, change: Change)

  /** `addUser`: the form is posted as given; the created user the server
      answers with goes at the end and earlier entries stay where they were;
      a failure is rethrown with the list untouched. */
  function AddUser(st: State, data: UserFormData, resp: ApiResult<User>): (r: Added)
    ensures r.request == data
    ensures resp.Ok? ==> !r.change.rethrown && |r.change.state.users| == |st.users| + 1
    ensures resp.Ok? ==>
              && r.change.state.users[..|st.users|] == st.users
              && r.change.state.users[|st.users|] == resp.data
    ensures resp.Fail? ==> r.change == Change(st, true)
    ensures r.change.state.isLoading == st.isLoading && r.change.state.error == st.error
  {
    match resp
    case Ok(u) => Added(data, Change(st.(users := st.users + [u]), false))
    case Fail(_) => Added(data, Change(st, true))
  }

  /** `updateUser`: the entries with the edited user's id are replaced, then
      the list is fetched again. If the fetch fails the replaced list stays,
      with the same length and every other entry in place; if it succeeds
      the server's list wins. */
  function UpdateUser(st: State, updated: User, refetch: ApiResult<seq<User>>): (r: State)
    ensures refetch.Ok? ==> r.users == refetch.data
    ensures refetch.Fail? ==> |r.users| == |st.users|
    ensures refetch.Fail? ==> forall i :: 0 <= i < |st.users| ==>
              r.users[i] == if st.users[i].id == updated.id then updated else st.users[i]
    ensures !r.isLoading
  {
    FetchUsers(st.(users := Seqs.Replace(st.users, HasId(updated.id), updated)), refetch)
  }

  /** `deleteUser(id)`: after the server confirms, the users with that id are
      gone and the others stay in order; a failure is rethrown with the list
      untouched. */
  function DeleteUser(st: State, id: string, resp: Ack): (r: Change)
    ensures resp.Fail? ==> r == Change(st, true)
    ensures resp.Ok? ==> !r.rethrown
    ensures resp.Ok? ==>
              forall u :: multiset(r.state.users)[u] == if u.id != id then multiset(st.users)[u] else 0
    ensures resp.Ok? ==> Seqs.IsSubseq(r.state.users, st.users)
    ensures r.state.isLoading == st.isLoading && r.state.error == st.error
  {
    if resp.Ok? then Change(st.(users := Seqs.Filter(st.users, OtherId(id))), false)
    else Change(st, true)
  }

  /** Deleting the same id a second time changes nothing. */
  lemma DeleteUserIdempotent(st: State, id: string)
    ensures DeleteUser(DeleteUser(st, id, Ok(())).state, id, Ok(())) == DeleteUser(st, id, Ok(()))
  {
    Seqs.FilterIdempotent(st.users, OtherId(id));
  }

  /** Deleting a user whose update could not be refetched leaves the list
      that deleting it straight away leaves: the replaced entries are the
      ones the delete removes. */
  lemma DeleteAfterUpdate(st: State, updated: User, refetch: ApiResult<seq<User>>)
    requires refetch.Fail?
    ensures DeleteUser(UpdateUser(st, updated, refetch), updated.id, Ok(())).state.users
            == DeleteUser(st, updated.id, Ok(())).state.users
  {
    Seqs.FilterAfterReplace(st.users, HasId(updated.id), OtherId(updated.id), updated);
  }

  /** Deleting a just-created user by its id leaves the list that deleting
      that id before the creation leaves: nothing of the new entry remains. */
  lemma DeleteAfterAdd(st: State, data: UserFormData, created: User)
    ensures DeleteUser(AddUser(st, data, Ok(created)).change.state, created.id, Ok(())).state.users
            == DeleteUser(st, created.id, Ok(())).state.users
  {
    Seqs.FilterAppend(st.users, created, OtherId(created.id));
  }

  /** What the page shows. */
  datatype View = Loading | ErrorView(message: string) | Content(users: seq<User>)

  /** Loading first, then a (truthy) error, then the form and the table. */
  function Render(st: State): (v: View)
    ensures st.isLoading <==> v == Loading
    ensures v.ErrorView? <==> !st.isLoading && st.error.Some? && st.error.value != ""
    ensures v.ErrorView? ==> v.message == st.error.value
    ensures v.Content? ==> v.users == st.users
  {
    if st.isLoading then Loading
    else if st.error.Some? && st.error.value != "" then ErrorView(st.error.value)
    else Content(st.users)
  }

  /** After the mount-time fetch the page shows the server's users, or the
      error, never the loading placeholder. */
  lemma MountShowsUsersOrError(resp: ApiResult<seq<User>>)
    ensures resp.Ok? ==> Render(FetchUsers(Initial, resp)) == Content(resp.data)
    ensures resp.Fail? ==> Render(FetchUsers(Initial, resp)).ErrorView?
  {
  }

  /** Confirming a delete with no user selected asks to delete the id `""`,
      which every user with an id survives. */
  lemma DeleteWithoutSelection(st: State)
    requires forall i :: 0 <= i < |st.users| ==> st.users[i].id != ""
    ensures DeleteUser(st, UserList.DeleteTarget(None), Ok(())).state.users == st.users
  {
    Seqs.FilterKeepsAll(st.users, OtherId(""));
  }
}
