/** The user table of the settings page: search and role filter, the edit
    dialog's field changes, the update guard and the delete target. */
module UserList {
  import opened Outcomes
  import opened Text
  import opened Users
  import Seqs

  /** `String.prototype.toLowerCase`, left as a parameter: its Unicode case
      mapping is not a character-by-character table. */
  type CaseMap = string -> string

  /** A user is listed when the lower-cased name contains the lower-cased
      query and the role filter is empty or equal to the user's role. */
  predicate Matches(u: User, query: string, filterRole: string, lower: CaseMap)
  {
    Contains(lower(u.name), lower(query)) && (filterRole == "" || u.role == filterRole)
  }

  function Keep(query: string, filterRole: string, lower: CaseMap): User -> bool
  {
    (u: User) => Matches(u, query, filterRole, lower)
  }

  /** `filteredUsers`: the matching users, each as often as it occurs, in
      their original order. */
  function FilteredUsers(users: seq<User>, query: string, filterRole: string, lower: CaseMap): (r: seq<User>)
    ensures |r| <= |users|
    ensures forall u :: multiset(r)[u] ==
              if Matches(u, query, filterRole, lower) then multiset(users)[u] else 0
    ensures Seqs.IsSubseq(r, users)
  {
    Seqs.Filter(users, Keep(query, filterRole, lower))
  }

  /** Filtering the filtered list again with the same query and role
      changes nothing. */
  lemma FilteredUsersIdempotent(users: seq<User>, query: string, filterRole: string, lower: CaseMap)
    ensures FilteredUsers(FilteredUsers(users, query, filterRole, lower), query, filterRole, lower)
            == FilteredUsers(users, query, filterRole, lower)
  {
    Seqs.FilterIdempotent(users, Keep(query, filterRole, lower));
  }

  /** With an empty query and "All Roles", every user is listed, in order. */
  lemma BlankFilterKeepsAll(users: seq<User>, lower: CaseMap)
    requires lower("") == ""
    ensures FilteredUsers(users, "", "", lower) == users
  {
    forall i | 0 <= i < |users| ensures Keep("", "", lower)(users[i]) {
      ContainsEmpty(lower(users[i].name));
    }
    Seqs.FilterKeepsAll(users, Keep("", "", lower));
  }

  /** `handleInputChange`: no user selected stays no user; otherwise only the
      named field changes. */
  function HandleInputChange(sel: Option<User>, field: Attr, value: string): (r: Option<User>)
    ensures r.Some? <==> sel.Some?
    ensures r.Some? ==> Get(r.value, field) == value
    ensures r.Some? ==> forall b :: b != field ==> Get(r.value, b) == Get(sel.value, b)
  {
    match sel
    case None => None
    case Some(u) => Some(Set(u, field, value))
  }

  /** `handleRoleChange`: only the role changes. */
  function HandleRoleChange(sel: Option<User>, value: string): (r: Option<User>)
    ensures r.Some? <==> sel.Some?
    ensures r.Some? ==> r.value.role == value
    ensures r.Some? ==> forall b :: b != Role ==> Get(r.value, b) == Get(sel.value, b)
  {
    match sel
    case None => None
    case Some(u) => Some(u.(role := value))
  }

  /** The request `handleUpdateUser` sends, and whether the dialog closes. */
  datatype UpdateStep = UpdateStep(request: Option<User>, closed: bool)

  /** `handleUpdateUser`: nothing is sent unless a user is selected and has a
      non-empty id; the dialog closes only when the server accepts. */
  function HandleUpdateUser(sel: Option<User>, resp: Ack): (r: UpdateStep)
    ensures r.request.Some? <==> sel.Some? && sel.value.id != ""
    ensures r.request.Some? ==> r.request.value == sel.value
    ensures r.closed <==> r.request.Some? && resp.Ok?
  {
    if sel.Some? && sel.value.id != "" then UpdateStep(sel, resp.Ok?)
    else UpdateStep(None, false)
  }

  /** The id the delete dialog passes on: `updatedUser?._id || ""`. */
  function DeleteTarget(sel: Option<User>): (id: string)
    ensures sel.None? ==> id == ""
    ensures sel.Some? ==> id == sel.value.id
  {
    match sel
    case None => ""
    case Some(u) => if u.id != "" then u.id else ""
  }

  /** Editing any field but the id keeps the dialogs aimed at the same user:
      the delete target is unchanged and the update is sent exactly when it
      would have been. */
  lemma EditKeepsTarget(sel: Option<User>, field: Attr, value: string, resp: Ack)
    requires field != Id
    ensures DeleteTarget(HandleInputChange(sel, field, value)) == DeleteTarget(sel)
    ensures HandleUpdateUser(HandleInputChange(sel, field, value), resp).request.Some?
            <==> HandleUpdateUser(sel, resp).request.Some?
  {
  }
}
