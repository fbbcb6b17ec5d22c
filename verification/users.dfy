/** The user record the REST API returns, and the payload used to create one. */
module Users {

  /** One stored account. `id` is the server's `_id`. */
  datatype User = User(
    id: string,
    name: string,
    phoneNumber: string,
    email: string,
    username: string,
    role: string,
    createdAt: string,
    updatedAt: string)

  /** What the admin form posts to create an account. */
  datatype UserFormData = UserFormData(
    name: string,
    phoneNumber: string,
    email: string,
    username: string,
    password: string,
    role: string)

  /** `users.map((user) => user._id)`. */
  function Ids(users: seq<User>): (ids: seq<string>)
    ensures |ids| == |users|
    ensures forall i :: 0 <= i < |users| ==> ids[i] == users[i].id
  {
    seq(|users|, i requires 0 <= i < |users| => users[i].id)
  }

  /** The record's fields, by their property name. */
  datatype Attr = Id | Name | PhoneNumber | Email | Username | Role | CreatedAt | UpdatedAt

  function Get(u: User, a: Attr): string
  {
    match a
    case Id => u.id
    case Name => u.name
    case PhoneNumber => u.phoneNumber
    case Email => u.email
    case Username => u.username
    case Role => u.role
    case CreatedAt => u.createdAt
    case UpdatedAt => u.updatedAt
  }

  /** `{ ...u, [a]: value }`: the named field takes the value, the others keep
      theirs. */
  function Set(u: User, a: Attr, value: string): (r: User)
    ensures Get(r, a) == value
    ensures forall b :: b != a ==> Get(r, b) == Get(u, b)
  {
    match a
    case Id => u.(id := value)
    case Name => u.(name := value)
    case PhoneNumber => u.(phoneNumber := value)
    case Email => u.(email := value)
    case Username => u.(username := value)
    case Role => u.(role := value)
    case CreatedAt => u.(createdAt := value)
    case UpdatedAt => u.(updatedAt := value)
  }

  /** `user._id === id` and its negation, as tests for filter and map. */
  function HasId(id: string): User -> bool
  {
    (u: User) => u.id == id
  }

  function OtherId(id: string): User -> bool
  {
    (u: User) => u.id != id
  }
}
