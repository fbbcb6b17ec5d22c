/** The profile page: the profile form filled from the signed-in user, its
    field edits, the profile update guarded by `loading`, and the password
    change with its three checks. The signed-in user and its setter are
    explicit inputs and outputs here. */
module ProfilePage {
  import opened Outcomes
  import opened Text
  import opened PasswordForms

  /** The editable profile fields. */
  datatype ProfileForm = ProfileForm(name: string, email: string, phoneNumber: string, username: string)

  /** The signed-in user as the page reads it; any field may be missing. */
  datatype ProfileUser = ProfileUser(
    name: Option<string>,
    email: Option<string>,
    phoneNumber: Option<string>,
    username: Option<string>)

  datatype ProfileField = Name | Email | PhoneNumber | Username

  function ProfileValue(f: ProfileForm, field: ProfileField): string
  {
    match field
    case Name => f.name
    case Email => f.email
    case PhoneNumber => f.phoneNumber
    case Username => f.username
  }

  /** `user.<field> || ""`. */
  function OrEmpty(v: Option<string>): (r: string)
    ensures v.Some? ==> r == v.value
    ensures v.None? ==> r == ""
  {
    v.GetOr("")
  }

  /** The effect on `user`: with no user the form is left alone; otherwise
      every field is copied, a missing one as the empty string. */
  function InitProfileForm(prev: ProfileForm, user: Option<ProfileUser>): (r: ProfileForm)
    ensures user.None? ==> r == prev
    ensures user.Some? ==>
              && r.name == OrEmpty(user.value.name)
              && r.email == OrEmpty(user.value.email)
              && r.phoneNumber == OrEmpty(user.value.phoneNumber)
              && r.username == OrEmpty(user.value.username)
  {
    match user
    case None => prev
    case Some(u) => ProfileForm(OrEmpty(u.name), OrEmpty(u.email), OrEmpty(u.phoneNumber), OrEmpty(u.username))
  }

  /** The user the server answers with when it stores the form as sent. */
  function Echo(f: ProfileForm): ProfileUser
  {
    ProfileUser(Some(f.name), Some(f.email), Some(f.phoneNumber), Some(f.username))
  }

  /** When the server echoes the submitted profile, the effect that refills
      the form from the new user gives back the form that was sent. */
  lemma ProfileUpdateRoundTrip(st: ProfileState)
    requires !st.loading
    ensures HandleProfileUpdate(st, Ok(Echo(st.profileForm))).request == Some(st.profileForm)
    ensures InitProfileForm(st.profileForm, HandleProfileUpdate(st, Ok(Echo(st.profileForm))).state.user)
            == st.profileForm
  {
  }

  /** `handleProfileInputChange`: only the named field changes. */
  function EditProfile(f: ProfileForm, field: ProfileField, value: string): (r: ProfileForm)
    ensures ProfileValue(r, field) == value
    ensures forall g :: g != field ==> ProfileValue(r, g) == ProfileValue(f, g)
  {
    match field
    case Name => f.(name := value)
    case Email => f.(email := value)
    case PhoneNumber => f.(phoneNumber := value)
    case Username => f.(username := value)
  }

  /** The page state the handlers read and write. */
  datatype ProfileState = ProfileState(
    loading: bool,
    user: Option<ProfileUser>,
    profileForm: ProfileForm,
    passwordForm: PasswordForm)

  /** The result of one handler: new state, the request sent if any, and the
      error message shown if any. */
  datatype Outcome<R> = Outcome(state: ProfileState, request: Option<R>, failure: Option<string>)

  /** `handleProfileUpdate`. While a request is in flight it does nothing;
      otherwise it sends the form, replaces the user with the server's copy
      on success, and always ends with `loading` cleared. */
  function HandleProfileUpdate(st: ProfileState, resp: ApiResult<ProfileUser>): (r: Outcome<ProfileForm>)
    ensures st.loading ==> r == Outcome(st, None, None)
    ensures !st.loading ==> r.request == Some(st.profileForm) && !r.state.loading
    ensures !st.loading ==> r.state.user == (if resp.Ok? then Some(resp.data) else st.user)
    ensures r.state.profileForm == st.profileForm && r.state.passwordForm == st.passwordForm
    ensures r.failure.Some? <==> !st.loading && resp.Fail?
  {
    if st.loading then Outcome(st, None, None)
    else match resp
      case Ok(u) => Outcome(st.(user := Some(u), loading := false), Some(st.profileForm), None)
      case Fail(_) =>
        Outcome(st.(loading := false), Some(st.profileForm), Some(ErrorText(resp, "Failed to update profile")))
  }

  /** The first failing check of `handlePasswordUpdate`, or `Accepted`. */
  datatype PasswordCheck = CurrentRequired | TooShort | Mismatch | Accepted

  /** Blank current password, then a new one under eight UTF-16 code
      units, then a confirmation that differs; the first failure is the one
      reported. The new password is never checked for being blank. */
  function CheckPassword(f: PasswordForm): (c: PasswordCheck)
    ensures c == CurrentRequired <==> AllSpace(f.currentPassword)
    ensures c == TooShort <==> !AllSpace(f.currentPassword) && Utf16Length(f.newPassword) < 8
    ensures c == Mismatch <==>
              !AllSpace(f.currentPassword) && Utf16Length(f.newPassword) >= 8 && f.newPassword != f.confirmPassword
    ensures c == Accepted <==>
              !AllSpace(f.currentPassword) && Utf16Length(f.newPassword) >= 8 && f.newPassword == f.confirmPassword
  {
    if Trim(f.currentPassword) == "" then CurrentRequired
    else if Utf16Length(f.newPassword) < 8 then TooShort
    else if f.newPassword != f.confirmPassword then Mismatch
    else Accepted
  }

  function CheckMessage(c: PasswordCheck): string
  {
    match c
    case CurrentRequired => "Current password is required"
    case TooShort => "New password must be at least 8 characters"
    case Mismatch => "New passwords do not match"
    case Accepted => ""
  }

  /** `handlePasswordUpdate`. A failed check sends nothing and changes
      nothing; otherwise the current and new passwords are sent, and the form
      is emptied only when the server accepts. It does not look at `loading`. */
  function HandlePasswordUpdate(st: ProfileState, resp: Ack): (r: Outcome<PasswordRequest>)
    ensures CheckPassword(st.passwordForm) != Accepted ==>
              r.state == st && r.request.None? && r.failure.Some?
    ensures CheckPassword(st.passwordForm) == Accepted ==>
              && r.request == Some(PasswordRequest(st.passwordForm.currentPassword, st.passwordForm.newPassword))
              && !r.state.loading
              && r.state.passwordForm == (if resp.Ok? then Empty else st.passwordForm)
              && (r.failure.Some? <==> resp.Fail?)
    ensures r.state.user == st.user && r.state.profileForm == st.profileForm
  {
    var check := CheckPassword(st.passwordForm);
    if check != Accepted then Outcome(st, None, Some(CheckMessage(check)))
    else
      var request := RequestOf(st.passwordForm);
      match resp
      case Ok(_) => Outcome(st.(passwordForm := Empty, loading := false), Some(request), None)
      case Fail(_) =>
        Outcome(st.(loading := false), Some(request), Some(ErrorText(resp, "Failed to update password")))
  }

  /** Four astral characters make eight UTF-16 code units, so four emoji,
      confirmed, pass the length check. */
  lemma AstralNewPasswordAccepted(current: string)
    requires !AllSpace(current)
    ensures CheckPassword(PasswordForm(current, "\U{1F600}\U{1F600}\U{1F600}\U{1F600}",
                                       "\U{1F600}\U{1F600}\U{1F600}\U{1F600}")) == Accepted
  {
    AstralLength("\U{1F600}\U{1F600}\U{1F600}\U{1F600}");
  }

  /** Eight spaces, confirmed, pass every check. */
  lemma SpacesAcceptedAsNewPassword(current: string)
    requires !AllSpace(current)
    ensures CheckPassword(PasswordForm(current, "        ", "        ")) == Accepted
  {
  }
}
