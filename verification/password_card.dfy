/** The password card: the same three-field form with a stricter check chain,
    and a callback instead of a request. */
module PasswordCard {
  import opened Text
  import opened Outcomes
  import opened PasswordForms
  import ProfilePage

  /** The first failing check, or `Accepted`. */
  datatype CardCheck = CurrentRequired | NewRequired | TooShort | Mismatch | Accepted

  /** `handleSave`'s checks as written: the mismatch test appears twice,
      and a form passing the earlier checks is refused for a mismatch
      exactly when the confirmation differs. */
  function CheckAsWritten(f: PasswordForm): (c: CardCheck)
    ensures c == CurrentRequired <==> AllSpace(f.currentPassword)
    ensures c == NewRequired <==> !AllSpace(f.currentPassword) && AllSpace(f.newPassword)
    ensures c == Mismatch <==>
              && !AllSpace(f.currentPassword) && !AllSpace(f.newPassword)
              && Utf16Length(f.newPassword) >= 8 && f.newPassword != f.confirmPassword
    ensures c == Accepted <==>
              && !AllSpace(f.currentPassword) && !AllSpace(f.newPassword)
              && Utf16Length(f.newPassword) >= 8 && f.newPassword == f.confirmPassword
  {
    if Trim(f.currentPassword) == "" then CurrentRequired
    else if Trim(f.newPassword) == "" then NewRequired
    else if Utf16Length(f.newPassword) < 8 then TooShort
    else if f.newPassword != f.confirmPassword then Mismatch
    else if f.newPassword != f.confirmPassword then Mismatch
    else Accepted
  }

  /** The four distinct checks, in order: blank current, blank new, new
      under eight UTF-16 code units, confirmation differs. */
  function Check(f: PasswordForm): (c: CardCheck)
    ensures c == CurrentRequired <==> AllSpace(f.currentPassword)
    ensures c == NewRequired <==> !AllSpace(f.currentPassword) && AllSpace(f.newPassword)
    ensures c == TooShort <==>
              !AllSpace(f.currentPassword) && !AllSpace(f.newPassword) && Utf16Length(f.newPassword) < 8
    ensures c == Accepted <==>
              && !AllSpace(f.currentPassword) && !AllSpace(f.newPassword)
              && Utf16Length(f.newPassword) >= 8 && f.newPassword == f.confirmPassword
  {
    if Trim(f.currentPassword) == "" then CurrentRequired
    else if Trim(f.newPassword) == "" then NewRequired
    else if Utf16Length(f.newPassword) < 8 then TooShort
    else if f.newPassword != f.confirmPassword then Mismatch
    else Accepted
  }

  /** The repeated mismatch test never fires: the chain as written decides
      exactly as the four distinct checks do. */
  lemma RepeatedCheckUnreachable(f: PasswordForm)
    ensures CheckAsWritten(f) == Check(f)
  {
  }

  /** What one press of "Update Password" does. */
  datatype Save = Save(onUpdate: Option<PasswordRequest>, form: PasswordForm, failure: Option<string>)

  function CheckMessage(c: CardCheck): string
  {
    match c
    case CurrentRequired => "Current password is required"
    case NewRequired => "New password is required"
    case TooShort => "New password must be at least 8 characters"
    case Mismatch => "New passwords do not match"
    case Accepted => ""
  }

  /** `handleSave`: the callback gets exactly the current and new passwords
      when every check passes, and the form is then emptied; any failed check
      leaves the form as it was and calls nothing. */
  function HandleSave(f: PasswordForm): (r: Save)
    ensures r.onUpdate.Some? <==>
              && !AllSpace(f.currentPassword) && !AllSpace(f.newPassword)
              && Utf16Length(f.newPassword) >= 8 && f.newPassword == f.confirmPassword
    ensures r.onUpdate.Some? ==>
              r.onUpdate.value == PasswordRequest(f.currentPassword, f.newPassword) && r.form == Empty
    ensures r.onUpdate.None? ==> r.form == f && r.failure.Some?
  {
    RepeatedCheckUnreachable(f);
    var check := CheckAsWritten(f);
    if check != Accepted then Save(None, f, Some(CheckMessage(check)))
    else Save(Some(RequestOf(f)), Empty, None)
  }

  /** Whatever the card accepts, the profile page accepts. */
  lemma CardStricterThanProfile(f: PasswordForm)
    ensures Check(f) == Accepted ==> ProfilePage.CheckPassword(f) == ProfilePage.Accepted
  {
  }

  /** A form that passes every check of the card is sent by the card, and
      submitting it on the profile page sends the same request. */
  lemma CardAndPageSendSameRequest(st: ProfilePage.ProfileState, resp: Ack)
    requires !AllSpace(st.passwordForm.currentPassword) && !AllSpace(st.passwordForm.newPassword)
    requires Utf16Length(st.passwordForm.newPassword) >= 8
    requires st.passwordForm.newPassword == st.passwordForm.confirmPassword
    ensures HandleSave(st.passwordForm).onUpdate.Some?
    ensures ProfilePage.HandlePasswordUpdate(st, resp).request == HandleSave(st.passwordForm).onUpdate
  {
    CardStricterThanProfile(st.passwordForm);
  }

  /** A form whose new password, confirmed, is eight spaces. */
  const SpacesForm := PasswordForm("secret", "        ", "        ")

  /** Eight spaces as the new password show that the converse fails: the
      card asks for a new password, the profile page sends the request. */
  lemma SpacesSplitTheChains()
    ensures Check(SpacesForm) == NewRequired
    ensures ProfilePage.CheckPassword(SpacesForm) == ProfilePage.Accepted
  {
    var spaces := SpacesForm;
    assert !IsSpace(spaces.currentPassword[0]);
    assert AllSpace(spaces.newPassword) by {
      forall k | 0 <= k < |spaces.newPassword| ensures IsSpace(spaces.newPassword[k]) {
        assert spaces.newPassword[k] == ' ';
      }
    }
  }
}
