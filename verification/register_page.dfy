/** The registration page: input cleaning, the Indonesian phone-number and
    e-mail patterns, per-field validation and the submit guard. The two
    regular expressions are written out as predicates over characters. */
module RegisterPage {
  import opened Outcomes
  import opened Text
  import Seqs

  /** The form; `role` has no input and keeps its initial value. */
  datatype Form = Form(
    name: string,
    phoneNumber: string,
    email: string,
    username: string,
    password: string,
    role: string)

  const Initial := Form("", "", "", "", "", "user")
  const LoginPath := "/login"

  /** The inputs of the page, by their `name` attribute. */
  datatype Field = Name | PhoneNumber | Email | Username | Password

  function FieldValue(f: Form, field: Field): string
  {
    match field
    case Name => f.name
    case PhoneNumber => f.phoneNumber
    case Email => f.email
    case Username => f.username
    case Password => f.password
  }

  /** `value.replace(/\D/g, "")`: the digits of `value`, in order, each as
      often as it occurs. */
  function StripNonDigits(value: string): (r: string)
    ensures AllDigits(r)
    ensures Seqs.IsSubseq(r, value)
    ensures forall c :: multiset(r)[c] == if IsDigit(c) then multiset(value)[c] else 0
  {
    Seqs.FilterMembers(value, IsDigit);
    var r := Seqs.Filter(value, IsDigit);
    assert forall i :: 0 <= i < |r| ==> r[i] in r;
    r
  }

  /** Stripping twice is stripping once. */
  lemma StripIdempotent(value: string)
    ensures StripNonDigits(StripNonDigits(value)) == StripNonDigits(value)
  {
    Seqs.FilterIdempotent(value, IsDigit);
  }

  /** A string of digits is left as it is. */
  lemma StripKeepsDigits(value: string)
    requires AllDigits(value)
    ensures StripNonDigits(value) == value
  {
    Seqs.FilterKeepsAll(value, IsDigit);
  }

  /** `handleChange`: the phone number keeps only its digits, every other
      input is stored as typed, and no other field changes. */
  function HandleChange(f: Form, field: Field, value: string): (r: Form)
    ensures FieldValue(r, field) == if field == PhoneNumber then StripNonDigits(value) else value
    ensures forall g :: g != field ==> FieldValue(r, g) == FieldValue(f, g)
    ensures r.role == f.role
  {
    match field
    case Name => f.(name := value)
    case PhoneNumber => f.(phoneNumber := StripNonDigits(value))
    case Email => f.(email := value)
    case Username => f.(username := value)
    case Password => f.(password := value)
  }

  /** One keystroke's worth of input. */
  datatype Edit = Edit(field: Field, value: string)

  /** The form after a run of edits, in order. */
  function ApplyEdits(f: Form, edits: seq<Edit>): Form
    decreases |edits|
  {
    if edits == [] then f
    else ApplyEdits(HandleChange(f, edits[0].field, edits[0].value), edits[1..])
  }

  /** Whatever is typed, the submitted role is the default `"user"` and the
      phone number holds digits only. */
  lemma {:induction false} EditsKeepRoleAndDigits(f: Form, edits: seq<Edit>)
    requires f.role == "user" && AllDigits(f.phoneNumber)
    ensures ApplyEdits(f, edits).role == "user"
    ensures AllDigits(ApplyEdits(f, edits).phoneNumber)
    decreases |edits|
  {
    if edits != [] {
      EditsKeepRoleAndDigits(HandleChange(f, edits[0].field, edits[0].value), edits[1..]);
    }
  }

  /** From the page's initial form, any run of edits submits the role
      `"user"` and a phone number of digits only. */
  lemma {:induction false} InitialEditsKeepRoleAndDigits(edits: seq<Edit>)
    ensures ApplyEdits(Initial, edits).role == "user"
    ensures AllDigits(ApplyEdits(Initial, edits).phoneNumber)
  {
    EditsKeepRoleAndDigits(Initial, edits);
  }

  /** `\d{9,13}`. */
  predicate DigitRun(t: string)
  {
    9 <= |t| <= 13 && AllDigits(t)
  }

  /** A digit prefix followed by a digit run is all digits. */
  lemma DigitsAfterPrefix(s: string, n: nat)
    requires n <= |s| && AllDigits(s[..n]) && DigitRun(s[n..])
    ensures AllDigits(s)
    ensures 9 + n <= |s| <= 13 + n
  {
    forall k | 0 <= k < |s| ensures IsDigit(s[k]) {
      if k < n {
        assert s[k] == s[..n][k];
      } else {
        assert s[k] == s[n..][k - n];
      }
    }
  }

  /** `validatePhoneNumber`: `/^(62|0)\d{9,13}$/`. An accepted number is
      digits only and 10 to 15 characters long. */
  function ValidPhone(s: string): (b: bool)
    ensures b ==> AllDigits(s) && 10 <= |s| <= 15
  {
    if |s| >= 2 && s[0] == '6' && s[1] == '2' && DigitRun(s[2..]) then
      DigitsAfterPrefix(s, 2);
      true
    else if |s| >= 1 && s[0] == '0' && DigitRun(s[1..]) then
      DigitsAfterPrefix(s, 1);
      true
    else false
  }

  /** An accepted number is all digits and 10 to 15 characters long, so the
      error text's "10-13 digits" understates what the pattern admits. */
  lemma PhoneShape(s: string)
    requires ValidPhone(s)
    ensures AllDigits(s)
    ensures 10 <= |s| <= 15
    ensures s[0] == '0' ==> |s| <= 14
  {
    var n := if s[0] == '6' then 2 else 1;
    forall k | n <= k < |s| ensures IsDigit(s[k]) {
      assert s[k] == s[n..][k - n];
    }
  }

  /** The accepted numbers described by shape alone: digits only, and
      either a leading `0` and 10 to 14 characters, or a leading `62` and
      11 to 15 characters. */
  predicate PhoneDigitsShape(s: string)
  {
    && AllDigits(s)
    && (|| (|s| >= 1 && s[0] == '0' && 10 <= |s| <= 14)
        || (|s| >= 2 && s[0] == '6' && s[1] == '2' && 11 <= |s| <= 15))
  }

  /** The pattern accepts exactly the numbers of that shape. */
  lemma ValidPhoneIffShape(s: string)
    ensures ValidPhone(s) <==> PhoneDigitsShape(s)
  {
    if ValidPhone(s) {
      PhoneShape(s);
    }
    if PhoneDigitsShape(s) {
      var n := if s[0] == '0' then 1 else 2;
      forall k | 0 <= k < |s[n..]| ensures IsDigit(s[n..][k]) {
        assert s[n..][k] == s[k + n];
      }
    }
  }

  /** Fifteen digits starting with 62 are accepted. */
  lemma FifteenDigitsAccepted()
    ensures ValidPhone("621234567890123")
  {
    assert "621234567890123"[2..] == "1234567890123";
  }

  /** `[^\s@]`. */
  predicate Plain(c: char)
  {
    !IsSpace(c) && c != '@'
  }

  predicate AllPlain(t: string)
  {
    forall k :: 0 <= k < |t| ==> Plain(t[k])
  }

  /** `/^[^\s@]+@[^\s@]+\.[^\s@]+$/`: a split of `s` into three non-empty
      runs of plain characters joined by `@` and `.`. */
  predicate EmailPattern(s: string)
  {
    exists i, j | 0 < i < j < |s| ::
      && i + 1 < j && j + 1 < |s|
      && s[i] == '@' && s[j] == '.'
      && AllPlain(s[..i]) && AllPlain(s[i + 1..j]) && AllPlain(s[j + 1..])
  }

  /** The same set of addresses, described by rules: no white space, exactly
      one `@` with something before it, and after it a `.` that is neither
      the first nor the last character. */
  predicate EmailRules(s: string)
  {
    var i := IndexOf(s, '@');
    && (forall k :: 0 <= k < |s| ==> !IsSpace(s[k]))
    && 0 < i < |s|
    && (forall k :: i < k < |s| ==> s[k] != '@')
    && exists j | i + 1 < j < |s| - 1 :: s[j] == '.'
  }

  lemma EmailPatternIffRules(s: string)
    ensures EmailPattern(s) <==> EmailRules(s)
  {
    if EmailPattern(s) {
      var i, j :| 0 < i < j < |s| && i + 1 < j && j + 1 < |s|
        && s[i] == '@' && s[j] == '.'
        && AllPlain(s[..i]) && AllPlain(s[i + 1..j]) && AllPlain(s[j + 1..]);
      PlainPieces(s, i, j);
      assert IndexOf(s, '@') == i;
    }
    if EmailRules(s) {
      var i := IndexOf(s, '@');
      var j :| i + 1 < j < |s| - 1 && s[j] == '.';
      PlainSlice(s, 0, i);
      PlainSlice(s, i + 1, j);
      PlainSlice(s, j + 1, |s|);
      assert s[j + 1..|s|] == s[j + 1..];
    }
  }

  lemma PlainSlice(s: string, a: int, b: int)
    requires 0 <= a <= b <= |s|
    requires forall k :: a <= k < b ==> Plain(s[k])
    ensures AllPlain(s[a..b])
  {
  }

  /** Each character of a matched address is plain, the `@` or the `.`. */
  lemma PlainPieces(s: string, i: int, j: int)
    requires 0 < i && i + 1 < j && j + 1 < |s|
    requires s[i] == '@' && s[j] == '.'
    requires AllPlain(s[..i]) && AllPlain(s[i + 1..j]) && AllPlain(s[j + 1..])
    ensures forall k :: 0 <= k < |s| ==> !IsSpace(s[k])
    ensures forall k :: 0 <= k < |s| && k != i ==> s[k] != '@'
  {
    forall k | 0 <= k < |s| ensures !IsSpace(s[k]) && (k != i ==> s[k] != '@') {
      if k < i {
        assert s[k] == s[..i][k];
      } else if i < k < j {
        assert s[k] == s[i + 1..j][k - i - 1];
      } else if j < k {
        assert s[k] == s[j + 1..][k - j - 1];
      }
    }
  }

  /** A well-formed phone number or address is never blank, so the
      "required" test can only fire where the format test fails too. */
  lemma FormatsAreNotBlank(phone: string, email: string)
    ensures ValidPhone(phone) ==> !AllSpace(phone)
    ensures EmailPattern(email) <==> EmailRules(email)
    ensures EmailRules(email) ==> !AllSpace(email)
  {
    EmailPatternIffRules(email);
    if ValidPhone(phone) {
      PhoneShape(phone);
      assert IsDigit(phone[0]);
    }
    if EmailRules(email) {
      assert !IsSpace(email[0]);
    }
  }

  /** One message per field at most. */
  datatype RegErrors = RegErrors(
    name: Option<string>,
    phoneNumber: Option<string>,
    email: Option<string>,
    username: Option<string>,
    password: Option<string>)

  const NameRequired := "Name is required"
  const PhoneRequired := "Phone number is required"
  const PhoneInvalid := "Invalid Indonesian phone number. Must start with 62 or 0 and be 10-13 digits long."
  const EmailRequired := "Email is required"
  const EmailInvalid := "Invalid email format"
  const UsernameRequired := "Username is required"
  const PasswordRequired := "Password is required"
  const PasswordShort := "Password must be at least 6 characters"

  /** The name and username rule: not blank once trimmed. */
  function RequiredError(value: string, message: string): (e: Option<string>)
    ensures e.Some? <==> AllSpace(value)
    ensures e.Some? ==> e.value == message
  {
    if Trim(value) == "" then Some(message) else None
  }

  /** The phone rule: "required" when blank, else the pattern. */
  function PhoneError(phone: string): (e: Option<string>)
    ensures e.Some? <==> !ValidPhone(phone)
    ensures AllSpace(phone) ==> e == Some(PhoneRequired)
    ensures e.Some? && !AllSpace(phone) ==> e == Some(PhoneInvalid)
  {
    FormatsAreNotBlank(phone, "");
    if Trim(phone) == "" then Some(PhoneRequired)
    else if !ValidPhone(phone) then Some(PhoneInvalid)
    else None
  }

  /** The e-mail rule: "required" when blank, else the pattern. */
  function EmailError(email: string): (e: Option<string>)
    ensures e.Some? <==> !EmailRules(email)
    ensures AllSpace(email) ==> e == Some(EmailRequired)
    ensures e.Some? && !AllSpace(email) ==> e == Some(EmailInvalid)
  {
    FormatsAreNotBlank("", email);
    if Trim(email) == "" then Some(EmailRequired)
    else if !EmailPattern(email) then Some(EmailInvalid)
    else None
  }

  /** The password rule: "required" when empty, else at least six UTF-16
      code units (`.length`). */
  function PasswordError(password: string): (e: Option<string>)
    ensures e.Some? <==> Utf16Length(password) < 6
    ensures password == "" ==> e == Some(PasswordRequired)
    ensures e.Some? && password != "" ==> e == Some(PasswordShort)
  {
    if password == "" then Some(PasswordRequired)
    else if Utf16Length(password) < 6 then Some(PasswordShort)
    else None
  }

  /** Three astral characters make six UTF-16 code units, so a password of
      three emoji meets the six-character rule. */
  lemma AstralPasswordAccepted()
    ensures |"\U{1F600}\U{1F600}\U{1F600}"| == 3
    ensures PasswordError("\U{1F600}\U{1F600}\U{1F600}") == None
  {
    AstralLength("\U{1F600}\U{1F600}\U{1F600}");
  }

  /** `validateForm`: every field is checked and keeps at most one message;
      the form passes exactly when every rule holds. */
  function ValidateForm(f: Form): (e: RegErrors)
    ensures e.name.Some? <==> AllSpace(f.name)
    ensures e.phoneNumber.Some? <==> !ValidPhone(f.phoneNumber)
    ensures e.email.Some? <==> !EmailRules(f.email)
    ensures e.username.Some? <==> AllSpace(f.username)
    ensures e.password.Some? <==> Utf16Length(f.password) < 6
    ensures NoErrors(e) <==>
              && !AllSpace(f.name) && ValidPhone(f.phoneNumber) && EmailRules(f.email)
              && !AllSpace(f.username) && Utf16Length(f.password) >= 6
  {
    var name := RequiredError(f.name, NameRequired);
    var phone := PhoneError(f.phoneNumber);
    var email := EmailError(f.email);
    var username := RequiredError(f.username, UsernameRequired);
    var password := PasswordError(f.password);
    RegErrors(name, phone, email, username, password)
  }

  predicate NoErrors(e: RegErrors)
  {
    e.name.None? && e.phoneNumber.None? && e.email.None? && e.username.None? && e.password.None?
  }

  /** Everything one press of "Register" does. */
  datatype Submit = Submit(errors: RegErrors, request: Option<Form>, nav: Option<string>, failure: Option<string>)

  /** `handleSubmit`: the form is posted, role included, only when every rule
      holds; a successful answer leads to the login page. */
  function HandleSubmit(f: Form, resp: Ack): (r: Submit)
    ensures r.request.Some? <==>
              && !AllSpace(f.name) && ValidPhone(f.phoneNumber) && EmailRules(f.email)
              && !AllSpace(f.username) && Utf16Length(f.password) >= 6
    ensures r.errors == ValidateForm(f)
    ensures r.request.Some? ==> r.request.value == f
    ensures r.nav.Some? <==> r.request.Some? && resp.Ok?
    ensures r.nav.Some? ==> r.nav.value == LoginPath
    ensures r.failure.Some? <==> r.request.Some? && resp.Fail?
  {
    var errors := ValidateForm(f);
    if !NoErrors(errors) then Submit(errors, None, None, None)
    else match resp
      case Ok(_) => Submit(errors, Some(f), Some(LoginPath), None)
      case Fail(_) => Submit(errors, Some(f), None, Some(ErrorText(resp, "Registration failed")))
  }
}
