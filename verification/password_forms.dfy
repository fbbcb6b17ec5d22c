/** The three-field password form that the profile page and the password card
    both keep, its field edit, and the two-field request both send. */
module PasswordForms {

  datatype PasswordForm = PasswordForm(currentPassword: string, newPassword: string, confirmPassword: string)

  /** The initial form and the form after a successful change. */
  const Empty := PasswordForm("", "", "")

  /** The inputs, by their `name` attribute. */
  datatype PasswordField = Current | New | Confirm

  function FieldValue(f: PasswordForm, field: PasswordField): string
  {
    match field
    case Current => f.currentPassword
    case New => f.newPassword
    case Confirm => f.confirmPassword
  }

  /** `{ ...prev, [name]: value }`: the named field takes the value as typed,
      the others keep theirs. */
  function Edit(f: PasswordForm, field: PasswordField, value: string): (r: PasswordForm)
    ensures FieldValue(r, field) == value
    ensures forall g :: g != field ==> FieldValue(r, g) == FieldValue(f, g)
  {
    match field
    case Current => f.(currentPassword := value)
    case New => f.(newPassword := value)
    case Confirm => f.(confirmPassword := value)
  }

  /** What is sent: the confirmation never leaves the form. */
  datatype PasswordRequest = PasswordRequest(currentPassword: string, newPassword: string)

  function RequestOf(f: PasswordForm): PasswordRequest
  {
    PasswordRequest(f.currentPassword, f.newPassword)
  }
}
