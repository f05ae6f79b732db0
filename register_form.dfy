/** The checks the registration page runs before it posts the form
    (src/app/auth/register/page.tsx): three early returns, taken in order,
    and the first one that fails names the error shown. */
module RegisterForm {

  const MinPasswordLength: nat := 8

  const AllFieldsRequired: string := "All fields are required"
  const PasswordsDoNotMatch: string := "Passwords do not match"
  const PasswordTooShort: string := "Password must be at least 8 characters"

  /** What pressing "register" does: show an error, or post the body
      `{ email, password, name }` to the registration endpoint. */
  datatype Submission =
    | Rejected(error: string)
    | Post(email: string, password: string, name: string)

  /** The validation at the top of `handleSubmit`. */
  function Validate(email: string, password: string, confirmPassword: string, name: string): (s: Submission)
    ensures s.Rejected? && s.error == AllFieldsRequired <==> email == "" || password == "" || confirmPassword == ""
    ensures s.Rejected? && s.error == PasswordsDoNotMatch <==>
              email != "" && password != "" && confirmPassword != "" && password != confirmPassword
    ensures s.Rejected? && s.error == PasswordTooShort <==>
              email != "" && password != "" && password == confirmPassword && |password| < MinPasswordLength
    ensures s.Post? <==>
              email != "" && password == confirmPassword && |password| >= MinPasswordLength
    ensures s.Post? ==> s == Post(email, password, name)
  {
    if email == "" || password == "" || confirmPassword == "" then Rejected(AllFieldsRequired)
    else if password != confirmPassword then Rejected(PasswordsDoNotMatch)
    else if |password| < MinPasswordLength then Rejected(PasswordTooShort)
    else Post(email, password, name)
  }

  /** The name plays no part in the decision: any name, including none,
      gives the same verdict, and a posted form carries it unchanged. */
  lemma NameNeverValidated(email: string, password: string, confirmPassword: string, name1: string, name2: string)
    ensures (Validate(email, password, confirmPassword, name1).Rejected? <==>
             Validate(email, password, confirmPassword, name2).Rejected?)
    ensures Validate(email, password, confirmPassword, name1).Rejected? ==>
              Validate(email, password, confirmPassword, name1) == Validate(email, password, confirmPassword, name2)
    ensures Validate(email, password, confirmPassword, "").Post? ==>
              Validate(email, password, confirmPassword, name1).name == name1
  {
  }

  /** The mismatch is checked before the length: with every field filled
      in, passwords that differ report the mismatch whatever their length,
      and the length is only judged once they agree. */
  lemma MismatchBeforeLength(email: string, password: string, confirmPassword: string, name: string)
    requires email != "" && password != "" && confirmPassword != ""
    ensures password != confirmPassword ==>
              Validate(email, password, confirmPassword, name) == Rejected(PasswordsDoNotMatch)
    ensures password == confirmPassword && |password| < MinPasswordLength ==>
              Validate(email, password, confirmPassword, name) == Rejected(PasswordTooShort)
  {
  }
}
