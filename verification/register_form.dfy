/** The validation sequence of the registration screen: the first failing
    check produces the alert message, and only a form that passes every
    check goes on to the (simulated) submission. */
module RegisterForm {
  import opened Text

  datatype Outcome = Rejected(message: string) | Accepted

  const FillAllFields: string := "Por favor, preencha todos os campos"
  const PasswordTooShort: string := "A senha deve ter pelo menos 6 caracteres"
  const InvalidEmail: string := "Por favor, insira um email válido"

  /** Every field is non-empty (a whitespace-only field counts as filled). */
  predicate AllFilled(fullName: string, email: string, password: string, skills: string) {
    fullName != "" && email != "" && password != "" && skills != ""
  }

  /** `handleRegister` up to `setLoading(true)`. */
  function HandleRegister(fullName: string, email: string, password: string, skills: string): (r: Outcome)
    ensures r.Accepted? <==> AllFilled(fullName, email, password, skills)
                             && Utf16Length(password) >= 6 && '@' in email
    ensures !AllFilled(fullName, email, password, skills) ==> r == Rejected(FillAllFields)
    ensures AllFilled(fullName, email, password, skills) && Utf16Length(password) < 6 ==>
              r == Rejected(PasswordTooShort)
    ensures AllFilled(fullName, email, password, skills) && Utf16Length(password) >= 6 && '@' !in email ==>
              r == Rejected(InvalidEmail)
  {
    IncludesChar(email, '@');
    if fullName == "" || email == "" || password == "" || skills == "" then Rejected(FillAllFields)
    else if Utf16Length(password) < 6 then Rejected(PasswordTooShort)
    else if !Includes(email, "@") then Rejected(InvalidEmail)
    else Accepted
  }

  /** Skills are not trimmed: a non-empty, whitespace-only skills field
      passes. */
  lemma BlankSkillsAccepted(fullName: string, email: string, password: string, skills: string)
    requires fullName != "" && '@' in email && Utf16Length(password) >= 6
    requires skills != "" && IsBlank(skills)
    ensures HandleRegister(fullName, email, password, skills) == Accepted
  {
    IncludesChar(email, '@');
  }

  /** A short password is reported even when the e-mail is also wrong. */
  lemma PasswordCheckedBeforeEmail(fullName: string, email: string, password: string, skills: string)
    requires AllFilled(fullName, email, password, skills) && Utf16Length(password) < 6 && '@' !in email
    ensures HandleRegister(fullName, email, password, skills) == Rejected(PasswordTooShort)
  {
  }
}
