/** The profile-edit screen: the form prefilled from the signed-in user,
    and the validation sequence run before the (simulated) save. */
module EditProfile {
  import opened Wrappers
  import opened Text
  import opened AuthService

  datatype ProfileForm = ProfileForm(
    name: string,
    email: string,
    currentPassword: string,
    newPassword: string,
    confirmPassword: string,
    skills: string,
    companyDescription: string)

  datatype Outcome = Rejected(message: string) | Accepted

  const NameAndEmailRequired: string := "Nome e email são obrigatórios"
  const SkillsRequired: string := "Habilidades são obrigatórias para candidatos"
  const DescriptionRequired: string := "Descrição da empresa é obrigatória"
  const CurrentPasswordRequired: string := "Informe a senha atual para alterar a senha"
  const NewPasswordTooShort: string := "A nova senha deve ter pelo menos 6 caracteres"
  const ConfirmationMismatch: string := "A confirmação da senha não confere"
  const InvalidEmail: string := "Por favor, insira um email válido"

  const EmptyForm: ProfileForm := ProfileForm("", "", "", "", "", "", "")

  /** The form as the screen first shows it: the user's name and e-mail, a
      candidate's skills joined with ", ", a company's description. */
  function Prefill(user: Option<User>): (f: ProfileForm)
    ensures user.None? ==> f == EmptyForm
    ensures user.Some? ==> f.name == user.value.name && f.email == user.value.email
    ensures f.currentPassword == "" && f.newPassword == "" && f.confirmPassword == ""
    ensures user.Some? && user.value.kind == CandidateUser && user.value.skills.Some? ==>
              f.skills == Join(user.value.skills.value, ", ")
    ensures !(user.Some? && user.value.kind == CandidateUser && user.value.skills.Some?) ==> f.skills == ""
    ensures user.Some? && user.value.kind == CompanyUser ==>
              f.companyDescription == user.value.companyDescription.GetOr("")
    ensures !(user.Some? && user.value.kind == CompanyUser) ==> f.companyDescription == ""
  {
    match user
    case None => EmptyForm
    case Some(u) =>
      var skills := if u.kind == CandidateUser && u.skills.Some? then Join(u.skills.value, ", ") else "";
      var description :=
        if u.kind == CompanyUser && u.companyDescription.Some? && u.companyDescription.value != ""
        then u.companyDescription.value else "";
      ProfileForm(u.name, u.email, "", "", "", skills, description)
  }

  /** The password block, run only when a new password is given. */
  function PasswordError(f: ProfileForm): (r: Option<string>)
    ensures f.newPassword == "" ==> r.None?
    ensures f.newPassword != "" && f.currentPassword == "" ==> r == Some(CurrentPasswordRequired)
    ensures f.newPassword != "" && f.currentPassword != "" && Utf16Length(f.newPassword) < 6 ==>
              r == Some(NewPasswordTooShort)
    ensures (f.newPassword != "" && f.currentPassword != "" && Utf16Length(f.newPassword) >= 6
              && f.newPassword != f.confirmPassword) ==> r == Some(ConfirmationMismatch)
    ensures r.None? <==> (f.newPassword == "" ||
              (f.currentPassword != "" && Utf16Length(f.newPassword) >= 6 && f.newPassword == f.confirmPassword))
  {
    if f.newPassword == "" then None
    else if f.currentPassword == "" then Some(CurrentPasswordRequired)
    else if Utf16Length(f.newPassword) < 6 then Some(NewPasswordTooShort)
    else if f.newPassword != f.confirmPassword then Some(ConfirmationMismatch)
    else None
  }

  /** The type-specific requirement on the form. */
  predicate KindFieldFilled(user: Option<User>, f: ProfileForm) {
    && (user.Some? && user.value.kind == CandidateUser ==> !IsBlank(f.skills))
    && (user.Some? && user.value.kind == CompanyUser ==> !IsBlank(f.companyDescription))
  }

  /** `handleSaveProfile` up to `setLoading(true)`. */
  function HandleSaveProfile(user: Option<User>, f: ProfileForm): (r: Outcome)
    ensures r.Accepted? <==> f.name != "" && f.email != "" && KindFieldFilled(user, f)
                             && PasswordError(f).None? && '@' in f.email
    ensures f.name == "" || f.email == "" ==> r == Rejected(NameAndEmailRequired)
    ensures f.name != "" && f.email != "" && !KindFieldFilled(user, f) ==>
              r == Rejected(if user.value.kind == CandidateUser then SkillsRequired else DescriptionRequired)
    ensures f.name != "" && f.email != "" && KindFieldFilled(user, f) && PasswordError(f).Some? ==>
              r == Rejected(PasswordError(f).value)
    ensures f.name != "" && f.email != "" && KindFieldFilled(user, f) && PasswordError(f).None? && '@' !in f.email ==>
              r == Rejected(InvalidEmail)
  {
    TrimEmptyIffBlank(f.skills);
    TrimEmptyIffBlank(f.companyDescription);
    IncludesChar(f.email, '@');
    if f.name == "" || f.email == "" then Rejected(NameAndEmailRequired)
    else if user.Some? && user.value.kind == CandidateUser && Trim(f.skills) == "" then Rejected(SkillsRequired)
    else if user.Some? && user.value.kind == CompanyUser && Trim(f.companyDescription) == "" then Rejected(DescriptionRequired)
    else if PasswordError(f).Some? then Rejected(PasswordError(f).value)
    else if !Includes(f.email, "@") then Rejected(InvalidEmail)
    else Accepted
  }

  /** With no new password, the current and confirmation fields are
      irrelevant. */
  lemma EmptyNewPasswordSkipsChecks(user: Option<User>, f: ProfileForm, current: string, confirm: string)
    requires f.newPassword == ""
    ensures HandleSaveProfile(user, f.(currentPassword := current, confirmPassword := confirm))
         == HandleSaveProfile(user, f)
  {
  }

  /** A password problem is reported before a malformed e-mail. */
  lemma PasswordBeforeEmail(user: Option<User>, f: ProfileForm)
    requires f.name != "" && f.email != "" && '@' !in f.email && KindFieldFilled(user, f)
    requires f.newPassword != "" && f.currentPassword == ""
    ensures HandleSaveProfile(user, f) == Rejected(CurrentPasswordRequired)
  {
  }

  /** The prefilled skills text splits on "," back into the candidate's
      skills (each after the first with the space the join added). */
  lemma PrefillSkillsRoundTrip(u: User)
    requires u.kind == CandidateUser && u.skills.Some? && |u.skills.value| >= 1
    requires forall k :: 0 <= k < |u.skills.value| ==> ',' !in u.skills.value[k]
    ensures Split(Prefill(Some(u)).skills, ',') == Spaced(u.skills.value)
  {
    SplitCommaJoined(u.skills.value);
  }
}
