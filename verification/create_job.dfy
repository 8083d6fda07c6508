/** The job-creation screen: form validation, the company check and the
    job data built from the form.

    The check reads a `userType` property of the signed-in user object,
    but the signed-in user (the authentication service's `User`) carries
    its kind in `type`. `HandleCreateJob` follows the check as written;
    `HandleCreateJobIntended` checks `type`. */
module CreateJob {
  import opened Wrappers
  import opened Seqs
  import opened Text
  import opened Values
  import AuthService

  datatype JobForm = JobForm(
    title: string,
    description: string,
    requirements: string,
    location: string,
    contractType: string,
    salary: string,
    category: string)

  /** The job data handed to the (absent) job-creation call. `company` and
      `companyId` are whatever the user object holds under `name` and `id`. */
  datatype JobDraft = JobDraft(
    title: string,
    description: string,
    requirements: seq<string>,
    location: string,
    category: string,
    contractType: string,
    salary: Option<string>,
    company: Value,
    companyId: Value)

  datatype Outcome = Rejected(message: string) | Built(draft: JobDraft)

  const TitleMissing: string := "Por favor, informe o título da vaga"
  const DescriptionMissing: string := "Por favor, informe a descrição da vaga"
  const RequirementsMissing: string := "Por favor, informe os requisitos da vaga"
  const LocationMissing: string := "Por favor, informe a localização da vaga"
  const CategoryMissing: string := "Por favor, informe a categoria da vaga"
  const CompaniesOnly: string := "Apenas empresas podem criar vagas"

  /** None of the five required fields is blank. */
  predicate FormComplete(f: JobForm) {
    !IsBlank(f.title) && !IsBlank(f.description) && !IsBlank(f.requirements)
    && !IsBlank(f.location) && !IsBlank(f.category)
  }

  /** `validateForm`: the first blank field among title, description,
      requirements, location and category. */
  function ValidateForm(f: JobForm): (r: Option<string>)
    ensures r.None? <==> FormComplete(f)
    ensures IsBlank(f.title) ==> r == Some(TitleMissing)
    ensures !IsBlank(f.title) && IsBlank(f.description) ==> r == Some(DescriptionMissing)
    ensures !IsBlank(f.title) && !IsBlank(f.description) && IsBlank(f.requirements) ==>
              r == Some(RequirementsMissing)
    ensures (!IsBlank(f.title) && !IsBlank(f.description) && !IsBlank(f.requirements)
              && IsBlank(f.location)) ==> r == Some(LocationMissing)
    ensures (!IsBlank(f.title) && !IsBlank(f.description) && !IsBlank(f.requirements)
              && !IsBlank(f.location) && IsBlank(f.category)) ==> r == Some(CategoryMissing)
  {
    TrimEmptyIffBlank(f.title);
    TrimEmptyIffBlank(f.description);
    TrimEmptyIffBlank(f.requirements);
    TrimEmptyIffBlank(f.location);
    TrimEmptyIffBlank(f.category);
    if Trim(f.title) == "" then Some(TitleMissing)
    else if Trim(f.description) == "" then Some(DescriptionMissing)
    else if Trim(f.requirements) == "" then Some(RequirementsMissing)
    else if Trim(f.location) == "" then Some(LocationMissing)
    else if Trim(f.category) == "" then Some(CategoryMissing)
    else None
  }

  function NonEmpty(s: string): bool {
    |s| > 0
  }

  /** The lines of the requirements text, each trimmed. */
  function TrimmedLines(text: string): (lines: seq<string>)
    ensures |lines| == |Split(text, '\n')|
    ensures forall k :: 0 <= k < |lines| ==> lines[k] == Trim(Split(text, '\n')[k])
  {
    Map(Split(text, '\n'), Trim)
  }

  /** Every trimmed line is its own trim. */
  lemma TrimmedLinesAreTrimmed(text: string)
    ensures forall x :: x in TrimmedLines(text) ==> Trim(x) == x
  {
    var lines := TrimmedLines(text);
    forall x | x in lines
      ensures Trim(x) == x
    {
      var k :| 0 <= k < |lines| && lines[k] == x;
      TrimIdempotent(Split(text, '\n')[k]);
    }
  }

  /** `requirements.split('\n').map(trim).filter(r => r.length > 0)`: the
      non-empty trimmed lines, in order and with their repetitions. */
  function ParseRequirements(text: string): (items: seq<string>)
    ensures |items| <= |Split(text, '\n')|
    ensures forall x :: x in items ==> x != "" && Trim(x) == x
    ensures forall x :: x in items <==> x in TrimmedLines(text) && x != ""
    ensures forall x :: multiset(items)[x] == if x != "" then multiset(TrimmedLines(text))[x] else 0
    ensures IsSubsequence(items, TrimmedLines(text))
  {
    var lines := TrimmedLines(text);
    var items := Filter(lines, NonEmpty);
    TrimmedLinesAreTrimmed(text);
    KeptLines(lines, items);
    FilterIsSubsequence(lines, NonEmpty);
    FilterCounts(lines, NonEmpty);
    items
  }

  /** A requirements text that is not blank yields at least one item. */
  lemma RequirementsNotEmpty(text: string)
    requires !IsBlank(text)
    ensures |ParseRequirements(text)| >= 1
  {
    var k := NonBlankPart(text, '\n');
    var line := Split(text, '\n')[k];
    TrimEmptyIffBlank(line);
    assert TrimmedLines(text)[k] == Trim(line) != "";
  }

  /** The non-empty lines are exactly the kept ones. */
  lemma KeptLines(lines: seq<string>, items: seq<string>)
    requires items == Filter(lines, NonEmpty)
    ensures forall x :: x in items <==> x in lines && x != ""
  {
    forall x | x in lines && x != ""
      ensures x in items
    {
      var k :| 0 <= k < |lines| && lines[k] == x;
      assert NonEmpty(lines[k]);
    }
  }

  /** `salary.trim() || undefined`. */
  function SalaryField(salary: string): (r: Option<string>)
    ensures r.None? <==> IsBlank(salary)
    ensures r.Some? ==> r.value == Trim(salary) && r.value != ""
  {
    TrimEmptyIffBlank(salary);
    if Trim(salary) == "" then None else Some(Trim(salary))
  }

  /** A text field as the job stores it: non-empty and already trimmed. */
  predicate Clean(s: string) {
    s != "" && Trim(s) == s
  }

  /** The job data built from a form for the given user object. The text
      fields are the form's, trimmed; once the form has passed validation
      every one of them is clean and there is at least one requirement.
      A blank salary is left out. */
  function BuildJob(f: JobForm, user: map<string, Value>): (d: JobDraft)
    ensures d.title == Trim(f.title) && d.description == Trim(f.description)
    ensures d.location == Trim(f.location) && d.category == Trim(f.category)
    ensures FormComplete(f) ==>
              Clean(d.title) && Clean(d.description) && Clean(d.location) && Clean(d.category)
    ensures FormComplete(f) ==> |d.requirements| >= 1
    ensures forall x :: x in d.requirements ==> Clean(x)
    ensures d.requirements == ParseRequirements(f.requirements)
    ensures d.salary.None? <==> IsBlank(f.salary)
    ensures d.salary.Some? ==> Clean(d.salary.value) && d.salary.value == Trim(f.salary)
    ensures d.contractType == f.contractType
    ensures d.company == Get(user, "name") && d.companyId == Get(user, "id")
  {
    TrimEmptyIffBlank(f.title);
    TrimEmptyIffBlank(f.description);
    TrimEmptyIffBlank(f.location);
    TrimEmptyIffBlank(f.category);
    TrimIdempotent(f.title);
    TrimIdempotent(f.description);
    TrimIdempotent(f.location);
    TrimIdempotent(f.category);
    TrimIdempotent(f.salary);
    var d := JobDraft(Trim(f.title), Trim(f.description), ParseRequirements(f.requirements), Trim(f.location),
                      Trim(f.category), f.contractType, SalaryField(f.salary), Get(user, "name"), Get(user, "id"));
    if FormComplete(f) then
      RequirementsNotEmpty(f.requirements);
      d
    else d
  }

  /** `handleCreateJob` as written: the user object must be present and its
      `userType` property must be "company". */
  function HandleCreateJob(f: JobForm, user: Option<map<string, Value>>): (r: Outcome)
    ensures !FormComplete(f) ==> r == Rejected(ValidateForm(f).value)
    ensures FormComplete(f) && (user.None? || Get(user.value, "userType") != VStr("company")) ==>
              r == Rejected(CompaniesOnly)
    ensures r.Built? <==> FormComplete(f) && user.Some? && Get(user.value, "userType") == VStr("company")
    ensures r.Built? ==> r.draft == BuildJob(f, user.value)
  {
    match ValidateForm(f)
    case Some(msg) => Rejected(msg)
    case None =>
      if user.None? || Get(user.value, "userType") != VStr("company") then Rejected(CompaniesOnly)
      else Built(BuildJob(f, user.value))
  }

  /** The signed-in user as a JavaScript object: the authentication
      service's `User` record, whose kind is under `type`. */
  function UserObject(u: AuthService.User): (o: map<string, Value>)
    ensures "userType" !in o
    ensures Get(o, "id") == VStr(u.id) && Get(o, "name") == VStr(u.name)
    ensures Get(o, "type") == VStr(if u.kind == AuthService.CompanyUser then "company" else "candidate")
  {
    var base := map["id" := VStr(u.id), "name" := VStr(u.name), "email" := VStr(u.email),
                    "type" := VStr(if u.kind == AuthService.CompanyUser then "company" else "candidate")];
    var withSkills := if u.skills.Some? then base["skills" := VArr(Map(u.skills.value, (s: string) => VStr(s)))] else base;
    var withCompany := if u.company.Some? then withSkills["company" := VStr(u.company.value)] else withSkills;
    if u.companyDescription.Some? then withCompany["companyDescription" := VStr(u.companyDescription.value)]
    else withCompany
  }

  /** As written, no signed-in user can create a job, companies included. */
  lemma SignedInUserAlwaysRejected(f: JobForm, u: AuthService.User)
    ensures HandleCreateJob(f, Some(UserObject(u))).Rejected?
  {
  }

  /** The intended check: the signed-in user's `type` must be "company". */
  function HandleCreateJobIntended(f: JobForm, user: Option<AuthService.User>): (r: Outcome)
    ensures !FormComplete(f) ==> r == Rejected(ValidateForm(f).value)
    ensures r.Built? <==> FormComplete(f) && user.Some? && user.value.kind == AuthService.CompanyUser
    ensures FormComplete(f) && !(user.Some? && user.value.kind == AuthService.CompanyUser) ==>
              r == Rejected(CompaniesOnly)
    ensures r.Built? ==> r.draft.company == VStr(user.value.name) && r.draft.companyId == VStr(user.value.id)
  {
    match ValidateForm(f)
    case Some(msg) => Rejected(msg)
    case None =>
      if user.None? || Get(UserObject(user.value), "type") != VStr("company") then Rejected(CompaniesOnly)
      else Built(BuildJob(f, UserObject(user.value)))
  }

  /** With the intended check, a signed-in company posting a valid form gets
      its job built, with its own name and id on it. */
  lemma CompanyCanCreateJob(f: JobForm, u: AuthService.User)
    requires FormComplete(f) && u.kind == AuthService.CompanyUser
    ensures HandleCreateJobIntended(f, Some(u)) == Built(BuildJob(f, UserObject(u)))
    ensures HandleCreateJobIntended(f, Some(u)).draft.company == VStr(u.name)
  {
  }
}
