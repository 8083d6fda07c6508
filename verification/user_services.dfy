/** The candidate and company services, each a record store under its own
    storage key that is seeded with default records the first time the
    service is used, and the unified user service over both.

    Both services share one storage map. Their seed data and their
    "already seeded" flags are part of the state; the current time and
    generated ids are parameters. */
module UserServices {
  import opened Wrappers
  import opened Seqs
  import opened Text
  import opened Values
  import opened BaseStorage

  /** Which of the two services an operation addresses. */
  datatype Kind = Candidates | Companies

  datatype UserServices = UserServices(
    db: Db,
    candidateDefaults: seq<Record>,
    companyDefaults: seq<Record>,
    candidatesSeeded: bool,
    companiesSeeded: bool)

  /** The state after a call together with its answer. */
  datatype Reply<T> = Reply(state: UserServices, out: T)

  datatype CompanySize = Startup | Small | Medium | Large | Enterprise

  const CandidatesKey: string := "@candidates"
  const CompaniesKey: string := "@companies"

  /** The storage key of each service; the two services never share one. */
  function KeyOf(k: Kind): (key: string)
    ensures k == Candidates <==> key == CandidatesKey
    ensures k == Companies <==> key == CompaniesKey
  {
    match k
    case Candidates => CandidatesKey
    case Companies => CompaniesKey
  }

  /** The `userType` tag each service stamps on what it creates. */
  function UserTypeOf(k: Kind): string {
    match k
    case Candidates => "candidate"
    case Companies => "company"
  }

  function SizeName(size: CompanySize): string {
    match size
    case Startup => "startup"
    case Small => "small"
    case Medium => "medium"
    case Large => "large"
    case Enterprise => "enterprise"
  }

  function Seeded(st: UserServices, k: Kind): bool {
    match k
    case Candidates => st.candidatesSeeded
    case Companies => st.companiesSeeded
  }

  function Defaults(st: UserServices, k: Kind): seq<Record> {
    match k
    case Candidates => st.candidateDefaults
    case Companies => st.companyDefaults
  }

  function WithSeeded(st: UserServices, k: Kind, b: bool): UserServices {
    match k
    case Candidates => st.(candidatesSeeded := b)
    case Companies => st.(companiesSeeded := b)
  }

  /** The collection of one service as it stands (without seeding). */
  function Stored(st: UserServices, k: Kind): seq<Record> {
    GetAll(st.db, KeyOf(k))
  }

  /** The other service's collection, defaults and flag are untouched. */
  predicate OtherUntouched(st: UserServices, st': UserServices, k: Kind) {
    var o := if k == Candidates then Companies else Candidates;
    && SameElsewhere(st.db, st'.db, KeyOf(k))
    && Seeded(st', o) == Seeded(st, o)
    && st'.candidateDefaults == st.candidateDefaults
    && st'.companyDefaults == st.companyDefaults
  }

  /** The store keys other than the two services' are as they were. */
  predicate OtherKeysUntouched(db: Db, db': Db) {
    db' - {CandidatesKey, CompaniesKey} == db - {CandidatesKey, CompaniesKey}
  }

  /** The private `initialize`: while the flag is down, seed the store if it
      is empty and raise the flag; once the flag is up, do nothing. */
  function Initialize(st: UserServices, k: Kind): (st': UserServices)
    ensures Seeded(st', k)
    ensures Seeded(st, k) ==> st' == st
    ensures !Seeded(st, k) && Stored(st, k) == [] ==> Stored(st', k) == Defaults(st, k)
    ensures Stored(st, k) != [] ==> Stored(st', k) == Stored(st, k)
    ensures OtherUntouched(st, st', k)
  {
    if Seeded(st, k) then st
    else WithSeeded(st.(db := InitializeWithDefaults(st.db, KeyOf(k), Defaults(st, k))), k, true)
  }

  /** `getAllCandidates` / `getAllCompanies`. */
  function GetAllOf(st: UserServices, k: Kind): (r: Reply<seq<Record>>)
    ensures r.state == Initialize(st, k)
    ensures r.out == Stored(r.state, k)
    ensures !Seeded(st, k) && Stored(st, k) == [] ==> r.out == Defaults(st, k)
    ensures Stored(st, k) != [] ==> r.out == Stored(st, k)
  {
    var s := Initialize(st, k);
    Reply(s, GetAll(s.db, KeyOf(k)))
  }

  /** `getCandidateById` / `getCompanyById`. */
  function GetByIdOf(st: UserServices, k: Kind, id: string): (r: Reply<Option<Record>>)
    ensures r.state == Initialize(st, k)
    ensures r.out.None? <==> !HasId(Stored(r.state, k), id)
    ensures r.out.Some? ==> Id(r.out.value) == id
    ensures r.out.Some? ==> exists i :: 0 <= i < |Stored(r.state, k)| && Stored(r.state, k)[i] == r.out.value
                              && forall j :: 0 <= j < i ==> Id(Stored(r.state, k)[j]) != id
  {
    var s := Initialize(st, k);
    Reply(s, GetById(s.db, KeyOf(k), id))
  }

  /** `record[field] === text`; never throws. */
  function FieldIs(field: string, text: string): Record -> Verdict {
    (r: Record) => if Get(r, field) == VStr(text) then Match else NoMatch
  }

  /** No record's `field` is exactly `text`. */
  predicate NoneWithField(items: seq<Record>, field: string, text: string) {
    forall i :: 0 <= i < |items| ==> Get(items[i], field) != VStr(text)
  }

  /** The first record whose `field` is exactly `text`. */
  predicate FirstWithField(items: seq<Record>, field: string, text: string, r: Record) {
    exists i :: 0 <= i < |items| && items[i] == r && Get(r, field) == VStr(text)
      && forall j :: 0 <= j < i ==> Get(items[j], field) != VStr(text)
  }

  /** Lookup of the first record with an exactly equal property: backs
      `getCandidateByEmail`, `getCompanyByEmail` and `getCompanyByName`. */
  function GetByFieldOf(st: UserServices, k: Kind, field: string, text: string): (r: Reply<Option<Record>>)
    ensures r.state == Initialize(st, k)
    ensures r.out.None? <==> NoneWithField(Stored(r.state, k), field, text)
    ensures r.out.Some? ==> FirstWithField(Stored(r.state, k), field, text, r.out.value)
  {
    var s := Initialize(st, k);
    var items := GetAll(s.db, KeyOf(k));
    var found := FindOneBy(s.db, KeyOf(k), FieldIs(field, text));
    assert found == Find(items, Holds(FieldIs(field, text)));
    Reply(s, found)
  }

  /** `createCandidate` / `createCompany`: stamp the service's `userType` and
      the creation time, then create the record through the store. */
  function CreateOf(st: UserServices, k: Kind, data: map<string, Value>, now: Date, freshId: string)
    : (r: Reply<Record>)
    requires IdField(data)
    ensures SuppliesId(data) ==> Id(r.out) == data["id"].s
    ensures !SuppliesId(data) ==> Id(r.out) == freshId
    ensures r.out.Keys == data.Keys + {"id", "userType", "createdAt", "updatedAt"}
    ensures Get(r.out, "userType") == VStr(UserTypeOf(k))
    ensures Get(r.out, "createdAt") == VDate(now) && Get(r.out, "updatedAt") == VDate(now)
    ensures forall f :: f in data && f !in {"id", "userType", "createdAt", "updatedAt"} ==> Get(r.out, f) == data[f]
    ensures Stored(r.state, k) == Stored(Initialize(st, k), k) + [r.out]
    ensures OtherUntouched(st, r.state, k) && Seeded(r.state, k)
  {
    var s := Initialize(st, k);
    var stamped := data["userType" := VStr(UserTypeOf(k))]["createdAt" := VDate(now)]["updatedAt" := VDate(now)];
    var c := Create(s.db, KeyOf(k), stamped, freshId);
    Reply(s.(db := c.db), c.out)
  }

  /** `updateCandidate` / `updateCompany`: the store's `update` with
      `updatedAt` overwritten by the current time. */
  function UpdateOf(st: UserServices, k: Kind, id: string, updates: map<string, Value>, now: Date)
    : (r: Reply<Option<Record>>)
    requires "id" !in updates
    ensures r.out.None? <==> !HasId(Stored(Initialize(st, k), k), id)
    ensures r.out.None? ==> r.state == Initialize(st, k)
    ensures r.out.Some? ==> Id(r.out.value) == id && Get(r.out.value, "updatedAt") == VDate(now)
    ensures r.out.Some? ==> forall f :: f in updates && f != "updatedAt" ==> Get(r.out.value, f) == updates[f]
    ensures r.out.Some? ==> |Stored(r.state, k)| == |Stored(Initialize(st, k), k)|
    ensures r.out.Some? ==> exists i :: MergedAt(Stored(Initialize(st, k), k), Stored(r.state, k), i, id,
                                                 Stamped(updates, now), r.out.value)
    ensures OtherUntouched(st, r.state, k) && Seeded(r.state, k)
  {
    var s := Initialize(st, k);
    var r := UpdateSeeded(s, k, id, updates, now);
    UntouchedTrans(st, s, r.state, k);
    r
  }

  /** The updates as the services pass them to the store: with `updatedAt`
      set to the current time. */
  function Stamped(updates: map<string, Value>, now: Date): map<string, Value> {
    updates["updatedAt" := VDate(now)]
  }

  /** The update itself, on a service that is already seeded. */
  function UpdateSeeded(s: UserServices, k: Kind, id: string, updates: map<string, Value>, now: Date)
    : (r: Reply<Option<Record>>)
    requires "id" !in updates
    ensures r.out.None? <==> !HasId(Stored(s, k), id)
    ensures r.out.None? ==> r.state == s
    ensures r.out.Some? ==> Id(r.out.value) == id && Get(r.out.value, "updatedAt") == VDate(now)
    ensures r.out.Some? ==> forall f :: f in updates && f != "updatedAt" ==> Get(r.out.value, f) == updates[f]
    ensures r.out.Some? ==> |Stored(r.state, k)| == |Stored(s, k)|
    ensures r.out.Some? ==> exists i :: MergedAt(Stored(s, k), Stored(r.state, k), i, id,
                                                 Stamped(updates, now), r.out.value)
    ensures OtherUntouched(s, r.state, k) && Seeded(r.state, k) == Seeded(s, k)
  {
    var u := Update(s.db, KeyOf(k), id, Stamped(updates, now));
    Reply(s.(db := u.db), u.out)
  }

  /** Leaving the other service untouched twice leaves it untouched. */
  lemma UntouchedTrans(s1: UserServices, s2: UserServices, s3: UserServices, k: Kind)
    requires OtherUntouched(s1, s2, k) && OtherUntouched(s2, s3, k)
    ensures OtherUntouched(s1, s3, k)
  {
  }

  /** `deleteCandidate` / `deleteCompany`. */
  function DeleteOf(st: UserServices, k: Kind, id: string): (r: Reply<bool>)
    ensures r.out <==> HasId(Stored(Initialize(st, k), k), id)
    ensures RemovedId(Stored(Initialize(st, k), k), Stored(r.state, k), id)
    ensures !r.out ==> r.state == Initialize(st, k)
    ensures OtherUntouched(st, r.state, k) && Seeded(r.state, k)
  {
    var s := Initialize(st, k);
    var d := Delete(s.db, KeyOf(k), id);
    if d.out then Reply(s.(db := d.db), true)
    else
      NothingToRemove(GetAll(s.db, KeyOf(k)), id);
      Reply(s, false)
  }

  /** `clearAllCandidates` / `clearAllCompanies`: drop the stored collection
      and lower the flag, so the next call seeds again. */
  function ClearAllOf(st: UserServices, k: Kind): (st': UserServices)
    ensures Stored(st', k) == [] && !Seeded(st', k)
    ensures OtherUntouched(st, st', k)
  {
    WithSeeded(st.(db := Clear(st.db, KeyOf(k))), k, false)
  }

  /** `candidateSkill.toLowerCase().includes(q.toLowerCase())` over the
      candidate's skills, stopping at the first hit; a skill that is not a
      string throws. */
  function SkillHit(skills: seq<Value>, q: string): (v: Verdict)
    ensures AllStrings(skills) ==> v != Raises
    ensures AllStrings(skills) ==> (v == Match <==> SkillMatches(skills, q))
    decreases |skills|
  {
    if |skills| == 0 then NoMatch
    else match skills[0]
      case VStr(s) =>
        if Includes(Lower(s), Lower(q)) then Match
        else
          var v := SkillHit(skills[1..], q);
          assert AllStrings(skills) ==> AllStrings(skills[1..]);
          assert SkillMatches(skills, q) <==> SkillMatches(skills[1..], q) by {
            assert forall i :: 1 <= i < |skills| ==> skills[1..][i - 1] == skills[i];
          }
          v
      case _ => Raises
  }

  predicate AllStrings(xs: seq<Value>) {
    forall i :: 0 <= i < |xs| ==> xs[i].VStr?
  }

  /** Some skill contains `q`, ignoring case. */
  predicate SkillMatches(skills: seq<Value>, q: string) {
    exists i :: 0 <= i < |skills| && skills[i].VStr? && Includes(Lower(skills[i].s), Lower(q))
  }

  /** `qs.some(q => ...)`: the first query skill with a hit decides. */
  function AnyQueryHit(qs: seq<string>, skills: seq<Value>): (v: Verdict)
    ensures AllStrings(skills) ==> v != Raises
    ensures AllStrings(skills) ==> (v == Match <==> exists j :: 0 <= j < |qs| && SkillMatches(skills, qs[j]))
    decreases |qs|
  {
    if |qs| == 0 then NoMatch
    else
      var v := SkillHit(skills, qs[0]);
      if v == NoMatch then
        var w := AnyQueryHit(qs[1..], skills);
        assert forall j :: 1 <= j < |qs| ==> qs[1..][j - 1] == qs[j];
        w
      else v
  }

  /** The skills predicate: with no query skills nothing is read and
      nothing matches; otherwise `skills` must be an array. */
  function SkillsTest(qs: seq<string>): Record -> Verdict {
    (r: Record) =>
      if |qs| == 0 then NoMatch
      else match Get(r, "skills")
        case VArr(xs) => AnyQueryHit(qs, xs)
        case _ => Raises
  }

  /** A candidate whose `skills` is an array of strings. */
  predicate WellFormedSkills(r: Record) {
    Get(r, "skills").VArr? && AllStrings(Get(r, "skills").items)
  }

  /** `searchCandidatesBySkills`. */
  function SearchCandidatesBySkills(st: UserServices, qs: seq<string>): (r: Reply<seq<Record>>)
    ensures r.state == Initialize(st, Candidates)
    ensures |qs| == 0 ==> r.out == []
    ensures (forall c :: c in Stored(r.state, Candidates) ==> WellFormedSkills(c)) ==>
              forall c :: c in r.out <==> (c in Stored(r.state, Candidates)
                && exists j :: 0 <= j < |qs| && SkillMatches(Get(c, "skills").items, qs[j]))
    ensures (forall c :: c in Stored(r.state, Candidates) ==> WellFormedSkills(c)) ==>
              forall c :: multiset(r.out)[c] ==
                if c in Stored(r.state, Candidates)
                   && exists j :: 0 <= j < |qs| && SkillMatches(Get(c, "skills").items, qs[j])
                then multiset(Stored(r.state, Candidates))[c] else 0
    ensures IsSubsequence(r.out, Stored(r.state, Candidates))
  {
    var s := Initialize(st, Candidates);
    KeptBySkills(GetAll(s.db, CandidatesKey), qs);
    Reply(s, FindBy(s.db, CandidatesKey, SkillsTest(qs)))
  }

  /** `candidate.location?.toLowerCase().includes(...) || false`: a missing
      or null location does not match; a non-string one throws. */
  function LocationTest(location: string): Record -> Verdict {
    (r: Record) =>
      match Get(r, "location")
      case VUndefined => NoMatch
      case VNull => NoMatch
      case VStr(s) => if Includes(Lower(s), Lower(location)) then Match else NoMatch
      case _ => Raises
  }

  /** A location the location predicate can read without throwing. */
  predicate LocationReadable(c: Record) {
    Get(c, "location").VUndefined? || Get(c, "location").VNull? || Get(c, "location").VStr?
  }

  /** A field the containment predicate can read without throwing: a string. */
  predicate FieldReadable(c: Record, field: string) {
    Get(c, field).VStr?
  }

  /** `getCandidatesByLocation`: nothing as soon as one candidate's
      location is neither a string nor missing; otherwise the candidates
      whose location contains the text. */
  function GetCandidatesByLocation(st: UserServices, location: string): (r: Reply<seq<Record>>)
    ensures r.state == Initialize(st, Candidates)
    ensures forall c :: c in r.out <==>
              (forall d :: d in Stored(r.state, Candidates) ==> LocationReadable(d))
              && c in Stored(r.state, Candidates)
              && Get(c, "location").VStr? && Includes(Lower(Get(c, "location").s), Lower(location))
    ensures forall c :: multiset(r.out)[c] ==
              if (forall d :: d in Stored(r.state, Candidates) ==> LocationReadable(d))
                 && Get(c, "location").VStr? && Includes(Lower(Get(c, "location").s), Lower(location))
              then multiset(Stored(r.state, Candidates))[c] else 0
    ensures IsSubsequence(r.out, Stored(r.state, Candidates))
  {
    var s := Initialize(st, Candidates);
    KeptByLocation(GetAll(s.db, CandidatesKey), location);
    Reply(s, FindBy(s.db, CandidatesKey, LocationTest(location)))
  }

  /** `company[field].toLowerCase().includes(text.toLowerCase())`; a
      non-string field throws. */
  function FieldContains(field: string, text: string): Record -> Verdict {
    (r: Record) =>
      match Get(r, field)
      case VStr(s) => if Includes(Lower(s), Lower(text)) then Match else NoMatch
      case _ => Raises
  }

  /** `getCompaniesByIndustry` (`field` = "industry") and
      `getCompaniesByLocation` (`field` = "location"). */
  function GetCompaniesWhereContains(st: UserServices, field: string, text: string): (r: Reply<seq<Record>>)
    ensures r.state == Initialize(st, Companies)
    ensures forall c :: c in r.out <==>
              (forall d :: d in Stored(r.state, Companies) ==> FieldReadable(d, field))
              && c in Stored(r.state, Companies)
              && Get(c, field).VStr? && Includes(Lower(Get(c, field).s), Lower(text))
    ensures forall c :: multiset(r.out)[c] ==
              if (forall d :: d in Stored(r.state, Companies) ==> FieldReadable(d, field))
                 && Get(c, field).VStr? && Includes(Lower(Get(c, field).s), Lower(text))
              then multiset(Stored(r.state, Companies))[c] else 0
    ensures IsSubsequence(r.out, Stored(r.state, Companies))
  {
    var s := Initialize(st, Companies);
    KeptWhereContains(GetAll(s.db, CompaniesKey), field, text);
    Reply(s, FindBy(s.db, CompaniesKey, FieldContains(field, text)))
  }

  /** `getCompaniesBySize`: exact equality, never throws. */
  function GetCompaniesBySize(st: UserServices, size: CompanySize): (r: Reply<seq<Record>>)
    ensures r.state == Initialize(st, Companies)
    ensures forall c :: c in r.out <==> c in Stored(r.state, Companies) && Get(c, "size") == VStr(SizeName(size))
    ensures forall c :: multiset(r.out)[c] ==
              if Get(c, "size") == VStr(SizeName(size)) then multiset(Stored(r.state, Companies))[c] else 0
    ensures IsSubsequence(r.out, Stored(r.state, Companies))
  {
    var s := Initialize(st, Companies);
    KeptWithField(GetAll(s.db, CompaniesKey), "size", SizeName(size));
    Reply(s, FindBy(s.db, CompaniesKey, FieldIs("size", SizeName(size))))
  }

  /** `getAllUsers`: every candidate, then every company. */
  function GetAllUsers(st: UserServices): (r: Reply<seq<Record>>)
    ensures r.state == Initialize(Initialize(st, Candidates), Companies)
    ensures r.out == Stored(r.state, Candidates) + Stored(r.state, Companies)
  {
    var a := GetAllOf(st, Candidates);
    var b := GetAllOf(a.state, Companies);
    OtherStoredUnchanged(a.state, b.state, Companies);
    Reply(b.state, a.out + b.out)
  }

  /** `getUserById`: the candidate with the id if there is one, otherwise
      the company with it. */
  function GetUserById(st: UserServices, id: string): (r: Reply<Option<Record>>)
    ensures r.state == Initialize(Initialize(st, Candidates), Companies)
    ensures r.out.None? <==> !HasId(Stored(r.state, Candidates), id) && !HasId(Stored(r.state, Companies), id)
    ensures HasId(Stored(r.state, Candidates), id) ==> r.out == GetById(r.state.db, CandidatesKey, id)
    ensures !HasId(Stored(r.state, Candidates), id) ==> r.out == GetById(r.state.db, CompaniesKey, id)
  {
    var a := GetByIdOf(st, Candidates, id);
    var b := GetByIdOf(a.state, Companies, id);
    OtherStoredUnchanged(a.state, b.state, Companies);
    Reply(b.state, if a.out.Some? then a.out else b.out)
  }

  /** `getUserByEmail`: the candidate with the e-mail if there is one,
      otherwise the company with it. */
  function GetUserByEmail(st: UserServices, email: string): (r: Reply<Option<Record>>)
    ensures r.state == Initialize(Initialize(st, Candidates), Companies)
    ensures r.out.Some? ==> Get(r.out.value, "email") == VStr(email)
    ensures !NoneWithField(Stored(r.state, Candidates), "email", email) ==>
              r.out.Some? && FirstWithField(Stored(r.state, Candidates), "email", email, r.out.value)
    ensures NoneWithField(Stored(r.state, Candidates), "email", email) && r.out.Some? ==>
              FirstWithField(Stored(r.state, Companies), "email", email, r.out.value)
    ensures r.out.None? <==>
              NoneWithField(Stored(r.state, Candidates), "email", email)
              && NoneWithField(Stored(r.state, Companies), "email", email)
  {
    var a := GetByFieldOf(st, Candidates, "email", email);
    var b := GetByFieldOf(a.state, Companies, "email", email);
    OtherStoredUnchanged(a.state, b.state, Companies);
    Reply(b.state, if a.out.Some? then a.out else b.out)
  }

  /** `deleteUser`: delete from both services; true iff either removed one. */
  function DeleteUser(st: UserServices, id: string): (r: Reply<bool>)
    ensures r.out <==> HasId(Stored(Initialize(st, Candidates), Candidates), id)
                       || HasId(Stored(Initialize(Initialize(st, Candidates), Companies), Companies), id)
    ensures !HasId(Stored(r.state, Candidates), id) && !HasId(Stored(r.state, Companies), id)
    ensures RemovedId(Stored(Initialize(st, Candidates), Candidates), Stored(r.state, Candidates), id)
    ensures RemovedId(Stored(Initialize(Initialize(st, Candidates), Companies), Companies),
                      Stored(r.state, Companies), id)
    ensures !r.out ==> r.state == Initialize(Initialize(st, Candidates), Companies)
    ensures r.state.candidatesSeeded && r.state.companiesSeeded
    ensures r.state.candidateDefaults == st.candidateDefaults && r.state.companyDefaults == st.companyDefaults
    ensures OtherKeysUntouched(st.db, r.state.db)
  {
    var a := DeleteOf(st, Candidates, id);
    var b := DeleteOf(a.state, Companies, id);
    OtherStoredUnchanged(a.state, b.state, Companies);
    CompaniesSeenAlike(st, a.state);
    KeepsOtherKeys(st, a.state, Candidates);
    KeepsOtherKeys(a.state, b.state, Companies);
    Reply(b.state, a.out || b.out)
  }

  /** `clearAllUsers`: both collections gone, both flags lowered. */
  function ClearAllUsers(st: UserServices): (st': UserServices)
    ensures Stored(st', Candidates) == [] && Stored(st', Companies) == []
    ensures !st'.candidatesSeeded && !st'.companiesSeeded
    ensures st'.candidateDefaults == st.candidateDefaults && st'.companyDefaults == st.companyDefaults
    ensures OtherKeysUntouched(st.db, st'.db)
  {
    var a := ClearAllOf(st, Candidates);
    var b := ClearAllOf(a, Companies);
    OtherStoredUnchanged(a, b, Companies);
    KeepsOtherKeys(st, a, Candidates);
    KeepsOtherKeys(a, b, Companies);
    b
  }

  /** On well-formed candidates the skills predicate never throws and
      matches exactly when some query skill occurs in some skill. */
  lemma SkillsTestNeverRaises(items: seq<Record>, qs: seq<string>)
    ensures (forall c :: c in items ==> WellFormedSkills(c)) ==>
      forall i :: 0 <= i < |items| ==> (SkillsTest(qs)(items[i]) != Raises
        && (SkillsTest(qs)(items[i]) == Match <==>
              exists j :: 0 <= j < |qs| && SkillMatches(Get(items[i], "skills").items, qs[j])))
  {
    assert forall i :: 0 <= i < |items| ==> items[i] in items;
  }

  /** What the skills filter keeps: nothing without query skills; on
      well-formed candidates, those with a skill containing a query skill. */
  lemma KeptBySkills(items: seq<Record>, qs: seq<string>)
    ensures |qs| == 0 ==> FilterOrThrow(items, SkillsTest(qs)).GetOr([]) == []
    ensures (forall c :: c in items ==> WellFormedSkills(c)) ==>
              forall c :: c in FilterOrThrow(items, SkillsTest(qs)).GetOr([]) <==> (c in items
                && exists j :: 0 <= j < |qs| && SkillMatches(Get(c, "skills").items, qs[j]))
    ensures (forall c :: c in items ==> WellFormedSkills(c)) ==>
              forall c :: multiset(FilterOrThrow(items, SkillsTest(qs)).GetOr([]))[c] ==
                if c in items && exists j :: 0 <= j < |qs| && SkillMatches(Get(c, "skills").items, qs[j])
                then multiset(items)[c] else 0
    ensures IsSubsequence(FilterOrThrow(items, SkillsTest(qs)).GetOr([]), items)
  {
    var p := SkillsTest(qs);
    SkillsTestNeverRaises(items, qs);
    NoQueryMatchesNothing(items, qs);
    FilterIsSubsequence(items, Holds(p));
    if forall c :: c in items ==> WellFormedSkills(c) {
      assert FilterOrThrow(items, p) == Some(Filter(items, Holds(p)));
      FilterCounts(items, Holds(p));
      assert forall c :: c in items ==> (Holds(p)(c) <==>
        exists j :: 0 <= j < |qs| && SkillMatches(Get(c, "skills").items, qs[j])) by {
        assert forall i :: 0 <= i < |items| ==> items[i] in items;
      }
    }
  }

  /** With no query skills the search keeps nothing. */
  lemma NoQueryMatchesNothing(items: seq<Record>, qs: seq<string>)
    ensures |qs| == 0 ==> Filter(items, Holds(SkillsTest(qs))) == []
  {
    var ys := Filter(items, Holds(SkillsTest(qs)));
    assert forall i :: 0 <= i < |ys| ==> ys[i] in ys;
  }

  /** An operation on one service leaves the other's collection as it was. */
  lemma OtherStoredUnchanged(st: UserServices, st': UserServices, k: Kind)
    requires OtherUntouched(st, st', k)
    ensures Stored(st', if k == Candidates then Companies else Candidates)
         == Stored(st, if k == Candidates then Companies else Candidates)
  {
    var o := if k == Candidates then Companies else Candidates;
    assert KeyOf(o) != KeyOf(k);
    assert KeyOf(o) in st'.db <==> KeyOf(o) in (st'.db - {KeyOf(k)});
    assert KeyOf(o) in st.db <==> KeyOf(o) in (st.db - {KeyOf(k)});
    if KeyOf(o) in st.db {
      assert st'.db[KeyOf(o)] == (st'.db - {KeyOf(k)})[KeyOf(o)];
      assert st.db[KeyOf(o)] == (st.db - {KeyOf(k)})[KeyOf(o)];
    }
  }

  /** What the location filter keeps. */
  lemma KeptByLocation(items: seq<Record>, location: string)
    ensures forall c :: c in FilterOrThrow(items, LocationTest(location)).GetOr([]) <==>
              (forall d :: d in items ==> LocationReadable(d))
              && c in items
              && Get(c, "location").VStr? && Includes(Lower(Get(c, "location").s), Lower(location))
    ensures forall c :: multiset(FilterOrThrow(items, LocationTest(location)).GetOr([]))[c] ==
              if (forall d :: d in items ==> LocationReadable(d))
                 && Get(c, "location").VStr? && Includes(Lower(Get(c, "location").s), Lower(location))
              then multiset(items)[c] else 0
  {
    var p := LocationTest(location);
    if forall d :: d in items ==> LocationReadable(d) {
      LocationNeverRaises(items, location);
      FilterCounts(items, Holds(p));
    } else {
      LocationRaises(items, location);
    }
  }

  /** On readable locations the location filter is a plain filter. */
  lemma LocationNeverRaises(items: seq<Record>, location: string)
    requires forall d :: d in items ==> LocationReadable(d)
    ensures FilterOrThrow(items, LocationTest(location))
         == Some(Filter(items, Holds(LocationTest(location))))
  {
    assert forall i :: 0 <= i < |items| ==> items[i] in items;
  }

  /** One unreadable location makes the location filter throw. */
  lemma LocationRaises(items: seq<Record>, location: string)
    requires exists d :: d in items && !LocationReadable(d)
    ensures FilterOrThrow(items, LocationTest(location)).GetOr([]) == []
  {
    var d :| d in items && !LocationReadable(d);
    var i :| 0 <= i < |items| && items[i] == d;
    assert LocationTest(location)(items[i]) == Raises;
  }


  /** What the equality filter keeps: the records whose field is exactly
      `text`, each as often as it occurs, in order. It never throws. */
  lemma KeptWithField(items: seq<Record>, field: string, text: string)
    ensures forall c :: c in FilterOrThrow(items, FieldIs(field, text)).GetOr([]) <==>
              c in items && Get(c, field) == VStr(text)
    ensures forall c :: multiset(FilterOrThrow(items, FieldIs(field, text)).GetOr([]))[c] ==
              if Get(c, field) == VStr(text) then multiset(items)[c] else 0
    ensures IsSubsequence(FilterOrThrow(items, FieldIs(field, text)).GetOr([]), items)
  {
    var p := FieldIs(field, text);
    assert forall i :: 0 <= i < |items| ==> p(items[i]) != Raises;
    assert FilterOrThrow(items, p) == Some(Filter(items, Holds(p)));
    assert forall c: Record :: Holds(p)(c) <==> Get(c, field) == VStr(text);
    FilterCounts(items, Holds(p));
    FilterIsSubsequence(items, Holds(p));
  }

  /** What the containment filter keeps: nothing as soon as one record's
      field is not a string, otherwise the records whose field contains
      the text. */
  lemma KeptWhereContains(items: seq<Record>, field: string, text: string)
    ensures forall c :: c in FilterOrThrow(items, FieldContains(field, text)).GetOr([]) <==>
              (forall d :: d in items ==> FieldReadable(d, field))
              && c in items
              && Get(c, field).VStr? && Includes(Lower(Get(c, field).s), Lower(text))
    ensures forall c :: multiset(FilterOrThrow(items, FieldContains(field, text)).GetOr([]))[c] ==
              if (forall d :: d in items ==> FieldReadable(d, field))
                 && Get(c, field).VStr? && Includes(Lower(Get(c, field).s), Lower(text))
              then multiset(items)[c] else 0
  {
    var p := FieldContains(field, text);
    if forall d :: d in items ==> FieldReadable(d, field) {
      assert forall i :: 0 <= i < |items| ==> items[i] in items;
      assert FilterOrThrow(items, p) == Some(Filter(items, Holds(p)));
      FilterCounts(items, Holds(p));
    } else {
      var d :| d in items && !FieldReadable(d, field);
      var i :| 0 <= i < |items| && items[i] == d;
      assert p(items[i]) == Raises;
      assert FilterOrThrow(items, p).GetOr([]) == [];
    }
  }

  /** A change confined to one service leaves every key outside the two
      services' as it was. */
  lemma KeepsOtherKeys(st: UserServices, st': UserServices, k: Kind)
    requires OtherUntouched(st, st', k)
    ensures OtherKeysUntouched(st.db, st'.db)
  {
    var users := {CandidatesKey, CompaniesKey};
    assert st'.db - {KeyOf(k)} == st.db - {KeyOf(k)};
    assert KeyOf(k) in users;
    assert st'.db - users == (st'.db - {KeyOf(k)}) - users;
    assert st.db - users == (st.db - {KeyOf(k)}) - users;
  }

  /** Two states that agree on one service's collection, flag and seed
      data see the same collection once that service is initialised. */
  lemma InitializeSeesAlike(x: UserServices, y: UserServices, k: Kind)
    requires Stored(x, k) == Stored(y, k) && Seeded(x, k) == Seeded(y, k) && Defaults(x, k) == Defaults(y, k)
    ensures Stored(Initialize(x, k), k) == Stored(Initialize(y, k), k)
  {
  }

  /** A candidate-only change does not alter what the company service
      sees once initialised. */
  lemma CompaniesSeenAlike(st: UserServices, a: UserServices)
    requires OtherUntouched(st, a, Candidates)
    ensures Stored(Initialize(a, Companies), Companies)
         == Stored(Initialize(Initialize(st, Candidates), Companies), Companies)
  {
    var s1 := Initialize(st, Candidates);
    OtherStoredUnchanged(st, a, Candidates);
    OtherStoredUnchanged(st, s1, Candidates);
    InitializeSeesAlike(a, s1, Companies);
  }

  /** Seeding happens at most once while the flag is up. */
  lemma InitializeOnce(st: UserServices, k: Kind)
    ensures Initialize(Initialize(st, k), k) == Initialize(st, k)
  {
  }

  /** After `clearAllUsers` each service reads back its seed data. */
  lemma ClearAllThenReseed(st: UserServices, k: Kind)
    ensures GetAllOf(ClearAllUsers(st), k).out == Defaults(st, k)
  {
    var c := ClearAllUsers(st);
    assert Defaults(c, k) == Defaults(st, k);
  }

  /** After clearing, the next call sees the seed data again. */
  lemma ClearThenReseed(st: UserServices, k: Kind)
    ensures GetAllOf(ClearAllOf(st, k), k).out == Defaults(st, k)
  {
    var c := ClearAllOf(st, k);
    assert Defaults(c, k) == Defaults(st, k);
  }
}
