/** The filters over the demonstration applications. The application and
    job arrays are parameters rather than the fixed demonstration data. */
module ApplicationsMock {
  import opened Wrappers
  import opened Seqs
  import opened Values
  import opened JobTypes

  /** The properties copied into the embedded candidate snapshot. */
  const CandidateKeys: set<string> :=
    {"id", "name", "email", "phone", "location", "skills", "experience", "profilePicture"}

  /** `convertJobCandidateToCandidate`: `undefined` for a falsy argument;
      otherwise an object with exactly the eight candidate properties read
      from the argument (`undefined` where it lacks one). */
  function ConvertJobCandidateToCandidate(jc: Value): (r: Option<map<string, Value>>)
    ensures r.None? <==> !Truthy(jc)
    ensures r.Some? ==> r.value.Keys == CandidateKeys
    ensures r.Some? && jc.VObj? ==> forall k :: k in CandidateKeys && k in jc.fields ==> r.value[k] == jc.fields[k]
    ensures r.Some? ==> forall k :: k in CandidateKeys && !(jc.VObj? && k in jc.fields) ==> r.value[k] == VUndefined
  {
    if !Truthy(jc) then None
    else
      var own := if jc.VObj? then jc.fields else map[];
      Some(map k | k in CandidateKeys :: Get(own, k))
  }

  function ForCandidate(userId: string): Application -> bool {
    (a: Application) => a.candidateId == userId
  }

  /** The job an application refers to: the first job with its `jobId`. */
  function JobOf(jobs: seq<Job>, a: Application): Option<Job> {
    Find(jobs, (j: Job) => j.id == a.jobId)
  }

  /** `job?.company === companyName` for the application's job. */
  predicate PostedBy(jobs: seq<Job>, a: Application, companyName: string) {
    match JobOf(jobs, a)
    case None => false
    case Some(j) => j.company == companyName
  }

  function ForCompany(jobs: seq<Job>, companyName: string): Application -> bool {
    (a: Application) => PostedBy(jobs, a, companyName)
  }

  /** `getApplicationsForUser`: the applications of `userId`, in order. */
  function GetApplicationsForUser(apps: seq<Application>, userId: string): (r: seq<Application>)
    ensures forall a :: a in r <==> a in apps && a.candidateId == userId
    ensures forall a :: multiset(r)[a] == if a.candidateId == userId then multiset(apps)[a] else 0
    ensures IsSubsequence(r, apps)
  {
    FilterIsSubsequence(apps, ForCandidate(userId));
    FilterCounts(apps, ForCandidate(userId));
    Filter(apps, ForCandidate(userId))
  }

  /** Position `i` holds the first job carrying `id`. */
  predicate FirstWithId(jobs: seq<Job>, id: string, i: int) {
    0 <= i < |jobs| && jobs[i].id == id && forall k :: 0 <= k < i ==> jobs[k].id != id
  }

  /** The first job carrying `jobId` is posted by `companyName`. */
  predicate FirstJobBy(jobs: seq<Job>, jobId: string, companyName: string) {
    exists i :: 0 <= i < |jobs| && FirstWithId(jobs, jobId, i) && jobs[i].company == companyName
  }

  lemma PostedByFirstJob(jobs: seq<Job>, companyName: string)
    ensures forall a :: PostedBy(jobs, a, companyName) <==> FirstJobBy(jobs, a.jobId, companyName)
  {
    forall a
      ensures PostedBy(jobs, a, companyName) <==> FirstJobBy(jobs, a.jobId, companyName)
    {
      if PostedBy(jobs, a, companyName) {
        var i :| 0 <= i < |jobs| && jobs[i] == JobOf(jobs, a).value && jobs[i].id == a.jobId
                 && forall j :: 0 <= j < i ==> jobs[j].id != a.jobId;
        assert FirstWithId(jobs, a.jobId, i);
      }
    }
  }

  /** `getApplicationsForCompany`: the applications whose job (the first
      job carrying the application's `jobId`) is posted by `companyName`. */
  function GetApplicationsForCompany(apps: seq<Application>, jobs: seq<Job>, companyName: string)
    : (r: seq<Application>)
    ensures forall a :: a in r <==> a in apps && FirstJobBy(jobs, a.jobId, companyName)
    ensures forall a :: a in r ==> exists i :: 0 <= i < |jobs| && jobs[i].id == a.jobId
    ensures forall a :: multiset(r)[a] ==
              if FirstJobBy(jobs, a.jobId, companyName) then multiset(apps)[a] else 0
    ensures IsSubsequence(r, apps)
  {
    FilterIsSubsequence(apps, ForCompany(jobs, companyName));
    FilterCounts(apps, ForCompany(jobs, companyName));
    PostedByFirstJob(jobs, companyName);
    Filter(apps, ForCompany(jobs, companyName))
  }
}
