/** The in-memory job list service: lookup by id, free-text search and
    category filter over the current list of jobs. */
module JobService {
  import opened Wrappers
  import opened Seqs
  import opened Text
  import opened JobTypes

  /** The category name that stands for "no category filter". */
  const AllCategories: string := "Todas"

  /** The search predicate: the lower-cased query occurs in the lower-cased
      title, company, category or location. */
  predicate SearchMatch(j: Job, q: string) {
    var lq := Lower(q);
    || Includes(Lower(j.title), lq)
    || Includes(Lower(j.company), lq)
    || Includes(Lower(j.category), lq)
    || Includes(Lower(j.location), lq)
  }

  function MatchesQuery(q: string): Job -> bool {
    (j: Job) => SearchMatch(j, q)
  }

  function InCategory(c: string): Job -> bool {
    (j: Job) => j.category == c
  }

  /** `getAllJobs`: a copy of the current list, which stays as it was. It is
      what a blank search and the "Todas" category also return. */
  function GetAllJobs(jobs: seq<Job>): (r: seq<Job>)
    ensures r == SearchJobs(jobs, "")
    ensures r == GetJobsByCategory(jobs, AllCategories)
  {
    jobs
  }

  /** `getJobById`: the first job carrying `id`, or `null`. */
  function GetJobById(jobs: seq<Job>, id: string): (r: Option<Job>)
    ensures r.None? <==> forall i :: 0 <= i < |jobs| ==> jobs[i].id != id
    ensures r.Some? ==> r.value.id == id
    ensures r.Some? ==> exists i :: 0 <= i < |jobs| && jobs[i] == r.value
                          && forall j :: 0 <= j < i ==> jobs[j].id != id
  {
    Find(jobs, (j: Job) => j.id == id)
  }

  /** `searchJobs`: a blank query returns every job; otherwise the jobs
      matching the untrimmed query. */
  function SearchJobs(jobs: seq<Job>, q: string): (r: seq<Job>)
    ensures IsBlank(q) ==> r == jobs
    ensures !IsBlank(q) ==> forall j :: j in r <==> j in jobs && SearchMatch(j, q)
    ensures !IsBlank(q) ==> forall j :: multiset(r)[j] == if SearchMatch(j, q) then multiset(jobs)[j] else 0
    ensures IsSubsequence(r, jobs)
  {
    TrimEmptyIffBlank(q);
    if Trim(q) == "" then
      SubsequenceRefl(jobs);
      jobs
    else
      FilterIsSubsequence(jobs, MatchesQuery(q));
      FilterCounts(jobs, MatchesQuery(q));
      Filter(jobs, MatchesQuery(q))
  }

  /** `getJobsByCategory`: "Todas" returns every job; any other category
      keeps the jobs whose category is exactly that string. */
  function GetJobsByCategory(jobs: seq<Job>, c: string): (r: seq<Job>)
    ensures c == AllCategories ==> r == jobs
    ensures c != AllCategories ==> forall j :: j in r <==> j in jobs && j.category == c
    ensures c != AllCategories ==> forall j :: multiset(r)[j] == if j.category == c then multiset(jobs)[j] else 0
    ensures IsSubsequence(r, jobs)
  {
    if c == AllCategories then
      SubsequenceRefl(jobs);
      jobs
    else
      FilterIsSubsequence(jobs, InCategory(c));
      FilterCounts(jobs, InCategory(c));
      Filter(jobs, InCategory(c))
  }

  /** Searching is case-insensitive: the case of the query's ASCII letters
      does not change the result. */
  lemma SearchIgnoresCase(jobs: seq<Job>, q: string)
    ensures SearchJobs(jobs, Lower(q)) == SearchJobs(jobs, q)
  {
    LowerKeepsBlank(q);
    TrimEmptyIffBlank(q);
    TrimEmptyIffBlank(Lower(q));
    if Trim(q) != "" {
      LowerIdempotent(q);
      assert forall j :: SearchMatch(j, Lower(q)) == SearchMatch(j, q);
      FilterExtensional(jobs, MatchesQuery(Lower(q)), MatchesQuery(q));
    }
  }

  /** Lower-casing does not touch whitespace. */
  lemma LowerKeepsBlank(s: string)
    ensures IsBlank(Lower(s)) <==> IsBlank(s)
  {
    assert forall i :: 0 <= i < |s| ==> (IsSpace(Lower(s)[i]) <==> IsSpace(s[i]));
  }
}
