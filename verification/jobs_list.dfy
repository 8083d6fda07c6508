/** The job-list screen's filter: the jobs of the selected category
    ("Todas" for all), then those matching the search text. The screen
    keeps its own job shape, with a skills list. */
module JobsList {
  import opened Seqs
  import opened Text

  datatype WorkType = Remote | Hybrid | OnSite

  datatype ListedJob = ListedJob(
    id: int,
    title: string,
    company: string,
    location: string,
    workType: WorkType,
    salaryMin: int,
    salaryMax: int,
    currency: string,
    skills: seq<string>,
    postedAt: string,
    category: string)

  const AllCategories: string := "Todas"

  /** The lower-cased query occurs in the lower-cased title or company, or
      in some lower-cased skill. */
  predicate QueryMatch(j: ListedJob, q: string) {
    var lq := Lower(q);
    || Includes(Lower(j.title), lq)
    || Includes(Lower(j.company), lq)
    || exists i :: 0 <= i < |j.skills| && Includes(Lower(j.skills[i]), lq)
  }

  /** `job.skills.some(skill => ...)`, evaluated left to right. */
  function SomeSkillMatches(skills: seq<string>, lq: string): (b: bool)
    ensures b <==> exists i :: 0 <= i < |skills| && Includes(Lower(skills[i]), lq)
    decreases |skills|
  {
    if |skills| == 0 then false
    else if Includes(Lower(skills[0]), lq) then true
    else
      var b := SomeSkillMatches(skills[1..], lq);
      assert forall i :: 1 <= i < |skills| ==> skills[1..][i - 1] == skills[i];
      b
  }

  function SearchTest(q: string): ListedJob -> bool {
    (j: ListedJob) =>
      var lq := Lower(q);
      Includes(Lower(j.title), lq) || Includes(Lower(j.company), lq) || SomeSkillMatches(j.skills, lq)
  }

  function CategoryTest(c: string): ListedJob -> bool {
    (j: ListedJob) => j.category == c
  }

  /** The category step: no filtering for "Todas"; otherwise the jobs of
      exactly that category, in order and with their repetitions. */
  function ByCategory(jobs: seq<ListedJob>, c: string): (r: seq<ListedJob>)
    ensures c == AllCategories ==> r == jobs
    ensures forall j :: j in r <==> j in jobs && (c == AllCategories || j.category == c)
    ensures forall j :: multiset(r)[j] == if c == AllCategories || j.category == c then multiset(jobs)[j] else 0
    ensures IsSubsequence(r, jobs)
  {
    if c != AllCategories then
      FilterIsSubsequence(jobs, CategoryTest(c));
      FilterCounts(jobs, CategoryTest(c));
      Filter(jobs, CategoryTest(c))
    else
      SubsequenceRefl(jobs);
      jobs
  }

  /** The search step: no filtering for a blank query; otherwise the jobs
      matching it, in order and with their repetitions. */
  function BySearch(jobs: seq<ListedJob>, q: string): (r: seq<ListedJob>)
    ensures IsBlank(q) ==> r == jobs
    ensures forall j :: j in r <==> j in jobs && (IsBlank(q) || QueryMatch(j, q))
    ensures forall j :: multiset(r)[j] == if IsBlank(q) || QueryMatch(j, q) then multiset(jobs)[j] else 0
    ensures IsSubsequence(r, jobs)
  {
    TrimEmptyIffBlank(q);
    if Trim(q) != "" then
      FilterIsSubsequence(jobs, SearchTest(q));
      FilterCounts(jobs, SearchTest(q));
      Filter(jobs, SearchTest(q))
    else
      SubsequenceRefl(jobs);
      jobs
  }

  /** `filteredJobs`: category, then search. */
  function FilteredJobs(jobs: seq<ListedJob>, c: string, q: string): (r: seq<ListedJob>)
    ensures forall j :: j in r <==> j in jobs && (c == AllCategories || j.category == c)
                                    && (IsBlank(q) || QueryMatch(j, q))
    ensures forall j :: multiset(r)[j] == if (c == AllCategories || j.category == c)
                                             && (IsBlank(q) || QueryMatch(j, q))
                                          then multiset(jobs)[j] else 0
    ensures IsSubsequence(r, jobs)
  {
    var r := BySearch(ByCategory(jobs, c), q);
    FilteredIsSubsequence(jobs, c, q);
    r
  }

  lemma FilteredIsSubsequence(jobs: seq<ListedJob>, c: string, q: string)
    ensures IsSubsequence(BySearch(ByCategory(jobs, c), q), jobs)
  {
    var byCategory := ByCategory(jobs, c);
    SubsequenceTrans(BySearch(byCategory, q), byCategory, jobs);
  }

  /** Filtering by search first and category second gives the same list. */
  lemma FiltersCommute(jobs: seq<ListedJob>, c: string, q: string)
    ensures ByCategory(BySearch(jobs, q), c) == BySearch(ByCategory(jobs, c), q)
  {
    if c != AllCategories && !IsBlank(q) {
      FilterCommutes(jobs, SearchTest(q), CategoryTest(c));
    }
  }
}
