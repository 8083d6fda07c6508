/** The in-memory application service: an append-only list of
    applications, plus a fixed three-item demonstration list per user.
    Ids and the current time are parameters. */
module ApplicationService {
  import opened Wrappers
  import opened Seqs
  import opened Values
  import opened JobTypes

  /** The placeholder job embedded in every new application. */
  function PlaceholderJob(jobId: string, now: Date): (j: Job)
    ensures j.id == jobId && j.postedAt == now
  {
    Job(jobId, "Vaga Aplicada", "Empresa", "Localização", "Categoria", FullTime, None,
        "Descrição da vaga", [], [], now, None, None)
  }

  /** `applyToJob`: append a pending application for the pair. There is no
      check for an earlier application by the same candidate. */
  function ApplyToJob(apps: seq<Application>, jobId: string, candidateId: string, newId: string, now: Date)
    : (r: (seq<Application>, Application))
    ensures r.1.status == Pending
    ensures r.1.jobId == jobId && r.1.candidateId == candidateId && r.1.job.id == jobId
    ensures r.1.id == newId && r.1.appliedAt == now
    ensures r.0 == apps + [r.1]
  {
    var app := Application(newId, jobId, candidateId, now, Pending, PlaceholderJob(jobId, now), None, None);
    (apps + [app], app)
  }

  /** `getApplicationById`: the first application carrying `id`, or `null`. */
  function GetApplicationById(apps: seq<Application>, id: string): (r: Option<Application>)
    ensures r.None? <==> forall i :: 0 <= i < |apps| ==> apps[i].id != id
    ensures r.Some? ==> r.value.id == id
    ensures r.Some? ==> exists i :: 0 <= i < |apps| && apps[i] == r.value
                          && forall j :: 0 <= j < i ==> apps[j].id != id
  {
    Find(apps, (a: Application) => a.id == id)
  }

  function Day(ms: int): Date {
    Date(ms)
  }

  function DemoJob(id: string, title: string, company: string, location: string, category: string,
                   salary: string, description: string, postedAt: Date): Job
  {
    Job(id, title, company, location, category, FullTime, Some(salary), description, [], [], postedAt, None, None)
  }

  /** `getUserApplications`: three fixed demonstration applications, all
      attributed to `userId`; the stored list is not consulted. The dates
      are midnight UTC of 2024-01-13 to 2024-01-16 in epoch milliseconds. */
  function GetUserApplications(userId: string): (r: seq<Application>)
    ensures |r| == 3
    ensures forall a :: a in r ==> a.candidateId == userId && a.job.id == a.jobId
    ensures r[0].status == Reviewing && r[1].status == Approved && r[2].status == Rejected
    ensures forall i, j :: 0 <= i < j < |r| ==> r[i].id != r[j].id
  {
    [ Application("1", "1", userId, Day(1705363200000), Reviewing,
        DemoJob("1", "Desenvolvedor React Native", "TechCorp", "São Paulo, SP", "Desenvolvimento",
                "R$ 8.000 - R$ 12.000", "Desenvolvedor React Native experiente.", Day(1705276800000)),
        None, None),
      Application("2", "2", userId, Day(1705276800000), Approved,
        DemoJob("2", "Designer UI/UX", "DesignStudio", "Rio de Janeiro, RJ", "Design",
                "R$ 6.000 - R$ 9.000", "Designer criativo para experiências digitais.", Day(1705190400000)),
        None, None),
      Application("3", "3", userId, Day(1705190400000), Rejected,
        DemoJob("3", "Analista de Marketing Digital", "MarketPro", "Belo Horizonte, MG", "Marketing",
                "R$ 4.500 - R$ 7.000", "Profissional para campanhas digitais.", Day(1705104000000)),
        None, None) ]
  }

  /** The application just created can be looked up by its id (an older
      application with the same id would be found first). */
  lemma ApplyThenLookup(apps: seq<Application>, jobId: string, candidateId: string, newId: string, now: Date)
    ensures var r := ApplyToJob(apps, jobId, candidateId, newId, now);
            GetApplicationById(r.0, r.1.id).Some?
  {
    var r := ApplyToJob(apps, jobId, candidateId, newId, now);
    assert r.0[|apps|].id == newId;
  }

  /** Applying twice for the same pair stores two applications. */
  lemma ApplyTwiceStoresTwo(apps: seq<Application>, jobId: string, candidateId: string,
                            id1: string, id2: string, t1: Date, t2: Date)
    ensures var r1 := ApplyToJob(apps, jobId, candidateId, id1, t1);
            var r2 := ApplyToJob(r1.0, jobId, candidateId, id2, t2);
            && |r2.0| == |apps| + 2
            && r2.0[|apps|].jobId == jobId && r2.0[|apps|].candidateId == candidateId
            && r2.0[|apps| + 1].jobId == jobId && r2.0[|apps| + 1].candidateId == candidateId
  {
  }
}
