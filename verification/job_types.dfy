/** The job-board entities: jobs, the candidate snapshot embedded in an
    application, and applications. */
module JobTypes {
  import opened Wrappers
  import opened Values

  datatype EmploymentType = FullTime | PartTime | Contract | Internship

  datatype Job = Job(
    id: string,
    title: string,
    company: string,
    location: string,
    category: string,
    employment: EmploymentType,
    salary: Option<string>,
    description: string,
    requirements: seq<string>,
    benefits: seq<string>,
    postedAt: Date,
    applicationsCount: Option<int>,
    isActive: Option<bool>)

  datatype Candidate = Candidate(
    id: string,
    name: string,
    email: string,
    phone: Option<string>,
    location: Option<string>,
    skills: seq<string>,
    experience: Option<string>,
    profilePicture: Option<string>)

  datatype Status = Pending | Reviewing | Approved | Rejected

  datatype Application = Application(
    id: string,
    jobId: string,
    candidateId: string,
    appliedAt: Date,
    status: Status,
    job: Job,
    candidate: Option<Candidate>,
    coverLetter: Option<string>)
}
