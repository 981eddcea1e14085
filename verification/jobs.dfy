/**
 * Job postings: the summary every job endpoint returns (`JobDataSerializer.to_dict`), the listing
 * of active jobs, and lookup by id. `create_job` is in `JobCreation`.
 */
module Jobs {
  import opened Wrappers
  import opened Strings

  datatype Employer = Employer(
    userId: string,
    companyName: string,
    companyDescription: string,
    companyWebsite: string,
    companySize: string,
    industry: string)

  /**
   * A `Job` row. Salaries are `None` when null; a timestamp is a number of microseconds since the
   * epoch. `jobType` and `experienceRequired` are plain strings: `create_job` stores whatever the
   * request sends without checking it against the choices.
   */
  datatype Job = Job(
    id: string,
    employer: Option<Employer>,
    title: string,
    description: string,
    jobType: string,
    experienceRequired: string,
    minYearsExperience: int,
    location: string,
    isRemote: bool,
    salaryMin: Option<int>,
    salaryMax: Option<int>,
    extractedSkills: seq<string>,
    isActive: bool,
    createdAt: int,
    expiresAt: Option<string>)

  /**
   * The renderings the model leaves to Python: `f"{x:,}"` of a salary and `isoformat()` of a
   * timestamp.
   */
  datatype Formatters = Formatters(money: int -> string, isoformat: int -> string)

  const UnknownCompany := "Unknown Company"
  const NotSpecified := "Not specified"

  /** The employer's company name, or the placeholder when the job has no employer. */
  function CompanyName(job: Job): (r: string)
    ensures job.employer.None? ==> r == UnknownCompany
    ensures job.employer.Some? ==> r == job.employer.value.companyName
  {
    if job.employer.Some? then job.employer.value.companyName else UnknownCompany
  }

  /** A salary bound is truthy when set and non-zero. */
  predicate Truthy(x: Option<int>) {
    x.Some? && x.value != 0
  }

  /** `"$min - $max"` when both bounds are truthy, the placeholder otherwise. */
  function SalaryRange(job: Job, fmt: Formatters): (r: string)
    ensures Truthy(job.salaryMin) && Truthy(job.salaryMax) ==>
      r == "$" + fmt.money(job.salaryMin.value) + " - $" + fmt.money(job.salaryMax.value)
    ensures !(Truthy(job.salaryMin) && Truthy(job.salaryMax)) ==> r == NotSpecified
  {
    if Truthy(job.salaryMin) && Truthy(job.salaryMax) then
      "$" + fmt.money(job.salaryMin.value) + " - $" + fmt.money(job.salaryMax.value)
    else NotSpecified
  }

  const MaxDescription := 200

  /** A description longer than 200 characters is cut to its first 200 and marked with `...`. */
  function TruncateDescription(d: string): (r: string)
    ensures |d| <= MaxDescription ==> r == d
    ensures |d| > MaxDescription ==> |r| == MaxDescription + 3 && IsPrefixOf(r[..MaxDescription], d) && EndsWith(r, "...")
    ensures |r| <= MaxDescription + 3
  {
    if |d| > MaxDescription then d[..MaxDescription] + "..." else d
  }

  /** Truncating an already truncated description changes nothing. */
  lemma TruncateIdempotent(d: string)
    ensures TruncateDescription(TruncateDescription(d)) == TruncateDescription(d)
  {
    if |d| > MaxDescription {
      var r := TruncateDescription(d);
      assert r[..MaxDescription] == d[..MaxDescription];
    }
  }

  /** `JobDataSerializer.to_dict`. */
  datatype JobSummary = JobSummary(
    id: string,
    title: string,
    company: string,
    location: string,
    salaryRange: string,
    jobType: string,
    postedDate: string,
    description: string,
    experienceRequired: string,
    isRemote: bool,
    status: string)

  function ToDict(job: Job, fmt: Formatters): (r: JobSummary)
    ensures r.id == job.id && r.title == job.title && r.location == job.location
    ensures r.status == (if job.isActive then "active" else "inactive")
    ensures r.company == CompanyName(job) && r.salaryRange == SalaryRange(job, fmt)
    ensures r.description == TruncateDescription(job.description)
    ensures r.postedDate == fmt.isoformat(job.createdAt)
    ensures r.jobType == job.jobType && r.experienceRequired == job.experienceRequired && r.isRemote == job.isRemote
  {
    JobSummary(
      job.id, job.title, CompanyName(job), job.location, SalaryRange(job, fmt), job.jobType,
      fmt.isoformat(job.createdAt), TruncateDescription(job.description), job.experienceRequired,
      job.isRemote, if job.isActive then "active" else "inactive")
  }

  /** The status field tells active and inactive jobs apart. */
  lemma StatusActiveIff(job: Job, fmt: Formatters)
    ensures ToDict(job, fmt).status == "active" <==> job.isActive
  {
    if !job.isActive {
      assert ToDict(job, fmt).status[0] == 'i';
    }
  }

  // Listing.

  function ActiveJobs(jobs: seq<Job>): (r: seq<Job>)
    ensures forall j :: j in r <==> j in jobs && j.isActive
    ensures multiset(r) <= multiset(jobs)
  {
    if jobs == [] then []
    else
      var rest := ActiveJobs(jobs[1..]);
      assert jobs == [jobs[0]] + jobs[1..];
      if jobs[0].isActive then [jobs[0]] + rest else rest
  }

  predicate NewestFirst(jobs: seq<Job>) {
    forall i, j :: 0 <= i < j < |jobs| ==> jobs[i].createdAt >= jobs[j].createdAt
  }

  /** Puts `job` into a newest-first list, after every strictly newer job and before the rest. */
  function InsertByDate(job: Job, sorted: seq<Job>): (r: seq<Job>)
    requires NewestFirst(sorted)
    ensures NewestFirst(r)
    ensures multiset(r) == multiset(sorted) + multiset{job}
  {
    if sorted == [] then [job]
    else if sorted[0].createdAt <= job.createdAt then [job] + sorted
    else
      var tail := InsertByDate(job, sorted[1..]);
      assert sorted == [sorted[0]] + sorted[1..];
      HeadNotOlder(job, sorted, tail);
      [sorted[0]] + tail
  }

  /** The head of a newest-first list is at least as new as every job its tail can grow into. */
  lemma HeadNotOlder(job: Job, sorted: seq<Job>, tail: seq<Job>)
    requires NewestFirst(sorted) && sorted != [] && sorted[0].createdAt > job.createdAt
    requires multiset(tail) == multiset(sorted[1..]) + multiset{job}
    ensures forall k :: 0 <= k < |tail| ==> sorted[0].createdAt >= tail[k].createdAt
  {
    forall k | 0 <= k < |tail|
      ensures sorted[0].createdAt >= tail[k].createdAt
    {
      assert tail[k] in multiset(tail);
      if tail[k] != job {
        assert tail[k] in sorted[1..];
      }
    }
  }

  /** Newest first; jobs created at the same instant keep their relative order. */
  function SortNewestFirst(jobs: seq<Job>): (r: seq<Job>)
    ensures NewestFirst(r)
    ensures multiset(r) == multiset(jobs)
  {
    if jobs == [] then []
    else
      assert jobs == [jobs[0]] + jobs[1..];
      InsertByDate(jobs[0], SortNewestFirst(jobs[1..]))
  }

  /** The jobs of `jobs` created at instant `t`, in list order. */
  function CreatedAt(jobs: seq<Job>, t: int): seq<Job> {
    if jobs == [] then []
    else if jobs[0].createdAt == t then [jobs[0]] + CreatedAt(jobs[1..], t)
    else CreatedAt(jobs[1..], t)
  }

  /** Inserting a job leaves the order among the jobs of each instant alone, the new one going first. */
  lemma {:induction false} InsertByDateStable(job: Job, sorted: seq<Job>, t: int)
    requires NewestFirst(sorted)
    ensures CreatedAt(InsertByDate(job, sorted), t) == (if job.createdAt == t then [job] else []) + CreatedAt(sorted, t)
  {
    if sorted != [] && sorted[0].createdAt > job.createdAt {
      var tail := InsertByDate(job, sorted[1..]);
      InsertByDateStable(job, sorted[1..], t);
      assert InsertByDate(job, sorted) == [sorted[0]] + tail;
      assert ([sorted[0]] + tail)[1..] == tail;
    }
  }

  /** The sort is stable: jobs created at the same instant keep their relative order. */
  lemma {:induction false} SortNewestFirstStable(jobs: seq<Job>, t: int)
    ensures CreatedAt(SortNewestFirst(jobs), t) == CreatedAt(jobs, t)
  {
    if jobs != [] {
      SortNewestFirstStable(jobs[1..], t);
      InsertByDateStable(jobs[0], SortNewestFirst(jobs[1..]), t);
    }
  }

  function MapToDict(jobs: seq<Job>, fmt: Formatters): (r: seq<JobSummary>)
    ensures |r| == |jobs|
    ensures forall i :: 0 <= i < |jobs| ==> r[i] == ToDict(jobs[i], fmt)
  {
    if jobs == [] then [] else [ToDict(jobs[0], fmt)] + MapToDict(jobs[1..], fmt)
  }

  /** The jobs `list_jobs` serialises: the active ones, newest first. */
  function ListedJobs(jobs: seq<Job>): (r: seq<Job>)
    ensures NewestFirst(r)
    ensures multiset(r) <= multiset(jobs)
    ensures forall j :: j in r <==> j in jobs && j.isActive
  {
    var active := ActiveJobs(jobs);
    var r := SortNewestFirst(active);
    assert forall j :: j in r <==> j in multiset(r);
    assert forall j :: j in active <==> j in multiset(active);
    r
  }

  /** `list_jobs`. */
  function ListJobs(jobs: seq<Job>, fmt: Formatters): (r: seq<JobSummary>)
    ensures |r| == |ListedJobs(jobs)|
    ensures forall i :: 0 <= i < |r| ==> r[i] == ToDict(ListedJobs(jobs)[i], fmt) && r[i].status == "active"
  {
    MapToDict(ListedJobs(jobs), fmt)
  }

  /** Every active job is listed once for each time it is stored, and no inactive job is. */
  lemma ListedJobsCount(jobs: seq<Job>, job: Job)
    ensures multiset(ListedJobs(jobs))[job] == if job.isActive then multiset(jobs)[job] else 0
  {
    ActiveCount(jobs, job);
  }

  lemma {:induction false} ActiveCount(jobs: seq<Job>, job: Job)
    ensures multiset(ActiveJobs(jobs))[job] == if job.isActive then multiset(jobs)[job] else 0
  {
    if jobs != [] {
      ActiveCount(jobs[1..], job);
      assert jobs == [jobs[0]] + jobs[1..];
    }
  }

  // Lookup.

  const NoJobMatches := "No Job matches the given query."

  /** The first job with the given id. */
  function FindJob(jobs: seq<Job>, id: string): (r: Option<Job>)
    ensures r.Some? ==> r.value in jobs && r.value.id == id
    ensures r.None? <==> forall j :: j in jobs ==> j.id != id
  {
    if jobs == [] then None
    else if jobs[0].id == id then Some(jobs[0])
    else FindJob(jobs[1..], id)
  }

  /** Ids are the primary key. */
  predicate UniqueIds(jobs: seq<Job>) {
    forall i, j :: 0 <= i < j < |jobs| ==> jobs[i].id != jobs[j].id
  }

  /** With unique ids the lookup finds the one job that has the id. */
  lemma FindJobUnique(jobs: seq<Job>, k: nat)
    requires UniqueIds(jobs) && k < |jobs|
    ensures FindJob(jobs, jobs[k].id) == Some(jobs[k])
  {
    var r := FindJob(jobs, jobs[k].id);
    var i :| 0 <= i < |jobs| && jobs[i] == r.value;
    assert i == k;
  }

  datatype Response<T> = Response(status: nat, body: Result<T, string>)

  /**
   * `get_job`: the summary of the job with the id, or 400 with Django's not-found message (the
   * view's `except` turns the `Http404` into a 400).
   */
  function GetJob(jobs: seq<Job>, id: string, fmt: Formatters): (r: Response<JobSummary>)
    ensures r.status == 200 <==> exists j :: j in jobs && j.id == id
    ensures r.status == 200 ==> r.body.Ok? && r.body.value.id == id
    ensures r.status == 200 ==> exists j :: j in jobs && j.id == id && r.body.value == ToDict(j, fmt)
    ensures r.status != 200 ==> r == Response(400, Err(NoJobMatches))
  {
    match FindJob(jobs, id)
    case Some(job) => Response(200, Ok(ToDict(job, fmt)))
    case None => Response(400, Err(NoJobMatches))
  }
}
