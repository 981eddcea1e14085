/**
 * `create_job`: find or create the poster's employer profile, insert the job with the request's
 * values and defaults, and answer with the job's summary. The insert fires `job_created_handler`,
 * so the handler's outcome is part of what the view answers.
 */
module JobCreation {
  import opened Wrappers
  import opened Jobs
  import Profiles
  import FanOut
  import MatchScorer

  /**
   * The request keys `create_job` reads; `None` is an absent key. Values arrive with the types
   * the JSON parser gives them for well-typed input: strings, whole numbers and a boolean.
   */
  datatype JobRequest = JobRequest(
    company: Option<string>,
    website: Option<string>,
    companyDescription: Option<string>,
    title: Option<string>,
    description: Option<string>,
    jobType: Option<string>,
    experienceLevel: Option<string>,
    minYearsExperience: Option<int>,
    location: Option<string>,
    remoteWork: Option<bool>,
    salaryMin: Option<int>,
    salaryMax: Option<int>,
    applicationDeadline: Option<string>)

  /** The column values `create_job` passes to `Job.objects.create`; `None` is SQL NULL. */
  datatype JobFields = JobFields(
    employer: Employer,
    title: Option<string>,
    description: Option<string>,
    jobType: string,
    experienceRequired: string,
    minYearsExperience: int,
    location: Option<string>,
    isRemote: bool,
    salaryMin: Option<int>,
    salaryMax: Option<int>,
    expiresAt: Option<string>)

  /** The request's values with `create_job`'s defaults for absent keys. */
  function JobFieldsFor(req: JobRequest, employer: Employer): (f: JobFields)
    ensures req.jobType.None? ==> f.jobType == "full_time"
    ensures req.experienceLevel.None? ==> f.experienceRequired == "mid"
    ensures req.minYearsExperience.None? ==> f.minYearsExperience == 0
    ensures req.remoteWork.None? ==> !f.isRemote
    ensures req.applicationDeadline.None? || req.applicationDeadline == Some("") ==> f.expiresAt.None?
    ensures req.jobType.Some? ==> f.jobType == req.jobType.value
    ensures req.experienceLevel.Some? ==> f.experienceRequired == req.experienceLevel.value
    ensures req.applicationDeadline.Some? && req.applicationDeadline.value != "" ==> f.expiresAt == req.applicationDeadline
    ensures f.employer == employer && f.title == req.title && f.location == req.location
    ensures f.description == req.description && f.salaryMin == req.salaryMin && f.salaryMax == req.salaryMax
    ensures req.minYearsExperience.Some? ==> f.minYearsExperience == req.minYearsExperience.value
    ensures req.remoteWork.Some? ==> f.isRemote == req.remoteWork.value
  {
    JobFields(
      employer,
      req.title,
      req.description,
      req.jobType.GetOr("full_time"),
      req.experienceLevel.GetOr("mid"),
      req.minYearsExperience.GetOr(0),
      req.location,
      req.remoteWork.GetOr(false),
      req.salaryMin,
      req.salaryMax,
      if req.applicationDeadline.Some? && req.applicationDeadline.value != "" then req.applicationDeadline else None)
  }

  /**
   * `title`, `description`, `location` and `expires_at` are NOT NULL columns of `Job`: a row
   * with a NULL in any of them is never stored.
   */
  predicate NotNullSatisfied(f: JobFields) {
    f.title.Some? && f.description.Some? && f.location.Some? && f.expiresAt.Some?
  }

  /** The employer profiles table, keyed by user id. */
  type EmployerStore = map<string, Employer>

  /**
   * What `get_or_create` reports for a user without an employer profile: the defaults name
   * `website` and `description`, which are not fields of `EmployerProfile`.
   */
  const InvalidEmployerFields := "Invalid field name(s) for model EmployerProfile: 'description', 'website'."

  /** What the database adds to an inserted row: its primary key and its `created_at`. */
  datatype Saved = Saved(id: string, createdAt: int)

  /** The database insert: the new row's key and timestamp, or the database's error. */
  type Insert = JobFields -> Result<Saved, string>

  /** The database refuses every row that leaves a NOT NULL column empty. */
  ghost predicate EnforcesNotNull(insert: Insert) {
    forall f :: insert(f).Ok? ==> NotNullSatisfied(f)
  }

  /**
   * The row `Job.objects.create` stores: the create arguments, the model defaults for the fields
   * the view does not pass (no extracted skills, active), and the database's key and timestamp.
   */
  function StoredRow(f: JobFields, saved: Saved): Job
    requires NotNullSatisfied(f)
  {
    Job(saved.id, Some(f.employer), f.title.value, f.description.value, f.jobType, f.experienceRequired,
      f.minYearsExperience, f.location.value, f.isRemote, f.salaryMin, f.salaryMax, [], true,
      saved.createdAt, f.expiresAt)
  }

  datatype Created = Created(message: string, job: JobSummary)

  const JobCreated := "Job created successfully"

  /**
   * The insert and the post-save handler it fires, for a known employer: the response, and the
   * row left in the database. A handler exception escapes `Job.objects.create` after the row is
   * saved, and the view's `except` turns it into a 400.
   */
  function CreateWith(employer: Employer, req: JobRequest, insert: Insert, handler: Job -> FanOut.Outcome, fmt: Formatters): (r: (Response<Created>, Option<Job>))
    requires EnforcesNotNull(insert)
    ensures r.1.Some? <==> insert(JobFieldsFor(req, employer)).Ok?
    ensures r.1.Some? ==> var f := JobFieldsFor(req, employer); var job := r.1.value;
      && job.id == insert(f).value.id && job.createdAt == insert(f).value.createdAt
      && job.employer == Some(employer) && job.title == req.title.value && job.description == req.description.value
      && job.location == req.location.value && job.jobType == f.jobType && job.experienceRequired == f.experienceRequired
      && job.minYearsExperience == f.minYearsExperience && job.isRemote == f.isRemote
      && job.salaryMin == req.salaryMin && job.salaryMax == req.salaryMax && job.expiresAt == f.expiresAt
      && job.extractedSkills == [] && job.isActive
    ensures r.0.status == 201 <==> r.1.Some? && handler(r.1.value).failure.None?
    ensures r.0.status == 201 ==> r.0.body == Ok(Created(JobCreated, ToDict(r.1.value, fmt)))
    ensures r.0.status != 201 ==> r.0.status == 400 && r.0.body.Err?
  {
    var f := JobFieldsFor(req, employer);
    match insert(f)
    case Err(e) => (Response(400, Err(e)), None)
    case Ok(saved) =>
      var job := StoredRow(f, saved);
      var notified := handler(job);
      if notified.failure.Some? then (Response(400, Err(notified.failure.value)), Some(job))
      else (Response(201, Ok(Created(JobCreated, ToDict(job, fmt)))), Some(job))
  }

  /** `job_created_handler` for a newly created row, over the stored seeker profiles. */
  function WrittenHandler(profiles: seq<Profiles.SeekerProfile>, fmt: Formatters): Job -> FanOut.Outcome {
    job => FanOut.JobCreatedHandler(true, profiles, job, fmt)
  }

  /**
   * `create_job` as written. An existing employer profile is used as it is; for a user without
   * one, `get_or_create` rejects the defaults before anything is inserted.
   */
  function CreateJob(employers: EmployerStore, userId: string, req: JobRequest, insert: Insert, profiles: seq<Profiles.SeekerProfile>, fmt: Formatters): (r: (Response<Created>, Option<Job>))
    requires EnforcesNotNull(insert)
    ensures userId !in employers ==> r == (Response(400, Err(InvalidEmployerFields)), None)
    ensures r.1.Some? <==> userId in employers && insert(JobFieldsFor(req, employers[userId])).Ok?
    ensures r.0.status == 201 <==> r.1.Some? && FanOut.JobCreatedHandler(true, profiles, r.1.value, fmt).failure.None?
    ensures r.0.status == 201 ==> r.0.body == Ok(Created(JobCreated, ToDict(r.1.value, fmt)))
    ensures r.0.status == 201 ==> var f := JobFieldsFor(req, employers[userId]); var summary := r.0.body.value.job;
      && summary.id == insert(f).value.id && summary.postedDate == fmt.isoformat(insert(f).value.createdAt)
      && summary.title == req.title.value && summary.location == req.location.value
      && summary.description == TruncateDescription(req.description.value)
      && summary.company == employers[userId].companyName
      && summary.jobType == f.jobType && summary.experienceRequired == f.experienceRequired
      && summary.isRemote == f.isRemote && summary.status == "active"
    ensures r.0.status != 201 ==> r.0.status == 400 && r.0.body.Err?
  {
    if userId in employers then CreateWith(employers[userId], req, insert, WrittenHandler(profiles, fmt), fmt)
    else (Response(400, Err(InvalidEmployerFields)), None)
  }

  /** A user who is not yet an employer can never post a job through `create_job` as written. */
  lemma NewEmployerAlwaysRejected(employers: EmployerStore, userId: string, req: JobRequest, insert: Insert, profiles: seq<Profiles.SeekerProfile>, fmt: Formatters)
    requires userId !in employers
    requires EnforcesNotNull(insert) && forall f :: NotNullSatisfied(f) ==> insert(f).Ok?
    ensures CreateJob(employers, userId, req, insert, profiles, fmt).0.status == 400
  {
  }

  /** Without a deadline the insert breaks the NOT NULL `expires_at` column, so posting fails and nothing is saved. */
  lemma NoDeadlineAlwaysRejected(employers: EmployerStore, userId: string, req: JobRequest, insert: Insert, profiles: seq<Profiles.SeekerProfile>, fmt: Formatters)
    requires EnforcesNotNull(insert)
    requires req.applicationDeadline.None? || req.applicationDeadline == Some("")
    ensures CreateJob(employers, userId, req, insert, profiles, fmt).0.status == 400
    ensures CreateJob(employers, userId, req, insert, profiles, fmt).1 == None
  {
    if userId in employers {
      var f := JobFieldsFor(req, employers[userId]);
      assert !NotNullSatisfied(f);
    }
  }

  /**
   * A seeker whose level differs from the new job's makes the handler raise `TypeError`: the row
   * is saved, yet the poster gets 400.
   */
  lemma SavedButRejected(employers: EmployerStore, userId: string, req: JobRequest, insert: Insert, profiles: seq<Profiles.SeekerProfile>, fmt: Formatters)
    requires EnforcesNotNull(insert)
    requires userId in employers && insert(JobFieldsFor(req, employers[userId])).Ok?
    requires profiles != [] && profiles[0].experienceLevel.Some?
    requires var level := JobFieldsFor(req, employers[userId]).experienceRequired;
      level != "" && level != profiles[0].experienceLevel.value.Code()
    ensures var f := JobFieldsFor(req, employers[userId]);
      CreateJob(employers, userId, req, insert, profiles, fmt) ==
        (Response(400, Err(MatchScorer.StrMinusStr)), Some(StoredRow(f, insert(f).value)))
  {
    var f := JobFieldsFor(req, employers[userId]);
    var job := StoredRow(f, insert(f).value);
    var seekers := seq(|profiles|, i requires 0 <= i < |profiles| => MatchScorer.FromProfile(profiles[i]));
    assert seekers[0] == MatchScorer.FromProfile(profiles[0]);
    assert MatchScorer.Score(seekers[0], job) == Err(MatchScorer.StrMinusStr);
    assert FanOut.Notify(seekers, FanOut.Payload(job, fmt), c => MatchScorer.Score(c, job)).failure == Some(MatchScorer.StrMinusStr);
  }

  /** The employer profile the defaults describe, with the model's own field names. */
  function DefaultEmployer(userId: string, req: JobRequest): (e: Employer)
    ensures e.userId == userId
    ensures e.companyName == req.company.GetOr(UnknownCompany)
    ensures e.companyWebsite == req.website.GetOr("") && e.companyDescription == req.companyDescription.GetOr("")
  {
    Employer(userId, req.company.GetOr(UnknownCompany), req.companyDescription.GetOr(""), req.website.GetOr(""), "Small", "Technology")
  }

  /** `job_created_handler` for a new row with the corrected experience comparison. */
  function IntendedHandler(profiles: seq<Profiles.SeekerProfile>, fmt: Formatters): Job -> FanOut.Outcome {
    job => FanOut.JobCreatedHandlerIntended(true, profiles, job, fmt)
  }

  /**
   * `create_job` as evidently intended: a missing employer profile is created from the defaults
   * (and stays created even when the job insert then fails), and the handler scores levels by rank.
   */
  function CreateJobIntended(employers: EmployerStore, userId: string, req: JobRequest, insert: Insert, profiles: seq<Profiles.SeekerProfile>, fmt: Formatters): (r: (Response<Created>, EmployerStore, Option<Job>))
    requires EnforcesNotNull(insert)
    ensures userId in r.1 && r.1.Keys == employers.Keys + {userId}
    ensures userId in employers ==> r.1 == employers
    ensures r.0.status == 201 <==> insert(JobFieldsFor(req, r.1[userId])).Ok?
    ensures r.2.Some? <==> r.0.status == 201
  {
    var employer := if userId in employers then employers[userId] else DefaultEmployer(userId, req);
    var (response, saved) := CreateWith(employer, req, insert, IntendedHandler(profiles, fmt), fmt);
    (response, employers[userId := employer], saved)
  }

  /**
   * For an existing employer the intended and the written behaviour give the same response
   * whenever the written handler does not raise.
   */
  lemma IntendedAgreesForExistingEmployer(employers: EmployerStore, userId: string, req: JobRequest, insert: Insert, profiles: seq<Profiles.SeekerProfile>, fmt: Formatters)
    requires EnforcesNotNull(insert) && userId in employers
    ensures var written := CreateJob(employers, userId, req, insert, profiles, fmt);
      written.0.status == 201 || written.1.None? ==>
        CreateJobIntended(employers, userId, req, insert, profiles, fmt).0 == written.0
  {
  }

  /** Under the intended behaviour, a first-time poster gets the job created when the insert succeeds. */
  lemma IntendedAcceptsNewEmployer(employers: EmployerStore, userId: string, req: JobRequest, insert: Insert, profiles: seq<Profiles.SeekerProfile>, fmt: Formatters)
    requires userId !in employers
    requires EnforcesNotNull(insert) && insert(JobFieldsFor(req, DefaultEmployer(userId, req))).Ok?
    ensures CreateJobIntended(employers, userId, req, insert, profiles, fmt).0.status == 201
    ensures CreateJobIntended(employers, userId, req, insert, profiles, fmt).1[userId].companyName == req.company.GetOr(UnknownCompany)
  {
  }
}
