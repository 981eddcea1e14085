/**
 * `job_created_handler`: when a job is created, score every job seeker against it and send a
 * `job_update` message to the group of each seeker whose score is above 60.
 */
module FanOut {
  import opened Wrappers
  import opened Jobs
  import opened MatchScorer
  import Profiles

  /** The `job_data` of a message. */
  datatype JobUpdate = JobUpdate(
    id: string,
    title: string,
    company: string,
    location: string,
    salaryRange: string,
    jobType: string,
    postedDate: string,
    description: string)

  /** The message payload, built with the same fallbacks and truncation as the job summary. */
  function Payload(job: Job, fmt: Formatters): (u: JobUpdate)
    ensures var d := ToDict(job, fmt);
      && u.id == d.id && u.title == d.title && u.company == d.company && u.location == d.location
      && u.salaryRange == d.salaryRange && u.jobType == d.jobType && u.postedDate == d.postedDate
      && u.description == d.description
  {
    JobUpdate(
      job.id, job.title, CompanyName(job), job.location, SalaryRange(job, fmt), job.jobType,
      fmt.isoformat(job.createdAt), TruncateDescription(job.description))
  }

  /** One `group_send`. */
  datatype Notification = Notification(group: string, kind: string, jobData: JobUpdate, matchScore: nat)

  const Threshold := 60

  function GroupOf(userId: string): string {
    "user_" + userId
  }

  /** The messages sent, and the exception that ended the loop early, if any. */
  datatype Outcome = Outcome(sent: seq<Notification>, failure: Option<string>)

  /**
   * The loop over the seekers, in order, with the scorer as a parameter. A scorer failure
   * propagates out of the handler: messages already sent stay sent and no later seeker is scored.
   */
  function Notify(seekers: seq<Candidate>, update: JobUpdate, score: Candidate -> Result<nat, string>): (r: Outcome)
    ensures |r.sent| <= |seekers|
    ensures forall n :: n in r.sent ==> n.matchScore > Threshold && n.kind == "job_update" && n.jobData == update
  {
    if seekers == [] then Outcome([], None)
    else
      match score(seekers[0])
      case Err(e) => Outcome([], Some(e))
      case Ok(points) =>
        var rest := Notify(seekers[1..], update, score);
        var head := if points > Threshold then [Notification(GroupOf(seekers[0].userId), "job_update", update, points)] else [];
        Outcome(head + rest.sent, rest.failure)
  }

  /** A single seeker gets a message exactly when the score succeeds and is above 60. */
  lemma NotifyOne(s: Candidate, update: JobUpdate, score: Candidate -> Result<nat, string>)
    ensures Notify([s], update, score).failure == (if score(s).Err? then Some(score(s).error) else None)
    ensures |Notify([s], update, score).sent| == 1 <==> score(s).Ok? && score(s).value > Threshold
    ensures Notify([s], update, score).sent != [] ==>
      Notify([s], update, score).sent == [Notification(GroupOf(s.userId), "job_update", update, score(s).value)]
  {
    assert [s][1..] == [];
  }

  /**
   * Seekers are handled in order: the outcome for `a + b` is that of `a` when `a` fails, and
   * otherwise `a`'s messages followed by `b`'s.
   */
  lemma {:induction false} NotifyAppend(a: seq<Candidate>, b: seq<Candidate>, update: JobUpdate, score: Candidate -> Result<nat, string>)
    ensures var ra := Notify(a, update, score);
      Notify(a + b, update, score) ==
        if ra.failure.Some? then ra
        else Outcome(ra.sent + Notify(b, update, score).sent, Notify(b, update, score).failure)
    decreases |a|
  {
    if a != [] {
      assert (a + b)[0] == a[0];
      assert (a + b)[1..] == a[1..] + b;
      NotifyAppend(a[1..], b, update, score);
      var ra := Notify(a[1..], update, score);
      if score(a[0]).Ok? && ra.failure.None? {
        var head := if score(a[0]).value > Threshold then [Notification(GroupOf(a[0].userId), "job_update", update, score(a[0]).value)] else [];
        assert head + (ra.sent + Notify(b, update, score).sent) == (head + ra.sent) + Notify(b, update, score).sent;
      }
    } else {
      assert a + b == b;
    }
  }

  /** A seeker after the first failing one is never messaged. */
  lemma FailureStopsLaterSeekers(a: seq<Candidate>, s: Candidate, b: seq<Candidate>, update: JobUpdate, score: Candidate -> Result<nat, string>)
    requires score(s).Err?
    ensures Notify(a + [s] + b, update, score).sent == Notify(a, update, score).sent
  {
    NotifyAppend(a, [s] + b, update, score);
    NotifyAppend([s], b, update, score);
    assert a + [s] + b == a + ([s] + b);
  }

  /** `job_created_handler` as written: nothing happens for an update, only for a creation. */
  function JobCreatedHandler(created: bool, profiles: seq<Profiles.SeekerProfile>, job: Job, fmt: Formatters): (r: Outcome)
    ensures !created ==> r == Outcome([], None)
    ensures forall n :: n in r.sent ==> Threshold < n.matchScore <= 100
  {
    if !created then Outcome([], None)
    else
      var seekers := seq(|profiles|, i requires 0 <= i < |profiles| => FromProfile(profiles[i]));
      var r := Notify(seekers, Payload(job, fmt), c => Score(c, job));
      NotifiedScoresBounded(seekers, Payload(job, fmt), job);
      r
  }

  lemma {:induction false} NotifiedScoresBounded(seekers: seq<Candidate>, update: JobUpdate, job: Job)
    ensures forall n :: n in Notify(seekers, update, c => Score(c, job)).sent ==> n.matchScore <= 100
  {
    if seekers != [] {
      NotifiedScoresBounded(seekers[1..], update, job);
    }
  }

  /** Scores of stored profiles never exceed 60, so no stored profile is ever messaged. */
  lemma {:induction false} ProfilesNeverNotified(profiles: seq<Profiles.SeekerProfile>, update: JobUpdate, job: Job)
    ensures var seekers := seq(|profiles|, i requires 0 <= i < |profiles| => FromProfile(profiles[i]));
      Notify(seekers, update, c => Score(c, job)).sent == []
  {
    var seekers := seq(|profiles|, i requires 0 <= i < |profiles| => FromProfile(profiles[i]));
    if profiles != [] {
      ProfilesNeverNotified(profiles[1..], update, job);
      assert seekers[1..] == seq(|profiles[1..]|, i requires 0 <= i < |profiles[1..]| => FromProfile(profiles[1..][i]));
      ProfileScoreAtMostSixty(profiles[0], job);
    }
  }

  /** The handler as written never sends a message. */
  lemma HandlerNeverSends(created: bool, profiles: seq<Profiles.SeekerProfile>, job: Job, fmt: Formatters)
    ensures JobCreatedHandler(created, profiles, job, fmt).sent == []
  {
    ProfilesNeverNotified(profiles, Payload(job, fmt), job);
  }

  /** The handler with the intended experience comparison: it never fails. */
  function JobCreatedHandlerIntended(created: bool, profiles: seq<Profiles.SeekerProfile>, job: Job, fmt: Formatters): (r: Outcome)
    ensures !created ==> r == Outcome([], None)
    ensures r.failure.None?
  {
    if !created then Outcome([], None)
    else
      var seekers := seq(|profiles|, i requires 0 <= i < |profiles| => FromProfile(profiles[i]));
      NeverFails(seekers, Payload(job, fmt), job);
      Notify(seekers, Payload(job, fmt), c => ScoreIntended(c, job))
  }

  lemma {:induction false} NeverFails(seekers: seq<Candidate>, update: JobUpdate, job: Job)
    ensures Notify(seekers, update, c => ScoreIntended(c, job)).failure.None?
  {
    if seekers != [] {
      NeverFails(seekers[1..], update, job);
    }
  }
}
