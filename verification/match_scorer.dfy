/**
 * `calculate_job_match`: an additive score out of 100 for a job seeker against a job, from
 * location (30), skills (40), experience level (20) and job type (10), capped at 100.
 */
module MatchScorer {
  import opened Wrappers
  import opened Strings
  import opened Choices
  import opened Jobs
  import Profiles

  /**
   * What the scorer reads from a seeker. The preference fields are `None` where the profile has
   * no such attribute, which is the case for every `JobSeekerProfile` (see `FromProfile`).
   */
  datatype Candidate = Candidate(
    userId: string,
    preferredLocation: Option<string>,
    extractedSkills: seq<string>,
    experienceLevel: Option<Level>,
    preferredJobType: Option<string>)

  /** The view of a stored profile: it has no `preferred_location` or `preferred_job_type`. */
  function FromProfile(p: Profiles.SeekerProfile): (c: Candidate)
    ensures c.preferredLocation.None? && c.preferredJobType.None?
    ensures c.userId == p.userId && c.extractedSkills == p.extractedSkills && c.experienceLevel == p.experienceLevel
  {
    Candidate(p.userId, None, p.extractedSkills, p.experienceLevel, None)
  }

  /** A string attribute that exists and is non-empty. */
  predicate Filled(x: Option<string>) {
    x.Some? && x.value != ""
  }

  /**
   * 30 when the lower-cased preference occurs in the lower-cased job location, or equals it;
   * `LocationEqualityRedundant` shows the second test adds nothing.
   */
  function LocationPoints(preferred: Option<string>, jobLocation: string): (points: nat)
    ensures points == 30 <==>
      && Filled(preferred) && jobLocation != ""
      && (Contains(Lower(jobLocation), Lower(preferred.value)) || Lower(preferred.value) == Lower(jobLocation))
    ensures points == 0 || points == 30
  {
    if Filled(preferred) && jobLocation != "" then
      if Contains(Lower(jobLocation), Lower(preferred.value)) then 30
      else if Lower(preferred.value) == Lower(jobLocation) then 30
      else 0
    else 0
  }

  /** The location points are exactly the substring test: the equality branch is subsumed. */
  lemma LocationEqualityRedundant(preferred: Option<string>, jobLocation: string)
    ensures LocationPoints(preferred, jobLocation) == 30 <==>
      (Filled(preferred) && jobLocation != "" && Contains(Lower(jobLocation), Lower(preferred.value)))
  {
    if Filled(preferred) {
      ContainsSelf(Lower(jobLocation));
    }
  }

  /** The distinct lower-cased entries of a skill list. */
  function LowerSet(xs: seq<string>): (s: set<string>)
    ensures xs != [] ==> |s| > 0
  {
    var s := set x | x in xs :: Lower(x);
    assert xs != [] ==> Lower(xs[0]) in s;
    s
  }

  lemma {:induction false} SubsetCardinality(a: set<string>, b: set<string>)
    requires a <= b
    ensures |a| <= |b|
    decreases |b|
  {
    if b != {} {
      var x :| x in b;
      SubsetCardinality(a - {x}, b - {x});
    }
  }

  /**
   * `int(len(S & J) / len(J) * 40)` over the lower-cased skill sets, zero when either list is
   * empty. The float quotient is taken as the exact floor `40 * |S & J| / |J|`.
   */
  function SkillPoints(seekerSkills: seq<string>, jobSkills: seq<string>): (points: nat)
    ensures points <= 40
    ensures seekerSkills == [] || jobSkills == [] ==> points == 0
    ensures seekerSkills != [] && jobSkills != [] && LowerSet(jobSkills) <= LowerSet(seekerSkills) ==> points == 40
    ensures seekerSkills != [] && jobSkills != [] ==>
      && points * |LowerSet(jobSkills)| <= 40 * |LowerSet(seekerSkills) * LowerSet(jobSkills)|
      && 40 * |LowerSet(seekerSkills) * LowerSet(jobSkills)| < (points + 1) * |LowerSet(jobSkills)|
  {
    if seekerSkills != [] && jobSkills != [] then
      var s := LowerSet(seekerSkills);
      var j := LowerSet(jobSkills);
      SubsetCardinality(s * j, j);
      FortyShare(|s * j|, |j|);
      assert j <= s ==> s * j == j;
      FloorBounds(40 * |s * j|, |j|);
      (40 * |s * j|) / |j|
    else 0
  }

  /** The quotient `a / n` is the largest `q` with `q * n <= a`. */
  lemma FloorBounds(a: nat, n: nat)
    requires n > 0
    ensures (a / n) * n <= a < (a / n + 1) * n
  {
    assert a == (a / n) * n + a % n;
  }

  /** One of three required skills earns 13 of the 40 points. */
  lemma OneOfThreeSkills()
    ensures SkillPoints(["python"], ["python", "react", "sql"]) == 13
  {
    SampleSkillsLower();
    OneOfThreeDistinct("python", "react", "sql");
    var points := SkillPoints(["python"], ["python", "react", "sql"]);
    assert points * 3 <= 40 < (points + 1) * 3;
  }

  /** A seeker holding the first of three distinct lower-case job skills shares one of three. */
  lemma OneOfThreeDistinct(a: string, b: string, c: string)
    requires Lower(a) == a && Lower(b) == b && Lower(c) == c
    requires a != b && a != c && b != c
    ensures |LowerSet([a, b, c])| == 3
    ensures |LowerSet([a]) * LowerSet([a, b, c])| == 1
  {
    assert LowerSet([a]) == {a} by {
      assert a in [a];
    }
    assert LowerSet([a, b, c]) == {a, b, c} by {
      assert a in [a, b, c] && b in [a, b, c] && c in [a, b, c];
    }
    assert {a} * {a, b, c} == {a};
  }

  lemma SampleSkillsLower()
    ensures Lower("python") == "python" && Lower("react") == "react" && Lower("sql") == "sql"
  {
    LowerFixesNoUpper("python");
    LowerFixesNoUpper("react");
    LowerFixesNoUpper("sql");
  }

  /** `40 * k / n` is at most 40 for a share `k` of `n`, and exactly 40 for the whole. */
  lemma FortyShare(k: nat, n: nat)
    requires k <= n && n > 0
    ensures (40 * k) / n <= 40
    ensures k == n ==> (40 * k) / n == 40
  {
    DivMonotone(40 * k, 40 * n, n);
  }

  lemma DivMonotone(a: nat, b: nat, n: nat)
    requires a <= b && n > 0
    ensures a / n <= b / n
  {
    var qa, qb := a / n, b / n;
    assert qa * n <= a;
    assert b < (qb + 1) * n;
    MulCancelLess(qa, qb + 1, n);
  }

  lemma MulCancelLess(x: nat, y: nat, n: nat)
    requires x * n < y * n
    ensures x < y
  {
    if x >= y {
      MulMonotone(y, x, n);
    }
  }

  lemma MulMonotone(y: nat, x: nat, n: nat)
    requires y <= x
    ensures y * n <= x * n
  {
    assert x * n == y * n + (x - y) * n;
  }

  /** A seeker with more skills never scores fewer skill points. */
  lemma SkillPointsMonotone(fewer: seq<string>, more: seq<string>, jobSkills: seq<string>)
    requires fewer != [] && LowerSet(fewer) <= LowerSet(more)
    ensures SkillPoints(fewer, jobSkills) <= SkillPoints(more, jobSkills)
  {
    if jobSkills != [] {
      var j := LowerSet(jobSkills);
      assert more != [] by {
        assert Lower(fewer[0]) in LowerSet(fewer);
      }
      SubsetCardinality(LowerSet(fewer) * j, LowerSet(more) * j);
      DivMonotone(40 * |LowerSet(fewer) * j|, 40 * |LowerSet(more) * j|, |j|);
    }
  }

  /** Python's message for `str - str`. */
  const StrMinusStr := "unsupported operand type(s) for -: 'str' and 'str'"

  /**
   * The experience component as written: 20 for equal levels; for different levels the code
   * subtracts one level string from the other, which raises `TypeError`.
   */
  function ExperiencePoints(seekerLevel: Option<Level>, required: string): (r: Result<nat, string>)
    ensures r.Ok? <==> seekerLevel.None? || required == "" || seekerLevel.value.Code() == required
    ensures r.Ok? ==> r.value == if seekerLevel.Some? && required != "" then 20 else 0
    ensures r.Err? ==> r.error == StrMinusStr
  {
    if seekerLevel.Some? && required != "" then
      if seekerLevel.value.Code() == required then Ok(20) else Err(StrMinusStr)
    else Ok(0)
  }

  /** 10 when the preferred job type is set and equals the job's. */
  function JobTypePoints(preferred: Option<string>, jobType: string): (points: nat)
    ensures points == 10 <==> Filled(preferred) && jobType != "" && preferred.value == jobType
    ensures points == 0 || points == 10
  {
    if Filled(preferred) && jobType != "" && preferred.value == jobType then 10 else 0
  }

  /** The score before the cap, given the experience points. */
  function Total(c: Candidate, job: Job, experience: nat): nat {
    LocationPoints(c.preferredLocation, job.location)
    + SkillPoints(c.extractedSkills, job.extractedSkills)
    + experience
    + JobTypePoints(c.preferredJobType, job.jobType)
  }

  /** `calculate_job_match` as written: a score in [0, 100], or the `TypeError` of the experience test. */
  function Score(c: Candidate, job: Job): (r: Result<nat, string>)
    ensures r.Ok? ==> r.value <= 100
    ensures r.Err? <==> ExperiencePoints(c.experienceLevel, job.experienceRequired).Err?
  {
    match ExperiencePoints(c.experienceLevel, job.experienceRequired)
    case Err(e) => Err(e)
    case Ok(points) =>
      var total := Total(c, job, points);
      Ok(if total < 100 then total else 100)
  }

  /** The weights add up to 100, so the cap never changes a score. */
  lemma CapNeverBinds(c: Candidate, job: Job)
    requires Score(c, job).Ok?
    ensures Score(c, job).value == Total(c, job, ExperiencePoints(c.experienceLevel, job.experienceRequired).value)
  {
  }

  /** A seeker and a job with different non-empty levels make the score computation fail. */
  lemma AdjacentLevelsFail(c: Candidate, job: Job)
    requires c.experienceLevel == Some(Mid) && job.experienceRequired == "senior"
    ensures Score(c, job) == Err(StrMinusStr)
  {
  }

  /**
   * The experience component as evidently intended: levels compared by their position in
   * entry < mid < senior < expert, 20 for the same level and 15 for neighbouring levels.
   */
  function ExperiencePointsIntended(seekerLevel: Option<Level>, required: string): (points: nat)
    ensures points == 20 <==> seekerLevel.Some? && required != "" && seekerLevel.value.Code() == required
    ensures points == 15 <==>
      seekerLevel.Some? && ParseLevel(required).Some? && seekerLevel.value != ParseLevel(required).value
      && -1 <= seekerLevel.value.Rank() - ParseLevel(required).value.Rank() <= 1
  {
    if seekerLevel.Some? && required != "" then
      if seekerLevel.value.Code() == required then 20
      else
        match ParseLevel(required)
        case Some(l) => if -1 <= seekerLevel.value.Rank() - l.Rank() <= 1 then 15 else 0
        case None => 0
    else 0
  }

  /** `calculate_job_match` with the intended experience component: always a score in [0, 100]. */
  function ScoreIntended(c: Candidate, job: Job): (r: Result<nat, string>)
    ensures r.Ok? && r.value <= 100
  {
    var total := Total(c, job, ExperiencePointsIntended(c.experienceLevel, job.experienceRequired));
    Ok(if total < 100 then total else 100)
  }

  /** Wherever the written scorer produces a score, the intended one produces the same score. */
  lemma IntendedAgreesWhereDefined(c: Candidate, job: Job)
    requires Score(c, job).Ok?
    ensures ScoreIntended(c, job) == Score(c, job)
  {
  }

  /** Neighbouring levels earn 15 under the intended rule, in either direction. */
  lemma NeighbouringLevelsScore(a: Level, b: Level)
    requires a.Rank() + 1 == b.Rank()
    ensures ExperiencePointsIntended(Some(a), b.Code()) == 15
    ensures ExperiencePointsIntended(Some(b), a.Code()) == 15
  {
    assert ParseLevel(b.Code()) == Some(b) && ParseLevel(a.Code()) == Some(a);
  }

  /**
   * A stored profile has no location or job-type preference, so its score is at most
   * 40 + 20 = 60 under either scorer.
   */
  lemma ProfileScoreAtMostSixty(p: Profiles.SeekerProfile, job: Job)
    ensures Score(FromProfile(p), job).Ok? ==> Score(FromProfile(p), job).value <= 60
    ensures ScoreIntended(FromProfile(p), job).value <= 60
  {
  }
}
