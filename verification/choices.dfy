/** The enumerated choice fields of the user and job models, with the codes stored in the database. */
module Choices {
  import opened Wrappers

  /** `EXPERIENCE_LEVELS`, shared by seeker profiles, jobs and the résumé experience buckets. */
  datatype Level = Entry | Mid | Senior | Expert {

    function Code(): string {
      match this
      case Entry => "entry"
      case Mid => "mid"
      case Senior => "senior"
      case Expert => "expert"
    }

    /** Position in the order entry < mid < senior < expert. */
    function Rank(): nat {
      match this
      case Entry => 0
      case Mid => 1
      case Senior => 2
      case Expert => 3
    }
  }

  /** The level whose stored code is `code`, if any: the inverse of `Level.Code`. */
  function ParseLevel(code: string): (r: Option<Level>)
    ensures forall l: Level :: r == Some(l) <==> l.Code() == code
  {
    if code == "entry" then Some(Entry)
    else if code == "mid" then Some(Mid)
    else if code == "senior" then Some(Senior)
    else if code == "expert" then Some(Expert)
    else None
  }

  /** `Job.JOB_TYPES`. */
  datatype JobType = FullTime | PartTime | Contract | Internship | Freelance {

    function Code(): string {
      match this
      case FullTime => "full_time"
      case PartTime => "part_time"
      case Contract => "contract"
      case Internship => "internship"
      case Freelance => "freelance"
    }
  }

  /** `JobSeekerProfile.availability` choices. */
  datatype Availability = Immediate | TwoWeeks | OneMonth | ThreeMonths {

    function Code(): string {
      match this
      case Immediate => "immediate"
      case TwoWeeks => "2_weeks"
      case OneMonth => "1_month"
      case ThreeMonths => "3_months"
    }
  }
}
