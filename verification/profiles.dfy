/**
 * Job-seeker profiles and the profile-completion rule shared by the two profile views: a
 * profile is complete when at least 80% of its seven required fields are filled in.
 */
module Profiles {
  import opened Wrappers
  import opened Choices
  import ResumeParser

  /**
   * The fields of `JobSeekerProfile` the backend reads or writes. Choice fields are `None` while
   * blank; `resume` is the stored file name, empty when no résumé was uploaded; the extracted
   * experience is `None` while it is still the empty default object.
   */
  datatype SeekerProfile = SeekerProfile(
    userId: string,
    firstName: string,
    lastName: string,
    title: string,
    currentLocation: string,
    experienceLevel: Option<Level>,
    totalExperienceYears: int,
    availability: Option<Availability>,
    resume: string,
    extractedSkills: seq<string>,
    extractedExperience: Option<ResumeParser.Experience>)

  /** The profile `get_or_create` makes for a user who has none: every field at its default. */
  function BlankProfile(userId: string): (p: SeekerProfile)
    ensures p.userId == userId
    ensures CompletedFields(p) == 0
  {
    var p := SeekerProfile(userId, "", "", "", "", None, 0, None, "", [], None);
    CountTrueMonotone(RequiredFields(p), [false, false, false, false, false, false, false]);
    p
  }

  /** The account flag the profile views maintain. */
  datatype Account = Account(id: string, isProfileComplete: bool)

  /**
   * Python truthiness of the seven required fields, in the order the views list them: a string
   * counts when non-empty, a choice when set, the year count when non-zero.
   */
  function RequiredFields(p: SeekerProfile): seq<bool> {
    [p.firstName != "", p.lastName != "", p.title != "", p.currentLocation != "",
     p.experienceLevel.Some?, p.totalExperienceYears != 0, p.availability.Some?]
  }

  function CountTrue(flags: seq<bool>): (n: nat)
    ensures n <= |flags|
  {
    if flags == [] then 0 else (if flags[0] then 1 else 0) + CountTrue(flags[1..])
  }

  function CompletedFields(p: SeekerProfile): nat {
    CountTrue(RequiredFields(p))
  }

  /**
   * `calculate_completion`: the completed share of the seven fields, as a percentage, reaches 80.
   * The comparison `completed / 7 * 100 >= 80` is taken over the rationals.
   */
  function CalculateCompletion(p: SeekerProfile): (complete: bool)
    ensures complete <==> CompletedFields(p) >= 6
  {
    CompletedFields(p) * 100 >= 80 * |RequiredFields(p)|
  }

  /** An empty string, an unset choice and zero years each leave their field uncounted. */
  lemma FalsyFieldsNotCounted(p: SeekerProfile)
    requires p.title == "" && p.experienceLevel == None && p.totalExperienceYears == 0
    ensures CompletedFields(p) <= 4
    ensures !CalculateCompletion(p)
  {
    CountTrueMonotone(RequiredFields(p), [true, true, false, true, false, false, true]);
  }

  /** `a` is at most `b` in every position. */
  predicate FlagsLe(a: seq<bool>, b: seq<bool>) {
    |a| == |b| && forall i :: 0 <= i < |a| ==> (a[i] ==> b[i])
  }

  lemma {:induction false} CountTrueMonotone(a: seq<bool>, b: seq<bool>)
    requires FlagsLe(a, b)
    ensures CountTrue(a) <= CountTrue(b)
    decreases |a|
  {
    if a != [] {
      assert FlagsLe(a[1..], b[1..]) by {
        assert forall i :: 0 <= i < |a| - 1 ==> a[1..][i] == a[i + 1] && b[1..][i] == b[i + 1];
      }
      CountTrueMonotone(a[1..], b[1..]);
    }
  }

  /** Filling in more required fields never turns a complete profile into an incomplete one. */
  lemma CompletionMonotone(p: SeekerProfile, q: SeekerProfile)
    requires FlagsLe(RequiredFields(p), RequiredFields(q))
    ensures CalculateCompletion(p) ==> CalculateCompletion(q)
  {
    CountTrueMonotone(RequiredFields(p), RequiredFields(q));
  }

  /** Completion looks only at the seven required fields. */
  lemma CompletionIgnoresOtherFields(p: SeekerProfile, q: SeekerProfile)
    requires RequiredFields(p) == RequiredFields(q)
    ensures CalculateCompletion(p) == CalculateCompletion(q)
  {
  }

  /**
   * `perform_update` of either profile view, after the serializer has saved `saved`: the account's
   * completion flag is recomputed from the saved profile and nothing else about the account changes.
   */
  function PerformUpdate(saved: SeekerProfile, account: Account): (r: Account)
    ensures r.id == account.id
    ensures r.isProfileComplete <==> CompletedFields(saved) >= 6
  {
    account.(isProfileComplete := CalculateCompletion(saved))
  }

  /** Updating twice with the same profile is the same as updating once. */
  lemma PerformUpdateIdempotent(saved: SeekerProfile, account: Account)
    ensures PerformUpdate(saved, PerformUpdate(saved, account)) == PerformUpdate(saved, account)
  {
  }
}
