/**
 * A generated profile as the aggregation reads it. Dates are day numbers
 * (days since a fixed epoch), so the difference of two dates is their
 * distance in whole days, as `(date_a - date_b).days` is in Python.
 */
module Profiles {
  import opened Truncation

  /**
   * Blood groups, "A+", "A-", "B+", "B-", "AB+", "AB-", "O+", "O-". The
   * aggregation only compares them for equality and uses them as dictionary
   * keys, so any hashable key behaves the same; eight constructors keep the
   * solver's work small.
   */
  datatype BloodGroup = APos | ANeg | BPos | BNeg | ABPos | ABNeg | OPos | ONeg

  /** Only the two fields the aggregation reads are kept. */
  datatype Profile = Profile(bloodGroup: BloodGroup, birthdate: int)

  const DaysPerYear: int := 365

  /** `(date_today - profile.birthdate).days` */
  function AgeDays(p: Profile, today: int): (days: int)
    ensures days > 0 <==> p.birthdate < today
    ensures days == 0 <==> p.birthdate == today
  {
    today - p.birthdate
  }

  /** `int(age / 365)`: whole years, truncated toward zero. */
  function AgeYears(days: int): (years: int)
    ensures years == 0 <==> -DaysPerYear < days < DaysPerYear
    ensures 0 <= days ==> 0 <= years && years * DaysPerYear <= days < (years + 1) * DaysPerYear
    ensures days < 0 ==> years <= 0 && (years - 1) * DaysPerYear < days <= years * DaysPerYear
  {
    TruncDiv(days, DaysPerYear)
  }

  /** The blood groups of the profiles, in input order. */
  function Groups(ps: seq<Profile>): (gs: seq<BloodGroup>)
    ensures |gs| == |ps|
    ensures forall i :: 0 <= i < |ps| ==> gs[i] == ps[i].bloodGroup
  {
    if ps == [] then [] else Groups(ps[..|ps| - 1]) + [ps[|ps| - 1].bloodGroup]
  }

  /** The number of profiles that carry blood group `g`. */
  function Count(ps: seq<Profile>, g: BloodGroup): nat
  {
    multiset(Groups(ps))[g]
  }

  /** A group is counted at least once exactly when some profile carries it, and never more often than there are profiles. */
  lemma {:induction false} CountBounds(ps: seq<Profile>, g: BloodGroup)
    ensures Count(ps, g) <= |ps|
    ensures 1 <= Count(ps, g) <==> exists i :: 0 <= i < |ps| && ps[i].bloodGroup == g
  {
  }
}
