/**
 * The single pass of `calc_data_using_namedtuple` and
 * `calc_data_using_dictionary`: one loop over the profiles that updates the
 * frequency table, the oldest-person tracker and the sum of ages in place,
 * followed by the construction of the summary.
 */
module Aggregation {
  import opened Outcomes
  import opened Truncation
  import opened Profiles
  import opened BloodGroups
  import opened Oldest
  import opened Ages
  import opened Summaries

  /**
   * One aggregation pass over `profiles`, with ages measured against the day
   * number `today`. Both Python functions run this same algorithm; `variant`
   * selects how the result is read back from the tracker.
   */
  method Aggregate(profiles: seq<Profile>, today: int, variant: Variant) returns (r: Result<Summary>)
    ensures r == Summarize(profiles, today, variant)
  {
    var bloodGp, bloodGpKeys, maxAge, maxAgeProfile, sumAges := Scan(profiles, today);
    FirstSeenListsTally(profiles);
    var bgL := MaxByCount(bloodGpKeys, bloodGp);
    if bgL.Failure? {
      r := Failure(bgL.error);
    } else if variant == Dictionary && maxAgeProfile.None? {
      r := Failure(MissingKey("profile"));
    } else {
      var g := bgL.value;
      r := Success(Summary((g, bloodGp[g]), (maxAgeProfile, AgeYears(maxAge)), TruncDiv(sumAges, |profiles|)));
    }
  }

  /**
   * The loop of the pass: the frequency table `blood_gp` with its key order,
   * the tracker `max_age` and the sum `sum_ages`, each updated in place once
   * per profile, end equal to their definitions over the whole input.
   */
  method Scan(profiles: seq<Profile>, today: int)
    returns (bloodGp: map<BloodGroup, nat>, bloodGpKeys: seq<BloodGroup>,
             maxAge: int, maxAgeProfile: Option<Profile>, sumAges: int)
    ensures bloodGp == Tally(profiles)
    ensures bloodGpKeys == FirstSeen(profiles)
    ensures Tracker(maxAge, maxAgeProfile) == OldestSoFar(profiles, today)
    ensures sumAges == SumYears(profiles, today)
  {
    bloodGp, bloodGpKeys := map[], [];
    maxAge, maxAgeProfile := 0, None;
    sumAges := 0;
    for i := 0 to |profiles|
      invariant bloodGp == Tally(profiles[..i])
      invariant bloodGpKeys == FirstSeen(profiles[..i])
      invariant Tracker(maxAge, maxAgeProfile) == OldestSoFar(profiles[..i], today)
      invariant sumAges == SumYears(profiles[..i], today)
    {
      var profile := profiles[i];
      var g := profile.bloodGroup;
      if g !in bloodGp {
        bloodGpKeys := bloodGpKeys + [g];
      }
      bloodGp := bloodGp[g := CountOf(bloodGp, g) + 1];
      var age := AgeDays(profile, today);
      if age > maxAge {
        maxAge := age;
        maxAgeProfile := Some(profile);
      }
      sumAges := sumAges + AgeYears(age);
      assert bloodGp == Tally(profiles[..i + 1]) by {
        TallyStep(profiles, i);
      }
      assert bloodGpKeys == FirstSeen(profiles[..i + 1]) by {
        FirstSeenStep(profiles, i);
      }
      assert Tracker(maxAge, maxAgeProfile) == OldestSoFar(profiles[..i + 1], today) by {
        OldestStep(profiles, i, today);
      }
      assert sumAges == SumYears(profiles[..i + 1], today) by {
        SumYearsStep(profiles, i, today);
      }
    }
    assert profiles[..|profiles|] == profiles;
  }

  /** Reading profile `i` bumps its group's count in the table. */
  lemma {:induction false} TallyStep(ps: seq<Profile>, i: nat)
    requires i < |ps|
    ensures var t := Tally(ps[..i]); var g := ps[i].bloodGroup;
            Tally(ps[..i + 1]) == t[g := CountOf(t, g) + 1]
  {
    assert ps[..i + 1][..i] == ps[..i];
  }

  /** Reading profile `i` appends its group to the key order when the table lacks it. */
  lemma {:induction false} FirstSeenStep(ps: seq<Profile>, i: nat)
    requires i < |ps|
    ensures var keys := FirstSeen(ps[..i]); var g := ps[i].bloodGroup;
            && (g in keys <==> g in Tally(ps[..i]))
            && FirstSeen(ps[..i + 1]) == if g in keys then keys else keys + [g]
  {
    assert ps[..i + 1][..i] == ps[..i];
    FirstSeenListsTally(ps[..i]);
  }

  /** Reading profile `i` replaces the tracked oldest person only when strictly older. */
  lemma {:induction false} OldestStep(ps: seq<Profile>, i: nat, today: int)
    requires i < |ps|
    ensures var o := OldestSoFar(ps[..i], today); var age := AgeDays(ps[i], today);
            OldestSoFar(ps[..i + 1], today) == if age > o.age then Tracker(age, Some(ps[i])) else o
  {
    assert ps[..i + 1][..i] == ps[..i];
  }

  /** Reading profile `i` adds its age in whole years to the sum. */
  lemma {:induction false} SumYearsStep(ps: seq<Profile>, i: nat, today: int)
    requires i < |ps|
    ensures SumYears(ps[..i + 1], today) == SumYears(ps[..i], today) + AgeYears(AgeDays(ps[i], today))
  {
    assert ps[..i + 1][..i] == ps[..i];
  }

  /**
   * `calc_data_using_namedtuple`: fails only on an empty input, and then
   * from `max`.
   */
  method CalcDataUsingNamedtuple(profiles: seq<Profile>, today: int) returns (r: Result<Summary>)
    ensures r == Summarize(profiles, today, NamedTuple)
    ensures r.Failure? <==> profiles == []
    ensures r.Failure? ==> r.error == MaxOfEmpty
  {
    VariantsAgree(profiles, today);
    r := Aggregate(profiles, today, NamedTuple);
  }

  /**
   * `calc_data_using_dictionary`: fails from `max` on an empty input, and
   * with KeyError('profile') when no profile has a positive age; otherwise
   * it returns what the named-tuple version returns.
   */
  method CalcDataUsingDictionary(profiles: seq<Profile>, today: int) returns (r: Result<Summary>)
    ensures r == Summarize(profiles, today, Dictionary)
    ensures profiles == [] ==> r == Failure(MaxOfEmpty)
    ensures profiles != [] && (forall i :: 0 <= i < |profiles| ==> AgeDays(profiles[i], today) <= 0) ==>
              r == Failure(MissingKey("profile"))
    ensures (exists i :: 0 <= i < |profiles| && AgeDays(profiles[i], today) > 0) ==>
              r.Success? && r == Summarize(profiles, today, NamedTuple)
  {
    VariantsAgree(profiles, today);
    r := Aggregate(profiles, today, Dictionary);
  }
}
