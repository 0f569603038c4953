/**
 * The summary both aggregation functions return, as a function of the
 * profiles and of "today", and what it is proved to mean.
 */
module Summaries {
  import opened Outcomes
  import opened Truncation
  import opened Profiles
  import opened BloodGroups
  import opened Oldest
  import opened Ages

  /**
   * Which of the two aggregation functions: the one over named tuples, or
   * the one over dictionaries, whose tracker is created with the key
   * 'proflie' so that its 'profile' key exists only once a profile was recorded.
   */
  datatype Variant = NamedTuple | Dictionary

  /**
   * The returned record, minus the mean location:
   * (most frequent group, its count), (oldest profile, its age in whole years),
   * average age in whole years.
   */
  datatype Summary = Summary(
    largestBloodType: (BloodGroup, nat),
    oldestPerson: (Option<Profile>, int),
    averageAge: int)

  /** What one aggregation call returns, or the exception it raises. */
  function Summarize(ps: seq<Profile>, today: int, variant: Variant): (r: Result<Summary>)
    ensures ps == [] ==> r == Failure(MaxOfEmpty)
    ensures ps != [] ==>
              (r.Failure? <==> variant == Dictionary && OldestSoFar(ps, today).person.None?)
    ensures r.Failure? && ps != [] ==> r.error == MissingKey("profile")
    ensures r.Success? ==> r.value.largestBloodType.0 in Tally(ps)
  {
    TallyCounts(ps);
    var counts := Tally(ps);
    match MaxByCount(FirstSeen(ps), counts)
    case Failure(e) => Failure(e)
    case Success(bgL) =>
      var t := OldestSoFar(ps, today);
      if variant == Dictionary && t.person.None? then Failure(MissingKey("profile"))
      else Success(Summary((bgL, counts[bgL]), (t.person, AgeYears(t.age)), TruncDiv(SumYears(ps, today), |ps|)))
  }

  /**
   * The reported blood group is carried by some profile, its reported count
   * is its number of profiles, between 1 and N, and no group is more frequent.
   */
  lemma {:induction false} LargestBloodTypeIsMostFrequent(ps: seq<Profile>, today: int, variant: Variant)
    requires Summarize(ps, today, variant).Success?
    ensures var (g, c) := Summarize(ps, today, variant).value.largestBloodType;
            && c == Count(ps, g)
            && 1 <= c <= |ps|
            && (exists i :: 0 <= i < |ps| && ps[i].bloodGroup == g)
            && forall i :: 0 <= i < |ps| ==> Count(ps, ps[i].bloodGroup) <= c
  {
    TallyCounts(ps);
    var keys, counts := FirstSeen(ps), Tally(ps);
    var g := MaxByCount(keys, counts).value;
    CountBounds(ps, g);
    forall i | 0 <= i < |ps|
      ensures Count(ps, ps[i].bloodGroup) <= counts[g]
    {
      assert Groups(ps)[i] == ps[i].bloodGroup;
      assert ps[i].bloodGroup in keys;
      var q :| 0 <= q < |keys| && keys[q] == ps[i].bloodGroup;
    }
  }

  /**
   * Ties go to the group seen first: any group as frequent as the reported
   * one occurs, at each of its positions, no earlier than the reported group's
   * first occurrence.
   */
  lemma {:induction false} TiesGoToFirstSeen(ps: seq<Profile>, today: int, variant: Variant)
    requires Summarize(ps, today, variant).Success?
    ensures var g := Summarize(ps, today, variant).value.largestBloodType.0;
            forall i :: 0 <= i < |ps| && Count(ps, ps[i].bloodGroup) == Count(ps, g) ==>
              exists j :: 0 <= j <= i && ps[j].bloodGroup == g
  {
    TallyCounts(ps);
    FirstMaximumOccursFirst(ps, MaxByCount(FirstSeen(ps), Tally(ps)).value);
  }

  /**
   * The reported oldest person is the first profile of largest positive age,
   * reported with that age in whole years; when no age is positive it is
   * None with age 0.
   */
  lemma {:induction false} OldestPersonIsFirstOldest(ps: seq<Profile>, today: int, variant: Variant)
    requires Summarize(ps, today, variant).Success?
    ensures var o := Summarize(ps, today, variant).value.oldestPerson;
            && (o.0.None? ==> o.1 == 0 && forall i :: 0 <= i < |ps| ==> AgeDays(ps[i], today) <= 0)
            && (o.0.Some? ==>
                  exists i :: IsFirstOldest(ps, today, i) && 0 < AgeDays(ps[i], today)
                              && o == (Some(ps[i]), AgeYears(AgeDays(ps[i], today))))
  {
    OldestIsFirstMaximum(ps, today);
  }

  /**
   * The average age is the two-step truncation int(sum of int(age / 365) / N),
   * which is never above the reported oldest age in years.
   */
  lemma {:induction false} AverageAgeBounded(ps: seq<Profile>, today: int, variant: Variant)
    requires Summarize(ps, today, variant).Success?
    ensures var s := Summarize(ps, today, variant).value;
            && s.averageAge == TruncDiv(SumYears(ps, today), |ps|)
            && s.averageAge <= s.oldestPerson.1
  {
    var t := OldestSoFar(ps, today);
    OldestIsFirstMaximum(ps, today);
    AverageAtMostOldest(ps, today, t.age);
  }

  /**
   * The two variants agree whenever some profile has a positive age; when
   * none has, the dictionary variant raises KeyError('profile') while the
   * named-tuple variant reports no oldest person; with no profiles both
   * raise from `max` before any division.
   */
  lemma {:induction false} VariantsAgree(ps: seq<Profile>, today: int)
    ensures ps == [] ==>
              Summarize(ps, today, NamedTuple) == Summarize(ps, today, Dictionary) == Failure(MaxOfEmpty)
    ensures (exists i :: 0 <= i < |ps| && AgeDays(ps[i], today) > 0) ==>
              Summarize(ps, today, NamedTuple).Success?
              && Summarize(ps, today, NamedTuple) == Summarize(ps, today, Dictionary)
    ensures ps != [] && (forall i :: 0 <= i < |ps| ==> AgeDays(ps[i], today) <= 0) ==>
              && Summarize(ps, today, Dictionary) == Failure(MissingKey("profile"))
              && Summarize(ps, today, NamedTuple).Success?
              && Summarize(ps, today, NamedTuple).value.oldestPerson == (None, 0)
  {
    NoneTrackedIffNoPositiveAge(ps, today);
    OldestIsFirstMaximum(ps, today);
    if ps != [] {
      assert ps[0].bloodGroup in FirstSeen(ps) by {
        assert Groups(ps)[0] == ps[0].bloodGroup;
      }
    }
  }

  /** The profiles of the worked example below. */
  function ExampleProfiles(): seq<Profile>
  {
    [Profile(OPos, 36100), Profile(APos, 35700), Profile(OPos, 0)]
  }

  lemma {:induction false} ExampleTable()
    ensures FirstSeen(ExampleProfiles()) == [OPos, APos]
    ensures Tally(ExampleProfiles()) == map[OPos := 2, APos := 1]
  {
    var ps := ExampleProfiles();
    var p1, p2 := [Profile(OPos, 36100)], [Profile(OPos, 36100), Profile(APos, 35700)];
    assert ps[..2] == p2 && p2[..1] == p1 && p1[..0] == [];
    assert FirstSeen(p1) == [OPos] && FirstSeen(p2) == [OPos, APos];
    assert Tally(p1) == map[OPos := 1];
    assert Tally(p2) == map[OPos := 1, APos := 1];
  }

  lemma {:induction false} ExampleAges()
    ensures OldestSoFar(ExampleProfiles(), 36500) == Tracker(36500, Some(Profile(OPos, 0)))
    ensures SumYears(ExampleProfiles(), 36500) == 103
  {
    var ps := ExampleProfiles();
    var p1, p2 := [Profile(OPos, 36100)], [Profile(OPos, 36100), Profile(APos, 35700)];
    assert ps[..2] == p2 && p2[..1] == p1 && p1[..0] == [];
    assert OldestSoFar(p1, 36500) == Tracker(400, Some(Profile(OPos, 36100)));
    assert OldestSoFar(p2, 36500) == Tracker(800, Some(Profile(APos, 35700)));
    assert AgeYears(400) == 1 && AgeYears(800) == 2 && AgeYears(36500) == 100;
    assert SumYears(p1, 36500) == 1 && SumYears(p2, 36500) == 3;
  }

  /**
   * Three profiles of groups O+, A+, O+, aged 400, 800 and 36500 days:
   * O+ twice, the third profile is the oldest at 100 years, and the average
   * is int((1 + 2 + 100) / 3) = 34.
   */
  lemma {:induction false} ThreeProfileExample(variant: Variant)
    ensures Summarize(ExampleProfiles(), 36500, variant)
            == Success(Summary((OPos, 2), (Some(Profile(OPos, 0)), 100), 34))
  {
    ExampleTable();
    ExampleAges();
    assert MaxByCount([OPos, APos], map[OPos := 2, APos := 1]) == Success(OPos) by {
      assert [OPos, APos][..1] == [OPos];
    }
    assert AgeYears(36500) == 100;
    assert TruncDiv(103, 3) == 34;
  }
}
