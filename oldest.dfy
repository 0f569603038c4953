/**
 * The running oldest-person tracker `max_age`: it starts at age 0 with no
 * profile, and a profile replaces the tracked one only when its age in days
 * is strictly greater.
 */
module Oldest {
  import opened Outcomes
  import opened Profiles

  /** `max_age['age']` and `max_age['profile']` (None while no profile was recorded). */
  datatype Tracker = Tracker(age: int, person: Option<Profile>)

  /** The tracker after reading `ps` in order. */
  function OldestSoFar(ps: seq<Profile>, today: int): (t: Tracker)
    ensures 0 <= t.age
    ensures t.person.None? <==> t.age == 0
    ensures t.person.Some? ==> t.person.value in ps && t.age == AgeDays(t.person.value, today)
  {
    if ps == [] then Tracker(0, None)
    else
      var t := OldestSoFar(ps[..|ps| - 1], today);
      var p := ps[|ps| - 1];
      if AgeDays(p, today) > t.age then Tracker(AgeDays(p, today), Some(p)) else t
  }

  /** Profile `i` is at least as old as every profile and strictly older than every earlier one. */
  ghost predicate IsFirstOldest(ps: seq<Profile>, today: int, i: int)
  {
    && 0 <= i < |ps|
    && (forall j :: 0 <= j < |ps| ==> AgeDays(ps[j], today) <= AgeDays(ps[i], today))
    && (forall j :: 0 <= j < i ==> AgeDays(ps[j], today) < AgeDays(ps[i], today))
  }

  /**
   * The tracked age is the largest of 0 and every age in days; a profile is
   * recorded exactly when some age is positive, and then it is the first
   * profile, in input order, of largest age.
   */
  lemma {:induction false} OldestIsFirstMaximum(ps: seq<Profile>, today: int)
    ensures var t := OldestSoFar(ps, today);
            && 0 <= t.age
            && (forall i :: 0 <= i < |ps| ==> AgeDays(ps[i], today) <= t.age)
            && (t.person.None? <==> t.age == 0)
            && (t.person.Some? ==>
                  exists i :: IsFirstOldest(ps, today, i) && t.person == Some(ps[i]) && t.age == AgeDays(ps[i], today))
  {
    if ps != [] {
      var n := |ps| - 1;
      var a := ps[..n];
      var p := ps[n];
      OldestIsFirstMaximum(a, today);
      var t := OldestSoFar(a, today);
      assert forall j :: 0 <= j < n ==> a[j] == ps[j];
      if AgeDays(p, today) > t.age {
        assert IsFirstOldest(ps, today, n);
      } else if t.person.Some? {
        var i :| IsFirstOldest(a, today, i) && t.person == Some(a[i]) && t.age == AgeDays(a[i], today);
        assert IsFirstOldest(ps, today, i);
      }
    }
  }

  /** No profile is tracked exactly when no age in days is positive. */
  lemma {:induction false} NoneTrackedIffNoPositiveAge(ps: seq<Profile>, today: int)
    ensures OldestSoFar(ps, today).person.None? <==> forall i :: 0 <= i < |ps| ==> AgeDays(ps[i], today) <= 0
  {
    OldestIsFirstMaximum(ps, today);
    var t := OldestSoFar(ps, today);
    if t.person.Some? {
      var i :| IsFirstOldest(ps, today, i) && t.person == Some(ps[i]) && t.age == AgeDays(ps[i], today);
    }
  }
}
