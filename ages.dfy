/**
 * The running sum `sum_ages` of whole years, and the two-step truncation of
 * the average age.
 */
module Ages {
  import opened Truncation
  import opened Profiles

  /** `sum_ages` after reading `ps`: the sum of every profile's `int(age / 365)`. */
  function SumYears(ps: seq<Profile>, today: int): (sum: int)
  {
    if ps == [] then 0 else SumYears(ps[..|ps| - 1], today) + AgeYears(AgeDays(ps[|ps| - 1], today))
  }

  /** When nobody is born after `today`, the sum of whole years is not negative. */
  lemma {:induction false} SumYearsNonNegative(ps: seq<Profile>, today: int)
    requires forall i :: 0 <= i < |ps| ==> 0 <= AgeDays(ps[i], today)
    ensures 0 <= SumYears(ps, today)
  {
    if ps != [] {
      var n := |ps| - 1;
      var a := ps[..n];
      assert forall i :: 0 <= i < n ==> a[i] == ps[i];
      SumYearsNonNegative(a, today);
      assert 0 <= AgeDays(ps[n], today);
    }
  }

  /** If no profile is older than `y` whole years, the sum is at most `|ps| * y`. */
  lemma {:induction false} SumYearsAtMost(ps: seq<Profile>, today: int, y: int)
    requires forall i :: 0 <= i < |ps| ==> AgeYears(AgeDays(ps[i], today)) <= y
    ensures SumYears(ps, today) <= |ps| * y
  {
    if ps != [] {
      var n := |ps| - 1;
      var a := ps[..n];
      assert forall i :: 0 <= i < n ==> a[i] == ps[i];
      SumYearsAtMost(a, today, y);
      var last := AgeYears(AgeDays(ps[n], today));
      assert last <= y;
      assert SumYears(ps, today) == SumYears(a, today) + last;
      ProductStep(n, y);
    }
  }

  lemma {:induction false} ProductStep(n: int, y: int)
    ensures (n + 1) * y == n * y + y
  {
  }

  /**
   * The average age `int(sum_ages / N)` is at most the oldest age in whole
   * years, `int(max_days / 365)`, whenever every age is at most `max_days`
   * and `max_days` is not negative.
   */
  lemma {:induction false} AverageAtMostOldest(ps: seq<Profile>, today: int, maxDays: int)
    requires |ps| > 0 && 0 <= maxDays
    requires forall i :: 0 <= i < |ps| ==> AgeDays(ps[i], today) <= maxDays
    ensures TruncDiv(SumYears(ps, today), |ps|) <= AgeYears(maxDays)
  {
    var y := AgeYears(maxDays);
    forall i | 0 <= i < |ps|
      ensures AgeYears(AgeDays(ps[i], today)) <= y
    {
      TruncDivMonotone(AgeDays(ps[i], today), maxDays, DaysPerYear);
    }
    SumYearsAtMost(ps, today, y);
    TruncDivMonotone(SumYears(ps, today), |ps| * y, |ps|);
    TruncDivMultiple(y, |ps|);
  }

  /** The total of the ages in days. */
  function SumDays(ps: seq<Profile>, today: int): int
  {
    if ps == [] then 0 else SumDays(ps[..|ps| - 1], today) + AgeDays(ps[|ps| - 1], today)
  }

  /** With no negative age, the sum of whole years is at most the whole years of the total. */
  lemma {:induction false} SumYearsAtMostYearsOfTotal(ps: seq<Profile>, today: int)
    requires forall i :: 0 <= i < |ps| ==> 0 <= AgeDays(ps[i], today)
    ensures 0 <= SumDays(ps, today)
    ensures SumYears(ps, today) <= AgeYears(SumDays(ps, today))
  {
    if ps != [] {
      var a := ps[..|ps| - 1];
      var last := AgeDays(ps[|ps| - 1], today);
      assert forall i :: 0 <= i < |a| ==> a[i] == ps[i];
      SumYearsAtMostYearsOfTotal(a, today);
      TruncDivAdd(SumDays(a, today), last, DaysPerYear);
    }
  }

  /**
   * The average age truncates twice, per profile and then over N: when no
   * age is negative it is at most the single-step figure, the mean age in
   * days `int(total / N)` truncated to whole years.
   */
  lemma {:induction false} AverageAtMostMeanAge(ps: seq<Profile>, today: int)
    requires |ps| > 0
    requires forall i :: 0 <= i < |ps| ==> 0 <= AgeDays(ps[i], today)
    ensures TruncDiv(SumYears(ps, today), |ps|) <= AgeYears(TruncDiv(SumDays(ps, today), |ps|))
  {
    var total := SumDays(ps, today);
    SumYearsAtMostYearsOfTotal(ps, today);
    TruncDivMonotone(SumYears(ps, today), AgeYears(total), |ps|);
    TruncDivTwice(total, DaysPerYear, |ps|);
    TruncDivTwice(total, |ps|, DaysPerYear);
    assert DaysPerYear * |ps| == |ps| * DaysPerYear;
  }
}
