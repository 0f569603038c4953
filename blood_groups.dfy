/**
 * The blood-group frequency table `blood_gp` and the choice of the most
 * frequent group, `max(blood_gp, key=blood_gp.get)`.
 *
 * A Python dict remembers the order in which its keys were first inserted,
 * and `max` walks the keys in that order, so the table is modelled as a map
 * (`Tally`) together with its key order (`FirstSeen`).
 */
module BloodGroups {
  import opened Outcomes
  import opened Profiles

  /** The count the table holds for `k`, or 0 when `k` is not a key. */
  function CountOf(counts: map<BloodGroup, nat>, k: BloodGroup): nat
  {
    if k in counts then counts[k] else 0
  }

  /** The frequency table after reading `ps`, one `blood_gp[g] = blood_gp.get(g, 0) + 1` per profile. */
  function Tally(ps: seq<Profile>): (t: map<BloodGroup, nat>)
  {
    if ps == [] then map[]
    else
      var t := Tally(ps[..|ps| - 1]);
      var g := ps[|ps| - 1].bloodGroup;
      t[g := CountOf(t, g) + 1]
  }

  /** The table holds exactly the groups that occur, each with its number of profiles. */
  lemma {:induction false} TallyCounts(ps: seq<Profile>)
    ensures forall g :: g in Tally(ps) <==> g in Groups(ps)
    ensures forall g :: g in Tally(ps) ==> Tally(ps)[g] == Count(ps, g)
  {
    if ps != [] {
      var a := ps[..|ps| - 1];
      var p := ps[|ps| - 1];
      TallyCounts(a);
      assert Groups(ps) == Groups(a) + [p.bloodGroup];
      forall g | g in Tally(ps)
        ensures Tally(ps)[g] == Count(ps, g)
      {
        assert multiset(Groups(ps))[g] == multiset(Groups(a))[g] + (if g == p.bloodGroup then 1 else 0);
      }
    }
  }

  /** The keys of the table in insertion order: each group once, where it first occurs. */
  function FirstSeen(ps: seq<Profile>): (keys: seq<BloodGroup>)
    ensures forall g :: g in keys <==> g in Groups(ps)
    ensures forall i, j :: 0 <= i < j < |keys| ==> keys[i] != keys[j]
  {
    if ps == [] then []
    else
      var keys := FirstSeen(ps[..|ps| - 1]);
      var g := ps[|ps| - 1].bloodGroup;
      if g in keys then keys else keys + [g]
  }

  /** Reading more profiles only appends keys: the earlier key order is a prefix of the later one. */
  lemma {:induction false} FirstSeenGrows(ps: seq<Profile>, k: nat)
    requires k <= |ps|
    ensures FirstSeen(ps[..k]) <= FirstSeen(ps)
    decreases |ps|
  {
    if k < |ps| {
      var a := ps[..|ps| - 1];
      assert a[..k] == ps[..k];
      FirstSeenGrows(a, k);
    } else {
      assert ps[..k] == ps;
    }
  }

  /**
   * Insertion order is order of first occurrence: a key placed no later than
   * the key of profile `i` occurs at or before position `i`.
   */
  lemma {:induction false} FirstSeenOrder(ps: seq<Profile>, p: nat, q: nat, i: nat)
    requires p <= q < |FirstSeen(ps)| && i < |ps|
    requires FirstSeen(ps)[q] == ps[i].bloodGroup
    ensures exists j :: 0 <= j <= i && ps[j].bloodGroup == FirstSeen(ps)[p]
    decreases |ps|
  {
    var g := FirstSeen(ps)[p];
    var n := |ps| - 1;
    if i == n {
      assert g in Groups(ps);
      var j :| 0 <= j < |ps| && Groups(ps)[j] == g;
      assert ps[j].bloodGroup == g;
    } else {
      var a := ps[..n];
      assert a[i] == ps[i];
      assert Groups(a)[i] == ps[i].bloodGroup;
      var keys := FirstSeen(a);
      assert ps[i].bloodGroup in keys;
      assert q < |keys|;
      FirstSeenOrder(a, p, q, i);
      var j :| 0 <= j <= i && a[j].bloodGroup == keys[p];
      assert ps[j].bloodGroup == g;
    }
  }

  /** The key order lists exactly the keys of the table. */
  lemma {:induction false} FirstSeenListsTally(ps: seq<Profile>)
    ensures forall g :: g in FirstSeen(ps) <==> g in Tally(ps)
  {
    TallyCounts(ps);
  }

  /** The sum of the table's counts over the given keys. */
  function SumOver(keys: seq<BloodGroup>, counts: map<BloodGroup, nat>): int
  {
    if keys == [] then 0 else SumOver(keys[..|keys| - 1], counts) + CountOf(counts, keys[|keys| - 1])
  }

  lemma {:induction false} SumOverIgnores(keys: seq<BloodGroup>, counts: map<BloodGroup, nat>, g: BloodGroup, v: nat)
    requires g !in keys
    ensures SumOver(keys, counts[g := v]) == SumOver(keys, counts)
  {
    if keys != [] {
      SumOverIgnores(keys[..|keys| - 1], counts, g, v);
    }
  }

  lemma {:induction false} SumOverBump(keys: seq<BloodGroup>, counts: map<BloodGroup, nat>, g: BloodGroup)
    requires forall i, j :: 0 <= i < j < |keys| ==> keys[i] != keys[j]
    requires g in keys
    ensures SumOver(keys, counts[g := CountOf(counts, g) + 1]) == SumOver(keys, counts) + 1
  {
    var a := keys[..|keys| - 1];
    if keys[|keys| - 1] == g {
      SumOverIgnores(a, counts, g, CountOf(counts, g) + 1);
    } else {
      SumOverBump(a, counts, g);
    }
  }

  /** The counts of the table add up to the number of profiles read. */
  lemma {:induction false} CountsSumToLength(ps: seq<Profile>)
    ensures forall g :: g in FirstSeen(ps) ==> g in Tally(ps)
    ensures SumOver(FirstSeen(ps), Tally(ps)) == |ps|
  {
    if ps != [] {
      CountsSumToLength(ps[..|ps| - 1]);
      CountsSumStep(ps);
    }
    assert forall g :: g in FirstSeen(ps) ==> g in Tally(ps) by {
      FirstSeenListsTally(ps);
    }
  }

  /** Reading the last profile of `ps` adds one to the sum of the counts. */
  lemma {:induction false} CountsSumStep(ps: seq<Profile>)
    requires ps != []
    ensures SumOver(FirstSeen(ps), Tally(ps)) == SumOver(FirstSeen(ps[..|ps| - 1]), Tally(ps[..|ps| - 1])) + 1
  {
    var a := ps[..|ps| - 1];
    var keys, t, g := FirstSeen(a), Tally(a), ps[|ps| - 1].bloodGroup;
    assert g in t ==> g in keys by {
      FirstSeenListsTally(a);
    }
    assert FirstSeen(ps) == if g in keys then keys else keys + [g];
    assert Tally(ps) == t[g := CountOf(t, g) + 1];
    SumAfterRead(keys, t, g);
  }

  /** Recording one more occurrence of `g` adds one to the sum of the counts. */
  lemma {:induction false} SumAfterRead(keys: seq<BloodGroup>, t: map<BloodGroup, nat>, g: BloodGroup)
    requires g in t ==> g in keys
    requires forall i, j :: 0 <= i < j < |keys| ==> keys[i] != keys[j]
    ensures SumOver(if g in keys then keys else keys + [g], t[g := CountOf(t, g) + 1]) == SumOver(keys, t) + 1
  {
    if g in keys {
      SumOverBump(keys, t, g);
    } else {
      var u := t[g := 1];
      assert SumOver(keys + [g], u) == SumOver(keys, u) + 1 by {
        assert (keys + [g])[..|keys|] == keys;
      }
      SumOverIgnores(keys, t, g, 1);
    }
  }

  /**
   * `max` walks `keys` in order and keeps the first key whose count is
   * largest: `k` is such a key.
   */
  ghost predicate IsFirstMaximum(keys: seq<BloodGroup>, counts: map<BloodGroup, nat>, k: BloodGroup)
    requires forall k :: k in keys ==> k in counts
  {
    exists p :: 0 <= p < |keys| && keys[p] == k
      && (forall q :: 0 <= q < |keys| ==> counts[keys[q]] <= counts[k])
      && (forall q :: 0 <= q < p ==> counts[keys[q]] < counts[k])
  }

  /**
   * `max(keys, key=counts.get)`: the first key of largest count, replaced
   * only by a strictly larger count; an empty `keys` raises.
   */
  function MaxByCount(keys: seq<BloodGroup>, counts: map<BloodGroup, nat>): (r: Result<BloodGroup>)
    requires forall k :: k in keys ==> k in counts
    ensures r.Failure? <==> keys == []
    ensures r.Failure? ==> r.error == MaxOfEmpty
    ensures r.Success? ==> IsFirstMaximum(keys, counts, r.value)
  {
    if keys == [] then Failure(MaxOfEmpty)
    else if |keys| == 1 then Success(keys[0])
    else
      var a := keys[..|keys| - 1];
      var best := MaxByCount(a, counts).value;
      var k := keys[|keys| - 1];
      assert keys == a + [k];
      FirstMaximumAppend(a, k, counts, best);
      if counts[k] > counts[best] then Success(k) else Success(best)
  }

  /** Appending one key keeps the first maximum unless the new key's count is strictly larger. */
  lemma {:induction false} FirstMaximumAppend(a: seq<BloodGroup>, k: BloodGroup, counts: map<BloodGroup, nat>, best: BloodGroup)
    requires forall x :: x in a + [k] ==> x in counts
    requires IsFirstMaximum(a, counts, best)
    ensures best in counts
    ensures counts[k] > counts[best] ==> IsFirstMaximum(a + [k], counts, k)
    ensures counts[k] <= counts[best] ==> IsFirstMaximum(a + [k], counts, best)
  {
    var keys := a + [k];
    var p :| 0 <= p < |a| && a[p] == best
             && (forall q :: 0 <= q < |a| ==> counts[a[q]] <= counts[best])
             && (forall q :: 0 <= q < p ==> counts[a[q]] < counts[best]);
    assert forall q :: 0 <= q < |a| ==> keys[q] == a[q];
    if counts[k] > counts[best] {
      assert keys[|a|] == k;
    } else {
      assert keys[p] == best;
    }
  }

  /**
   * The first key of largest count in insertion order is, among the groups
   * of that count, the one whose first occurrence comes first.
   */
  lemma {:induction false} FirstMaximumOccursFirst(ps: seq<Profile>, g: BloodGroup)
    requires forall k :: k in FirstSeen(ps) ==> k in Tally(ps)
    requires IsFirstMaximum(FirstSeen(ps), Tally(ps), g)
    ensures forall i :: 0 <= i < |ps| && Count(ps, ps[i].bloodGroup) == Count(ps, g) ==>
              exists j :: 0 <= j <= i && ps[j].bloodGroup == g
  {
    var keys, counts := FirstSeen(ps), Tally(ps);
    var p :| 0 <= p < |keys| && keys[p] == g
             && (forall q :: 0 <= q < |keys| ==> counts[keys[q]] <= counts[g])
             && (forall q :: 0 <= q < p ==> counts[keys[q]] < counts[g]);
    forall i | 0 <= i < |ps| && Count(ps, ps[i].bloodGroup) == Count(ps, g)
      ensures exists j :: 0 <= j <= i && ps[j].bloodGroup == g
    {
      var h := ps[i].bloodGroup;
      assert h in keys by {
        assert Groups(ps)[i] == h;
      }
      var q :| 0 <= q < |keys| && keys[q] == h;
      assert p <= q by {
        TallyCounts(ps);
      }
      FirstSeenOrder(ps, p, q, i);
    }
  }
}
