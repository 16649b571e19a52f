/** Rounding fractional shares to whole units under caps, largest remainder first. */
module Rounding {
  import opened Arithmetic

  function Sum(s: seq<int>): int {
    if s == [] then 0 else Sum(s[..|s| - 1]) + s[|s| - 1]
  }

  function SumReal(s: seq<real>): real {
    if s == [] then 0.0 else SumReal(s[..|s| - 1]) + s[|s| - 1]
  }

  lemma {:induction false} SumUpdate(s: seq<int>, i: nat, v: int)
    requires i < |s|
    ensures Sum(s[i := v]) == Sum(s) - s[i] + v
  {
    var n := |s| - 1;
    if i == n {
      assert s[i := v][..n] == s[..n];
    } else {
      SumUpdate(s[..n], i, v);
      assert s[i := v][..n] == s[..n][i := v];
    }
  }

  lemma {:induction false} SumAtMost(a: seq<int>, b: seq<int>)
    requires |a| == |b| && forall i :: 0 <= i < |a| ==> a[i] <= b[i]
    ensures Sum(a) <= Sum(b)
  {
    if a != [] {
      SumAtMost(a[..|a| - 1], b[..|b| - 1]);
    }
  }

  // --- the order of the remainders --------------------------------------------

  function Fraction(x: real): real {
    x - Trunc(x) as real
  }

  /** i is rounded up before j: the larger remainder, or the same one and listed first. */
  predicate Before(shares: seq<real>, i: int, j: int)
    requires 0 <= i < |shares| && 0 <= j < |shares|
  {
    Fraction(shares[i]) > Fraction(shares[j]) || (Fraction(shares[i]) == Fraction(shares[j]) && i < j)
  }

  /** Some indices of `shares`, each once, in the order they are rounded up. */
  ghost predicate Ordered(shares: seq<real>, order: seq<int>) {
    && (forall q :: 0 <= q < |order| ==> 0 <= order[q] < |shares|)
    && (forall p, q :: 0 <= p < q < |order| ==> Before(shares, order[p], order[q]))
  }

  /** A stable sort by descending remainder. */
  method SortByFraction(shares: seq<real>) returns (order: seq<int>)
    ensures Ordered(shares, order) && |order| == |shares|
    ensures forall i :: 0 <= i < |shares| ==> i in order
  {
    order := [];
    var i := 0;
    while i < |shares|
      invariant 0 <= i <= |shares| && |order| == i && Ordered(shares, order)
      invariant forall j :: j in order <==> 0 <= j < i
    {
      var k := |order|;
      while k > 0 && Fraction(shares[order[k - 1]]) < Fraction(shares[i])
        invariant 0 <= k <= |order|
        invariant forall q :: k <= q < |order| ==> Before(shares, i, order[q])
      {
        k := k - 1;
      }
      forall q | 0 <= q < k ensures Before(shares, order[q], i) {
        assert order[q] in order && (q < k - 1 ==> Before(shares, order[q], order[k - 1]));
        assert order[k - 1] in order;
      }
      Inserted(shares, order, i, k);
      order := order[..k] + [i] + order[k..];
      i := i + 1;
    }
  }

  lemma Inserted(shares: seq<real>, order: seq<int>, i: int, k: nat)
    requires Ordered(shares, order) && 0 <= i < |shares| && k <= |order|
    requires forall q :: 0 <= q < k ==> Before(shares, order[q], i)
    requires forall q :: k <= q < |order| ==> Before(shares, i, order[q])
    ensures Ordered(shares, order[..k] + [i] + order[k..])
    ensures forall j :: j in order[..k] + [i] + order[k..] <==> j in order || j == i
  {
    var longer := order[..k] + [i] + order[k..];
    assert order == order[..k] + order[k..];
  }

  // --- rounding ---------------------------------------------------------------

  /** Where the rounding starts: every share's whole part, within its cap. */
  function Whole(shares: seq<real>, caps: seq<int>): (base: seq<int>)
    requires |shares| == |caps|
    ensures |base| == |shares|
  {
    seq(|shares|, i requires 0 <= i < |shares| => Min(Trunc(shares[i]), caps[i]))
  }

  /** Units go round in order, one to everyone who is below cap, `level` whole times and once more
      to the first k. */
  ghost predicate Level(counts: seq<int>, base: seq<int>, caps: seq<int>, order: seq<int>, k: int, level: int)
    requires |counts| == |base| == |caps| == |order|
    requires forall q :: 0 <= q < |order| ==> 0 <= order[q] < |counts|
  {
    forall q :: 0 <= q < |order| ==> AtLevel(counts, base, caps, order[q], if q < k then level + 1 else level)
  }

  ghost predicate AtLevel(counts: seq<int>, base: seq<int>, caps: seq<int>, i: int, level: int)
    requires |counts| == |base| == |caps| && 0 <= i < |counts|
  {
    && base[i] <= counts[i] <= caps[i] && counts[i] - base[i] <= level
    && (counts[i] < caps[i] ==> counts[i] - base[i] == level)
  }

  /** Nobody below cap is more than one unit behind anybody, nor at all behind one that comes later
      in the order. */
  ghost predicate Fair(shares: seq<real>, counts: seq<int>, base: seq<int>, caps: seq<int>)
    requires |shares| == |counts| == |base| == |caps|
  {
    forall i, j :: 0 <= i < |counts| && 0 <= j < |counts| && i != j && counts[i] < caps[i] ==>
      counts[j] - base[j] <= counts[i] - base[i] + (if Before(shares, i, j) then 0 else 1)
  }

  lemma LevelIsFair(shares: seq<real>, counts: seq<int>, base: seq<int>, caps: seq<int>, order: seq<int>, k: int, level: int)
    requires |shares| == |counts| == |base| == |caps| == |order| && Ordered(shares, order)
    requires forall i :: 0 <= i < |shares| ==> i in order
    requires Level(counts, base, caps, order, k, level)
    ensures Fair(shares, counts, base, caps)
    ensures forall i :: 0 <= i < |counts| ==> base[i] <= counts[i] <= caps[i]
  {
    forall i, j | 0 <= i < |counts| && 0 <= j < |counts| && i != j && counts[i] < caps[i]
      ensures counts[j] - base[j] <= counts[i] - base[i] + (if Before(shares, i, j) then 0 else 1)
    {
      assert i in order && j in order;
      var p :| 0 <= p < |order| && order[p] == i;
      var q :| 0 <= q < |order| && order[q] == j;
      assert AtLevel(counts, base, caps, order[p], if p < k then level + 1 else level);
      assert AtLevel(counts, base, caps, order[q], if q < k then level + 1 else level);
      if q < p {
        assert Before(shares, j, i);
      }
    }
    forall i | 0 <= i < |counts| ensures base[i] <= counts[i] <= caps[i] {
      assert i in order;
      var p :| 0 <= p < |order| && order[p] == i;
      assert AtLevel(counts, base, caps, order[p], if p < k then level + 1 else level);
    }
  }

  lemma NextAtLevel(counts: seq<int>, base: seq<int>, caps: seq<int>, order: seq<int>, k: nat, level: int)
    requires |counts| == |base| == |caps| == |order| && k < |order|
    requires forall q :: 0 <= q < |order| ==> 0 <= order[q] < |counts|
    requires forall p, q :: 0 <= p < q < |order| ==> order[p] != order[q]
    requires Level(counts, base, caps, order, k, level)
    ensures var i := order[k];
            Level(if counts[i] < caps[i] then counts[i := counts[i] + 1] else counts, base, caps, order, k + 1, level)
  {
    var i := order[k];
    var counts' := if counts[i] < caps[i] then counts[i := counts[i] + 1] else counts;
    assert AtLevel(counts, base, caps, order[k], level);
    forall q | 0 <= q < |order| ensures AtLevel(counts', base, caps, order[q], if q < k + 1 then level + 1 else level) {
      assert AtLevel(counts, base, caps, order[q], if q < k then level + 1 else level);
    }
  }

  lemma OrderedOnce(shares: seq<real>, order: seq<int>)
    requires Ordered(shares, order)
    ensures forall p, q :: 0 <= p < q < |order| ==> order[p] != order[q]
  {
    forall p, q | 0 <= p < q < |order| ensures order[p] != order[q] {
      assert Before(shares, order[p], order[q]);
    }
  }

  /** A whole round that moved nothing found everyone at cap. */
  lemma AllAtCaps(shares: seq<real>, counts: seq<int>, base: seq<int>, caps: seq<int>, order: seq<int>, level: int)
    requires |shares| == |counts| == |base| == |caps| == |order| && Ordered(shares, order)
    requires forall i :: 0 <= i < |shares| ==> i in order
    requires Level(counts, base, caps, order, 0, level) && Level(counts, base, caps, order, |order|, level)
    ensures counts == caps
  {
    forall i | 0 <= i < |counts| ensures counts[i] == caps[i] {
      assert i in order;
      var p :| 0 <= p < |order| && order[p] == i;
      assert AtLevel(counts, base, caps, order[p], level) && AtLevel(counts, base, caps, order[p], level + 1);
    }
  }

  lemma NextLevel(counts: seq<int>, base: seq<int>, caps: seq<int>, order: seq<int>, level: int)
    requires |counts| == |base| == |caps| == |order|
    requires forall q :: 0 <= q < |order| ==> 0 <= order[q] < |counts|
    requires Level(counts, base, caps, order, |order|, level)
    ensures Level(counts, base, caps, order, 0, level + 1)
  {
    forall q | 0 <= q < |order| ensures AtLevel(counts, base, caps, order[q], level + 1) {
      assert AtLevel(counts, base, caps, order[q], if q < |order| then level + 1 else level);
    }
  }

  lemma StartLevel(base: seq<int>, caps: seq<int>, order: seq<int>)
    requires |base| == |caps| == |order|
    requires forall q :: 0 <= q < |order| ==> 0 <= order[q] < |base|
    requires forall i :: 0 <= i < |base| ==> base[i] <= caps[i]
    ensures Level(base, base, caps, order, 0, 0)
  {
  }

  /** One unit to everyone below cap, in order, until the target is met. */
  method Round(caps: seq<int>, target: int, order: seq<int>, before: seq<int>, ghost base: seq<int>, ghost level: int)
    returns (counts: seq<int>, moved: bool, ghost k: nat)
    requires |before| == |base| == |caps| == |order| && Sum(before) < target
    requires forall q :: 0 <= q < |order| ==> 0 <= order[q] < |before|
    requires forall p, q :: 0 <= p < q < |order| ==> order[p] != order[q]
    requires Level(before, base, caps, order, 0, level)
    ensures |counts| == |before| && k <= |order| && Level(counts, base, caps, order, k, level)
    ensures Sum(before) <= Sum(counts) <= target && (moved <==> Sum(counts) > Sum(before))
    ensures !moved ==> counts == before && k == |order|
    ensures k < |order| ==> Sum(counts) == target
  {
    hide Sum, Level;
    counts, moved, k := before, false, 0;
    var position := 0;
    while position < |order|
      invariant k == position <= |order| && |counts| == |before| && Level(counts, base, caps, order, k, level)
      invariant Sum(before) <= Sum(counts) <= target && (moved <==> Sum(counts) > Sum(before))
      invariant !moved ==> counts == before
    {
      if Sum(counts) >= target {
        return;
      }
      NextAtLevel(counts, base, caps, order, k, level);
      var i := order[position];
      if counts[i] < caps[i] {
        SumUpdate(counts, i, counts[i] + 1);
        counts := counts[i := counts[i] + 1];
        moved := true;
      }
      position, k := position + 1, k + 1;
    }
  }

  /** Round shares to whole units. The total is exactly the target whenever the caps allow and the
      whole parts do not already exceed it. */
  method LargestRemainder(shares: seq<real>, caps: seq<int>, target: int) returns (counts: seq<int>)
    requires |shares| == |caps|
    ensures |counts| == |shares|
    ensures forall i :: 0 <= i < |counts| ==> Whole(shares, caps)[i] <= counts[i] <= caps[i]
    ensures var started := Sum(Whole(shares, caps));
            Sum(counts) == if started >= target then started else Min(target, Sum(caps))
    ensures Fair(shares, counts, Whole(shares, caps), caps)
  {
    ghost var base := Whole(shares, caps);
    counts := seq(|shares|, i requires 0 <= i < |shares| => Min(Trunc(shares[i]), caps[i]));
    assert forall i :: 0 <= i < |base| ==> base[i] <= caps[i];
    var order := SortByFraction(shares);
    hide Sum, Whole, Level, Fair, Ordered, Before;
    assert forall q :: 0 <= q < |order| ==> 0 <= order[q] < |shares| by { OrderRange(shares, order); }
    OrderedOnce(shares, order);
    StartLevel(base, caps, order);
    ghost var level, k := 0, 0;
    var moved := true;
    while Sum(counts) < target && moved
      invariant |counts| == |shares| && 0 <= k <= |order| && Level(counts, base, caps, order, k, level)
      invariant moved && Sum(counts) < target ==> k == 0
      invariant !moved ==> counts == caps && Sum(base) < target
      invariant if Sum(base) < target then Sum(counts) <= target else counts == base
      decreases moved, target - Sum(counts)
    {
      counts, moved, k := Round(caps, target, order, counts, base, level);
      if !moved {
        AllAtCaps(shares, counts, base, caps, order, level);
      }
      if k == |order| {
        NextLevel(counts, base, caps, order, level);
        level, k := level + 1, 0;
      }
    }
    LevelIsFair(shares, counts, base, caps, order, k, level);
    SumAtMost(counts, caps);
  }

  lemma OrderRange(shares: seq<real>, order: seq<int>)
    requires Ordered(shares, order)
    ensures forall q :: 0 <= q < |order| ==> 0 <= order[q] < |shares|
  {
  }

  // --- what fair means ------------------------------------------------------------

  /** Of two shares, the one with the larger part behind the point is rounded up first, and of equal ones
      the one listed first: unless it is at its cap, it has got no fewer extra units than the other. */
  lemma LargestFirst(shares: seq<real>, counts: seq<int>, caps: seq<int>, i: nat, j: nat)
    requires |shares| == |counts| == |caps| && Fair(shares, counts, Whole(shares, caps), caps)
    requires i < |shares| && j < |shares| && i != j && counts[i] < caps[i] && shares[i] >= 0.0 && shares[j] >= 0.0
    ensures var x, y := shares[i] - shares[i].Floor as real, shares[j] - shares[j].Floor as real;
            var base, other := if shares[i].Floor <= caps[i] then shares[i].Floor else caps[i],
                               if shares[j].Floor <= caps[j] then shares[j].Floor else caps[j];
            && counts[j] - other <= counts[i] - base + 1
            && (x > y || (x == y && i < j) ==> counts[j] - other <= counts[i] - base)
  {
    assert Before(shares, i, j) || !Before(shares, i, j);
  }

  /** The quota rule: where no cap stands in the way, whole units that add up to the shares are each within one
      of their share. */
  lemma QuotaRule(shares: seq<real>, counts: seq<int>, caps: seq<int>, i: nat)
    requires |shares| == |counts| == |caps| && Fair(shares, counts, Whole(shares, caps), caps) && i < |shares|
    requires forall k :: 0 <= k < |shares| ==> shares[k] >= 0.0 && Whole(shares, caps)[k] <= counts[k] < caps[k]
    requires Sum(counts) as real == SumReal(shares)
    ensures shares[i] - 1.0 < counts[i] as real <= shares[i] + 1.0
  {
    var base := Whole(shares, caps);
    if counts[i] > base[i] + 1 {
      forall k | 0 <= k < |shares| ensures counts[k] as real >= shares[k] && (k == i ==> counts[k] as real > shares[k]) {
        if k != i {
          assert counts[i] - base[i] <= counts[k] - base[k] + if Before(shares, k, i) then 0 else 1;
        }
      }
      SumAbove(shares, counts, i);
    }
  }

  lemma {:induction false} SumAbove(shares: seq<real>, counts: seq<int>, i: int)
    requires |shares| == |counts| && forall k :: 0 <= k < |shares| ==> counts[k] as real >= shares[k]
    ensures Sum(counts) as real >= SumReal(shares)
    ensures 0 <= i < |shares| && counts[i] as real > shares[i] ==> Sum(counts) as real > SumReal(shares)
  {
    if shares != [] {
      var n := |shares| - 1;
      SumAbove(shares[..n], counts[..n], i);
      assert 0 <= i < n ==> shares[..n][i] == shares[i] && counts[..n][i] == counts[i];
    }
  }
}
