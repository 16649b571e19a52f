/** The free pool: an interval list edited in place, standing for a set of positions. */
module FreePool {
  import opened Intervals

  // --- library searches -------------------------------------------------------

  method BisectLeft(a: seq<int>, x: int) returns (k: nat)
    requires forall i, j :: 0 <= i < j < |a| ==> a[i] < a[j]
    ensures k <= |a|
    ensures forall i :: 0 <= i < k ==> a[i] < x
    ensures forall i :: k <= i < |a| ==> x <= a[i]
  {
    var low, high := 0, |a|;
    while low < high
      invariant 0 <= low <= high <= |a|
      invariant forall i :: 0 <= i < low ==> a[i] < x
      invariant forall i :: high <= i < |a| ==> x <= a[i]
    {
      var middle := (low + high) / 2;
      if a[middle] < x { low := middle + 1; } else { high := middle; }
    }
    k := low;
  }

  method BisectRight(a: seq<int>, x: int) returns (k: nat)
    requires forall i, j :: 0 <= i < j < |a| ==> a[i] < a[j]
    ensures k <= |a|
    ensures forall i :: 0 <= i < k ==> a[i] <= x
    ensures forall i :: k <= i < |a| ==> x < a[i]
  {
    var low, high := 0, |a|;
    while low < high
      invariant 0 <= low <= high <= |a|
      invariant forall i :: 0 <= i < low ==> a[i] <= x
      invariant forall i :: high <= i < |a| ==> x < a[i]
    {
      var middle := (low + high) / 2;
      if x < a[middle] { high := middle; } else { low := middle + 1; }
    }
    k := low;
  }

  class IntervalSet {
    var starts: seq<int>
    var ends: seq<int>
    var total: int

    ghost predicate Valid()
      reads this
    {
      Canonical(starts, ends) && total == |Blocks(starts, ends)|
    }

    ghost function Contents(): set<int>
      requires Valid()
      reads this
    {
      Blocks(starts, ends)
    }

    constructor ()
      ensures Valid() && Contents() == {}
    {
      starts, ends, total := [], [], 0;
    }

    // --- list edits -------------------------------------------------------------

    method DeleteAt(i: nat)
      requires i < |starts| == |ends|
      modifies this`starts, this`ends
      ensures starts == Replace(old(starts), i, i + 1, []) && ends == Replace(old(ends), i, i + 1, [])
    {
      starts, ends := starts[..i] + starts[i + 1..], ends[..i] + ends[i + 1..];
    }

    method InsertAt(i: nat, los: seq<int>, his: seq<int>)
      requires i <= |starts| == |ends|
      modifies this`starts, this`ends
      ensures starts == Replace(old(starts), i, i, los) && ends == Replace(old(ends), i, i, his)
    {
      starts, ends := starts[..i] + los + starts[i..], ends[..i] + his + ends[i..];
    }

    // --- adding -----------------------------------------------------------------

    /** Insert [first, last), merging into neighbours. Raises when any of it is already
        free, which leaves the pool unusable. */
    method Add(first: int, last: int) returns (raised: bool)
      requires Valid()
      modifies this
      ensures raised <==> !(old(Contents()) !! Range(first, last))
      ensures !raised ==> Valid() && Contents() == old(Contents()) + Range(first, last)
      ensures raised ==> !Valid()
    {
      hide Merging, Replace, Blocks, InRuns, Range;
      if last <= first {
        NothingBetween(first, last);
        return false;
      }
      ListsMatch(starts, ends);
      var added := last - first;
      ghost var s0, e0 := starts, ends;
      ghost var b: nat;
      var i, start, end, removed;
      i, start, end, removed, b := AbsorbNeighbours(first, last);
      var merged := end - start;
      MergedOverlap(s0, e0, i, b, first, last, start, end, removed);
      if merged < removed + added {
        LostRuns(s0, e0, i, b);
        return true;
      }
      MergedSet(s0, e0, i, b, first, last, start, end, removed);
      InsertAt(i, [start], [end]);
      ReplaceInsert(s0, i, b, [start]);
      ReplaceInsert(e0, i, b, [end]);
      total := total + merged - removed;
      UnionSize(old(Contents()), first, last);
      return false;
    }

    /** Delete every interval that overlaps or abuts [first, last); returns where the
        merged range [start, end) belongs and how many blocks were deleted. */
    method AbsorbNeighbours(first: int, last: int)
      returns (i: nat, start: int, end: int, removed: int, ghost b: nat)
      requires Canonical(starts, ends) && first < last
      modifies this`starts, this`ends
      ensures i <= b <= |old(starts)|
      ensures starts == Replace(old(starts), i, b, []) && ends == Replace(old(ends), i, b, [])
      ensures Merging(old(starts), old(ends), i, b, first, last, start, end, removed)
      ensures b < |old(starts)| ==> end < old(starts)[b]
    {
      hide Merging, Replace;
      start, end, removed := first, last, 0;
      i := BisectLeft(starts, start);
      b := i;
      ghost var s0, e0 := starts, ends;
      if i > 0 && ends[i - 1] >= start {
        i := i - 1;
        MergeLeft(s0, e0, i, b, first, last);
        removed := removed + (ends[i] - starts[i]);
        start := if starts[i] < start then starts[i] else start;
        end := if ends[i] > end then ends[i] else end;
        DeleteAt(i);
      } else {
        ReplaceNone(s0, i);
        ReplaceNone(e0, i);
        MergeNone(s0, e0, i, first, last);
      }
      while i < |starts| && starts[i] <= end
        invariant 0 <= i <= b <= |s0|
        invariant starts == Replace(s0, i, b, []) && ends == Replace(e0, i, b, [])
        invariant Merging(s0, e0, i, b, first, last, start, end, removed)
        decreases |starts|
      {
        ReplaceNext(s0, i, b);
        ReplaceNext(e0, i, b);
        MergeRight(s0, e0, i, b, b + 1, first, last, start, end, removed);
        removed := removed + (ends[i] - starts[i]);
        end := if ends[i] > end then ends[i] else end;
        DeleteAt(i);
        b := b + 1;
      }
      if b < |s0| { ReplaceNext(s0, i, b); }
    }

    // --- removing ---------------------------------------------------------------

    /** Remove an exact range; raises, changing nothing, unless all of it is free. */
    method Remove(first: int, last: int) returns (raised: bool)
      requires Valid()
      modifies this
      ensures raised <==> !(Range(first, last) <= old(Contents()))
      ensures raised ==> starts == old(starts) && ends == old(ends) && total == old(total)
      ensures !raised ==> Valid() && Contents() == old(Contents()) - Range(first, last)
    {
      if last <= first {
        return false;
      }
      var right := BisectRight(starts, first);
      if right == 0 || ends[right - 1] < last {
        NotOneRun(starts, ends, right, first, last);
        return true;
      }
      var index := right - 1;
      RunEdges(starts, ends, index);
      assert Range(first, last) <= Range(starts[index], ends[index]);
      raised := RemoveAt(index, first, last);
    }

    /** Cut [first, last) out of the interval at `index`; raises unless it lies inside. */
    method RemoveAt(index: nat, first: int, last: int) returns (raised: bool)
      requires Valid() && index < |starts|
      modifies this
      ensures raised <==> !(old(starts)[index] <= first < last <= old(ends)[index])
      ensures raised ==> starts == old(starts) && ends == old(ends) && total == old(total)
      ensures |starts| == |ends|
      ensures !raised ==> Valid() && Contents() == old(Contents()) - Range(first, last)
      ensures !raised ==> WithoutRange(old(starts), old(ends), index, first, last, starts, ends)
    {
      var lo, hi := starts[index], ends[index];
      if !(lo <= first < last <= hi) {
        return true;
      }
      CutSet(starts, ends, index, first, last);
      hide Replace, Blocks, InRuns, Range;
      total := total - (last - first);
      var (los, his) := Pieces(lo, first, last, hi);
      DeleteAt(index);
      InsertAt(index, los, his);
      ReplaceInsert(old(starts), index, index + 1, los);
      ReplaceInsert(old(ends), index, index + 1, his);
      return false;
    }

    // --- taking -----------------------------------------------------------------

    /** Where an allocation near the cursor begins: the interval containing it, or the next. */
    method StartIndex(cursor: int) returns (index: nat)
      requires Canonical(starts, ends) && starts != []
      ensures index <= |starts| == |ends|
      ensures IsNearest(Blocks(starts, ends), cursor, First(starts, ends, cursor, index))
    {
      index := BisectLeft(starts, cursor);
      if index > 0 && ends[index - 1] > cursor {
        index := index - 1;
      }
      NearestRun(starts, ends, cursor, index);
    }

    /** Remove up to `blocks` blocks as at most `maxSpans` spans, starting at the cursor. */
    method TakeNear(cursor: int, blocks: int, maxSpans: int) returns (spans: seq<Interval>)
      requires Valid()
      modifies this
      ensures Valid()
      ensures TakenNear(old(Contents()), cursor, blocks, maxSpans, spans)
      ensures Contents() == old(Contents()) - SpanBlocks(spans)
    {
      spans := [];
      NothingTaken(starts, ends, cursor, blocks, maxSpans);
      if blocks <= 0 || starts == [] {
        return;
      }

      var remaining := blocks;
      ghost var pool, limit := Contents(), SpanLimit(Contents(), cursor, maxSpans);
      var index := StartIndex(cursor);
      FirstVisit(starts, ends, cursor, index, maxSpans);
      hide Canonical, Blocks, Cut, SpanTotal, SpanBlocks, InSpans, IsNearest, Range, InRuns, Onward, SpanLimit, After, TakenNear, First;
      var visited := 0;
      while remaining > 0 && |spans| < maxSpans && visited < |starts|
        invariant |starts| == |ends| && Valid() && Contents() == pool - SpanBlocks(spans)
        invariant Cut(pool, blocks, spans) && remaining == blocks - SpanTotal(spans)
        invariant |spans| == visited && (spans != [] ==> |spans| <= limit)
        invariant spans == [] || IsNearest(pool, cursor, spans[0].lo)
        invariant Onward(pool, spans)
        invariant remaining > 0 ==> After(starts, ends, pool, cursor, index, spans)
        decreases remaining
      {
        LimitReached(starts, ends, pool, cursor, index, spans, maxSpans);
        BeganNear(starts, ends, pool, cursor, index, spans);
        var span;
        span, index := TakeAt(index, cursor, remaining, pool, blocks, spans);
        OnwardNext(pool, spans, span);
        spans := spans + [span];
        remaining := remaining - (span.hi - span.lo);
        visited := visited + 1;
      }
      if remaining > 0 { LimitReached(starts, ends, pool, cursor, index, spans, maxSpans); }
      TakenIf(pool, cursor, blocks, maxSpans, spans);
    }

    /** One turn of the allocation: cut a span out of the interval at `index`, wrapping, and
        move on to the interval after it. */
    method TakeAt(at: nat, cursor: int, remaining: int, ghost pool: set<int>, ghost blocks: int,
                  spans: seq<Interval>) returns (span: Interval, next: nat)
      requires Valid() && starts != [] && |starts| == |ends| && remaining > 0
      requires Contents() == pool - SpanBlocks(spans) && Cut(pool, blocks, spans)
      requires remaining == blocks - SpanTotal(spans) && After(starts, ends, pool, cursor, at, spans)
      modifies this
      ensures |starts| == |ends| && Valid()
      ensures Contents() == pool - SpanBlocks(spans + [span])
      ensures Cut(pool, blocks, spans + [span]) && span.lo < span.hi
      ensures SpanTotal(spans + [span]) == SpanTotal(spans) + (span.hi - span.lo)
      ensures spans == [] ==> span.lo == First(old(starts), old(ends), cursor, at)
      ensures spans != [] ==> IsNearest(pool - SpanBlocks(spans), spans[|spans| - 1].hi, span.lo)
      ensures remaining > span.hi - span.lo ==> After(starts, ends, pool, cursor, next, spans + [span])
    {
      hide After, Cut, SpanTotal, SpanBlocks, InSpans, Range, InRuns, Replace, IsNearest, Pieces, WithoutRange, Blocks;
      var index := if at >= |starts| then 0 else at;
      var lo, hi := starts[index], ends[index];
      ghost var s0, e0 := starts, ends;
      hide Canonical;
      var from := if lo <= cursor < hi && spans == [] then cursor else lo;
      var to := if hi < from + remaining then hi else from + remaining;
      TakeNext(s0, e0, index, pool, blocks, cursor, spans, from, to);
      NextIsNearest(s0, e0, pool, cursor, at, spans);
      span := Interval(from, to);
      var raised := RemoveAt(index, from, to);
      // the cut leaves 0, 1 or 2 intervals where there was one
      next := if from > lo && to < hi then index + 2 else if from == lo && to == hi then index else index + 1;
      if to == hi {
        NextAfter(s0, e0, pool, cursor, at, spans, from, starts, ends, next);
      }
    }
  }

  lemma NothingBetween(first: int, last: int)
    requires last <= first
    ensures Range(first, last) == {}
  {
  }

  // --- inserting a range ------------------------------------------------------

  /** Intervals a..b of the list s/e have been folded into [start, end), `removed` blocks of
      them, and the fold lost length exactly when one of them overlapped [first, last). */
  ghost predicate Merging(s: seq<int>, e: seq<int>, a: nat, b: nat, first: int, last: int,
                          start: int, end: int, removed: int)
    requires Canonical(s, e) && a <= b <= |s|
  {
    && start <= first < last <= end
    && (forall k :: 0 <= k < a ==> e[k] < start)
    && (forall k :: b <= k < |s| ==> first <= s[k])
    && (end > last ==> a < b && end == e[b - 1])
    && (forall p :: start <= p < end <==> first <= p < last || InRuns(s, e, a, b, p))
    && end - start <= removed + (last - first)
    && (end - start == removed + (last - first) <==>
        forall k :: a <= k < b ==> e[k] <= first || last <= s[k])
  }

  lemma MergeNone(s: seq<int>, e: seq<int>, a: nat, first: int, last: int)
    requires Canonical(s, e) && a <= |s| && first < last
    requires a > 0 ==> e[a - 1] < first
    requires forall k :: a <= k < |s| ==> first <= s[k]
    ensures Merging(s, e, a, a, first, last, first, last, 0)
  {
    forall p ensures !InRuns(s, e, a, a, p) {
    }
  }

  lemma MergeLeft(s: seq<int>, e: seq<int>, a: nat, b: nat, first: int, last: int)
    requires Canonical(s, e) && b == a + 1 <= |s| && first < last
    requires s[a] < first <= e[a] && forall k :: b <= k < |s| ==> first <= s[k]
    ensures Merging(s, e, a, b, first, last, s[a], if e[a] > last then e[a] else last, e[a] - s[a])
  {
    forall p ensures InRuns(s, e, a, b, p) <==> s[a] <= p < e[a] {
    }
  }

  lemma MergeRight(s: seq<int>, e: seq<int>, a: nat, b: nat, c: nat, first: int, last: int,
                   start: int, end: int, removed: int)
    requires Canonical(s, e) && a <= b < |s| && c == b + 1
    requires Merging(s, e, a, b, first, last, start, end, removed)
    requires s[b] <= end
    ensures Merging(s, e, a, c, first, last, start, if e[b] > end then e[b] else end,
                    removed + (e[b] - s[b]))
  {
    forall p ensures InRuns(s, e, a, c, p) <==> InRuns(s, e, a, b, p) || s[b] <= p < e[b] {
    }
    assert b > a ==> e[b - 1] < s[b];
    assert end == last;
  }

  lemma MergedSet(s: seq<int>, e: seq<int>, a: nat, b: nat, first: int, last: int,
                  start: int, end: int, removed: int)
    requires Canonical(s, e) && a <= b <= |s|
    requires Merging(s, e, a, b, first, last, start, end, removed)
    requires b < |s| ==> end < s[b]
    ensures Canonical(Replace(s, a, b, [start]), Replace(e, a, b, [end]))
    ensures Blocks(Replace(s, a, b, [start]), Replace(e, a, b, [end])) == Blocks(s, e) + Range(first, last)
  {
    hide Replace;
    ReplaceCanonical(s, e, a, b, [start], [end]);
    forall p ensures p in Blocks(Replace(s, a, b, [start]), Replace(e, a, b, [end])) <==>
                     p in Blocks(s, e) + Range(first, last) {
      ReplaceRuns(s, e, a, b, [start], [end], p);
      RunsSplit(s, e, a, b, p);
    }
  }

  lemma MergedOverlap(s: seq<int>, e: seq<int>, a: nat, b: nat, first: int, last: int,
                      start: int, end: int, removed: int)
    requires Canonical(s, e) && a <= b <= |s|
    requires Merging(s, e, a, b, first, last, start, end, removed)
    requires b < |s| ==> end < s[b]
    ensures end - start < removed + (last - first) <==> !(Blocks(s, e) !! Range(first, last))
    ensures end - start < removed + (last - first) ==> a < b
    ensures end - start <= removed + (last - first)
  {
    if end - start < removed + (last - first) {
      var k :| a <= k < b && e[k] > first && last > s[k];
      var p := if s[k] < first then first else s[k];
      assert InRuns(s, e, 0, |s|, p) && p in Range(first, last);
    } else {
      forall p | p in Range(first, last) ensures p !in Blocks(s, e) {
        RunsSplit(s, e, a, b, p);
      }
    }
  }

  lemma LostRuns(s: seq<int>, e: seq<int>, a: nat, b: nat)
    requires Canonical(s, e) && a < b <= |s|
    ensures |Blocks(Replace(s, a, b, []), Replace(e, a, b, []))| < |Blocks(s, e)|
  {
    var s', e' := Replace(s, a, b, []), Replace(e, a, b, []);
    forall p | p in Blocks(s', e') ensures p in Blocks(s, e) && p != s[a] {
      ReplaceRuns(s, e, a, b, [], [], p);
    }
    assert InRuns(s, e, 0, |s|, s[a]);
    SubsetSize(Blocks(s', e'), Blocks(s, e) - {s[a]});
  }

  // --- removing a range -------------------------------------------------------

  /** What is left of [lo, hi) without [first, last), as parallel lists. */
  function Pieces(lo: int, first: int, last: int, hi: int): (seq<int>, seq<int>) {
    if first > lo && last < hi then ([lo, last], [first, hi])
    else if first > lo then ([lo], [first])
    else if last < hi then ([last], [hi])
    else ([], [])
  }

  /** The lists once [first, last) has been cut out of interval k. */
  ghost predicate WithoutRange(s: seq<int>, e: seq<int>, k: nat, first: int, last: int, s': seq<int>, e': seq<int>)
    requires k < |s| && k < |e|
  {
    var (los, his) := Pieces(s[k], first, last, e[k]);
    s' == Replace(s, k, k + 1, los) && e' == Replace(e, k, k + 1, his)
  }

  lemma PiecesSet(lo: int, first: int, last: int, hi: int)
    requires lo <= first < last <= hi
    ensures var (ss, ee) := Pieces(lo, first, last, hi);
            Canonical(ss, ee) && Blocks(ss, ee) == Range(lo, hi) - Range(first, last)
  {
    var (ss, ee) := Pieces(lo, first, last, hi);
    forall p ensures InRuns(ss, ee, 0, |ss|, p) <==> lo <= p < first || last <= p < hi {
      if lo <= p < first { assert ss[0] <= p < ee[0]; }
      if last <= p < hi { assert ss[|ss| - 1] <= p < ee[|ss| - 1]; }
    }
  }

  lemma OneRunSet(s: seq<int>, e: seq<int>, k: nat, k1: nat)
    requires |s| == |e| && k1 == k + 1 <= |s|
    ensures forall p :: p in Range(s[k], e[k]) <==> InRuns(s, e, k, k1, p)
  {
    forall p ensures InRuns(s, e, k, k1, p) <==> s[k] <= p < e[k] {
    }
  }

  lemma PiecesFit(s: seq<int>, e: seq<int>, k: nat, first: int, last: int)
    requires Canonical(s, e) && k < |s| && s[k] <= first < last <= e[k]
    ensures |s| == |e| && (k > 0 ==> e[k - 1] < s[k]) && (k + 1 < |s| ==> e[k] < s[k + 1])
    ensures var (ss, ee) := Pieces(s[k], first, last, e[k]);
            && Canonical(ss, ee) && Blocks(ss, ee) == Range(s[k], e[k]) - Range(first, last) && |ss| == |ee|
            && (ss != [] && k > 0 ==> e[k - 1] < ss[0])
            && (ss != [] && k + 1 < |s| ==> ee[|ee| - 1] < s[k + 1])
    ensures Range(first, last) <= Range(s[k], e[k])
  {
    PiecesSet(s[k], first, last, e[k]);
    hide Blocks, Range;
  }

  lemma CutRuns(s: seq<int>, e: seq<int>, k: nat, first: int, last: int)
    requires Canonical(s, e) && k < |s| && s[k] <= first < last <= e[k]
    ensures var (ss, ee) := Pieces(s[k], first, last, e[k]);
            var s', e' := Replace(s, k, k + 1, ss), Replace(e, k, k + 1, ee);
            Canonical(s', e') && Blocks(s', e') == Blocks(s, e) - Range(first, last)
  {
    assert |s| == |e|;
    hide *;
    var (ss, ee) := Pieces(s[k], first, last, e[k]);
    PiecesFit(s, e, k, first, last);
    OneRunSet(s, e, k, k + 1);
    ReplaceCanonical(s, e, k, k + 1, ss, ee);
    ReplaceBlocks(s, e, k, k + 1, ss, ee, Range(s[k], e[k]));
    RunEdges(s, e, k);
    TakeOut(Blocks(s, e), Range(s[k], e[k]), Range(first, last));
  }

  lemma TakeOut(all: set<int>, part: set<int>, gone: set<int>)
    requires gone <= part <= all
    ensures (all - part) + (part - gone) == all - gone
  {
  }

  /** Interval k of the list deleted and its pieces inserted in its place. */
  lemma CutSet(s: seq<int>, e: seq<int>, k: nat, first: int, last: int)
    requires Canonical(s, e) && k < |s| && s[k] <= first < last <= e[k]
    ensures var (ss, ee) := Pieces(s[k], first, last, e[k]);
            var s' := Replace(Replace(s, k, k + 1, []), k, k, ss);
            var e' := Replace(Replace(e, k, k + 1, []), k, k, ee);
            Canonical(s', e') && Blocks(s', e') == Blocks(s, e) - Range(first, last)
    ensures |Blocks(s, e) - Range(first, last)| == |Blocks(s, e)| - (last - first)
  {
    assert |s| == |e|;
    hide Replace, Blocks, Range, Canonical, Pieces, InRuns;
    var (ss, ee) := Pieces(s[k], first, last, e[k]);
    CutRuns(s, e, k, first, last);
    ReplaceInsert(s, k, k + 1, ss);
    ReplaceInsert(e, k, k + 1, ee);
    RunEdges(s, e, k);
    DifferenceSize(Blocks(s, e), first, last);
  }

  lemma NotOneRun(s: seq<int>, e: seq<int>, right: nat, first: int, last: int)
    requires Canonical(s, e) && right <= |s| && first < last
    requires forall i :: 0 <= i < right ==> s[i] <= first
    requires forall i :: right <= i < |s| ==> first < s[i]
    requires right > 0 ==> e[right - 1] < last
    ensures !(Range(first, last) <= Blocks(s, e))
  {
    var p := if right > 0 && e[right - 1] > first then e[right - 1] else first;
    assert p in Range(first, last);
    assert !InRuns(s, e, 0, |s|, p);
  }

  // --- taking near a cursor ---------------------------------------------------

  lemma NothingTaken(s: seq<int>, e: seq<int>, cursor: int, blocks: int, maxSpans: int)
    requires Canonical(s, e)
    ensures blocks > 0 ==> Cut(Blocks(s, e), blocks, [])
    ensures SpanTotal([]) == 0 && Blocks(s, e) == Blocks(s, e) - SpanBlocks([])
    ensures s == [] <==> Blocks(s, e) == {}
  {
    if s != [] { assert InRuns(s, e, 0, |s|, s[0]); }
  }

  lemma LeftOver(s: seq<int>, e: seq<int>, index: nat, pool: set<int>, spans: seq<Interval>, from: int)
    requires Canonical(s, e) && Blocks(s, e) == pool - SpanBlocks(spans) && index < |s|
    requires s[index] <= from < e[index] && (spans == [] || from == s[index])
    ensures RunLeft(pool, spans, from, e[index])
  {
    hide Blocks, SpanBlocks, InRuns;
    RunEdges(s, e, index);
    forall p | from <= p < e[index] ensures p in pool && !InSpans(spans, p) {
      assert p in Range(s[index], e[index]);
    }
  }

  /** One more span cut from interval `index` of what is left of the pool. */
  lemma TakeNext(s: seq<int>, e: seq<int>, index: nat, pool: set<int>, blocks: int, cursor: int,
                 spans: seq<Interval>, from: int, to: int)
    requires Canonical(s, e) && Blocks(s, e) == pool - SpanBlocks(spans) && index < |s|
    requires Cut(pool, blocks, spans) && SpanTotal(spans) < blocks
    requires s[index] <= from < to <= e[index] && (spans == [] || from == s[index])
    requires to == e[index] || SpanTotal(spans) + (to - from) == blocks
    requires SpanTotal(spans) + (to - from) <= blocks
    ensures Cut(pool, blocks, spans + [Interval(from, to)])
    ensures SpanTotal(spans + [Interval(from, to)]) == SpanTotal(spans) + (to - from)
    ensures Blocks(s, e) - Range(from, to) == pool - SpanBlocks(spans + [Interval(from, to)])
  {
    RunEdges(s, e, index);
    LeftOver(s, e, index, pool, spans, from);
    hide Cut, RunLeft, Blocks, SpanBlocks, SpanTotal, Canonical;
    CutNext(pool, blocks, spans, from, to, e[index]);
    SpansAppend(spans, Interval(from, to));
    MinusUnion(Blocks(s, e), pool, SpanBlocks(spans), Range(from, to));
  }

  lemma MinusUnion(left: set<int>, pool: set<int>, gone: set<int>, more: set<int>)
    requires left == pool - gone
    ensures left - more == pool - (gone + more)
  {
  }

  /** Where the first span starts when the traversal begins at `index` (wrapping). */
  ghost function First(s: seq<int>, e: seq<int>, cursor: int, index: int): int
    requires |s| == |e| > 0 && 0 <= index
  {
    var k := if index >= |s| then 0 else index;
    if s[k] <= cursor < e[k] then cursor else s[k]
  }

  /** The traversal has cut `spans`, none of them short, and goes on at `index`, after the last of
      them; every span but one that began inside a run has cost the list an interval. */
  ghost predicate After(s: seq<int>, e: seq<int>, pool: set<int>, cursor: int, index: int, spans: seq<Interval>) {
    && |s| == |e| && 0 <= index <= |s|
    && if spans == [] then
         s != [] && Blocks(s, e) == pool && IsNearest(pool, cursor, First(s, e, cursor, index))
       else
         var last := spans[|spans| - 1].hi;
         && |s| == |RunStarts(pool)| - |spans| + (if Inside(pool, cursor) then 1 else 0)
         && (index > 0 ==> e[index - 1] <= last) && (index < |s| ==> last < s[index])
  }

  /** Whether the loop goes on is known beforehand. */
  lemma LimitReached(s: seq<int>, e: seq<int>, pool: set<int>, cursor: int, index: int, spans: seq<Interval>, maxSpans: int)
    requires Canonical(s, e) && After(s, e, pool, cursor, index, spans)
    ensures |spans| < maxSpans && |spans| < |s| <==> |spans| < SpanLimit(pool, cursor, maxSpans)
  {
    hide IsNearest, Blocks;
    if spans == [] {
      RunsCounted(s, e);
    }
  }

  lemma BeganNear(s: seq<int>, e: seq<int>, pool: set<int>, cursor: int, index: int, spans: seq<Interval>)
    requires After(s, e, pool, cursor, index, spans)
    ensures |s| == |e| && (spans == [] ==> s != [] && index >= 0 && IsNearest(pool, cursor, First(s, e, cursor, index)))
  {
    hide IsNearest, Blocks, First;
  }

  lemma TakenIf(pool: set<int>, cursor: int, blocks: int, maxSpans: int, spans: seq<Interval>)
    requires pool != {} && blocks > 0 && Cut(pool, blocks, spans) && Onward(pool, spans)
    requires spans != [] ==> IsNearest(pool, cursor, spans[0].lo) && |spans| <= SpanLimit(pool, cursor, maxSpans)
    requires SpanTotal(spans) < blocks ==> |spans| >= SpanLimit(pool, cursor, maxSpans)
    ensures TakenNear(pool, cursor, blocks, maxSpans, spans)
  {
    hide Cut, Onward, IsNearest;
    SomeRun(pool);
  }

  lemma FirstVisit(s: seq<int>, e: seq<int>, cursor: int, index: nat, maxSpans: int)
    requires Canonical(s, e) && s != [] && index <= |s|
    requires IsNearest(Blocks(s, e), cursor, First(s, e, cursor, index))
    ensures After(s, e, Blocks(s, e), cursor, index, []) && |s| == |e| && Onward(Blocks(s, e), [])
  {
  }

  /** Further spans start at their run, and at the nearest. */
  lemma NextIsNearest(s: seq<int>, e: seq<int>, pool: set<int>, cursor: int, at: nat, spans: seq<Interval>)
    requires Canonical(s, e) && s != [] && After(s, e, pool, cursor, at, spans) && Blocks(s, e) == pool - SpanBlocks(spans)
    ensures spans != [] ==>
      IsNearest(pool - SpanBlocks(spans), spans[|spans| - 1].hi, s[if at >= |s| then 0 else at])
  {
    if spans != [] {
      hide Blocks, SpanBlocks, IsNearest;
      NearestRun(s, e, spans[|spans| - 1].hi, at);
      assert at == |s| ==> e[at - 1] <= spans[|spans| - 1].hi;
    }
  }

  /** A cursor that the first span begins with cuts its run in two exactly when it is not the run's
      first position. */
  lemma CutInside(s: seq<int>, e: seq<int>, cursor: int, at: nat)
    requires Canonical(s, e) && s != [] && at <= |s|
    requires IsNearest(Blocks(s, e), cursor, First(s, e, cursor, at))
    ensures var k := if at >= |s| then 0 else at;
            Inside(Blocks(s, e), cursor) <==> s[k] < cursor < e[k]
  {
    var k := if at >= |s| then 0 else at;
    RunEdges(s, e, k);
    if s[k] < cursor < e[k] {
      assert cursor in Range(s[k], e[k]) && cursor - 1 in Range(s[k], e[k]);
    }
    if Inside(Blocks(s, e), cursor) {
      assert First(s, e, cursor, at) == cursor;
    }
  }

  /** After a run has been cut to its end. */
  lemma NextAfter(s: seq<int>, e: seq<int>, pool: set<int>, cursor: int, at: nat, spans: seq<Interval>, from: int,
                  s': seq<int>, e': seq<int>, next: nat)
    requires Canonical(s, e) && s != [] && After(s, e, pool, cursor, at, spans)
    requires var k := if at >= |s| then 0 else at;
             && from == (if s[k] <= cursor < e[k] && spans == [] then cursor else s[k])
             && next == (if from == s[k] then k else k + 1) && WithoutRange(s, e, k, from, e[k], s', e')
    ensures After(s', e', pool, cursor, next, spans + [Interval(from, e[if at >= |s| then 0 else at])])
  {
    hide Blocks, IsNearest, SpanBlocks, RunStarts;
    var k := if at >= |s| then 0 else at;
    if spans == [] {
      RunsCounted(s, e);
      CutInside(s, e, cursor, at);
    }
    assert next > 0 ==> e'[next - 1] == if from == s[k] then e[k - 1] else from;
    assert next < |s'| ==> s'[next] == s[k + 1];
  }

  lemma NearestRun(s: seq<int>, e: seq<int>, cursor: int, index: int)
    requires Canonical(s, e) && s != [] && 0 <= index <= |s|
    requires index > 0 ==> e[index - 1] <= cursor
    requires index < |s| ==> cursor < e[index]
    ensures IsNearest(Blocks(s, e), cursor, First(s, e, cursor, index))
  {
    var k := if index >= |s| then 0 else index;
    var p := First(s, e, cursor, index);
    assert s[k] <= p < e[k];
    forall q | q in Blocks(s, e) ensures if p >= cursor then cursor <= q ==> p <= q else p <= q < cursor {
      var i :| 0 <= i < |s| && s[i] <= q < e[i];
    }
  }
}
