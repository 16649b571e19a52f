/** How far an allocation gets round the free pool before it gives up. */
module Traversals {
  import opened Arithmetic
  import opened Intervals
  import opened FreePool

  // --- the runs in the order they are visited ----------------------------------

  /** Run k is the first to reach beyond the cursor, or the first of all when none does. */
  ghost predicate Begins(s: seq<int>, e: seq<int>, cursor: int, k: nat)
    requires |s| == |e|
  {
    && k < |s|
    && (if cursor < e[k] then k > 0 ==> e[k - 1] <= cursor else k == 0 && e[|e| - 1] <= cursor)
  }

  /** The list index of the j-th run visited, from run k on and round. */
  function Turn(n: nat, k: nat, j: nat): (i: nat)
    requires k < n && j < n
    ensures i < n
  {
    if k + j < n then k + j else k + j - n
  }

  /** What the j-th visit finds: its run, or the part of the first run from the cursor on. */
  function Visit(s: seq<int>, e: seq<int>, cursor: int, k: nat, j: nat): Interval
    requires |s| == |e| && k < |s| && j < |s|
  {
    var i := Turn(|s|, k, j);
    Interval(if j == 0 && s[i] <= cursor < e[i] then cursor else s[i], e[i])
  }

  /** The blocks that the first j visits find. */
  function Reach(s: seq<int>, e: seq<int>, cursor: int, k: nat, j: nat): int
    requires |s| == |e| && k < |s| && j <= |s|
  {
    if j == 0 then 0
    else var v := Visit(s, e, cursor, k, j - 1); Reach(s, e, cursor, k, j - 1) + (v.hi - v.lo)
  }

  lemma {:induction false} ReachGrows(s: seq<int>, e: seq<int>, cursor: int, k: nat, i: nat, j: nat)
    requires Canonical(s, e) && k < |s| && i <= j <= |s|
    ensures Reach(s, e, cursor, k, i) <= Reach(s, e, cursor, k, j)
    decreases j
  {
    if i < j {
      ReachGrows(s, e, cursor, k, i, j - 1);
    }
  }

  // --- an allocation cuts them one after another ---------------------------------

  lemma NearestIsOne(pool: set<int>, cursor: int, p: int, q: int)
    requires IsNearest(pool, cursor, p) && IsNearest(pool, cursor, q)
    ensures p == q
  {
  }

  /** An allocation that can be made, from a list. */
  ghost predicate Taken(s: seq<int>, e: seq<int>, cursor: int, k: nat, blocks: int, maxSpans: int, spans: seq<Interval>) {
    && Canonical(s, e) && |s| == |e| > 0 && Begins(s, e, cursor, k) && blocks > 0 && maxSpans > 0
    && TakenNear(Blocks(s, e), cursor, blocks, maxSpans, spans)
  }

  /** The limit never takes the traversal back to where it began. */
  lemma LimitWithin(s: seq<int>, e: seq<int>, cursor: int, maxSpans: int)
    requires Canonical(s, e) && s != [] && maxSpans > 0
    ensures 1 <= SpanLimit(Blocks(s, e), cursor, maxSpans) <= |s|
    ensures SpanLimit(Blocks(s, e), cursor, maxSpans) <= (|s| + (if Inside(Blocks(s, e), cursor) then 2 else 1)) / 2
  {
    RunsCounted(s, e);
    hide RunStarts, Blocks;
  }

  lemma TakenParts(s: seq<int>, e: seq<int>, cursor: int, k: nat, blocks: int, maxSpans: int, spans: seq<Interval>)
    requires Taken(s, e, cursor, k, blocks, maxSpans, spans)
    ensures |s| == |e| && Canonical(s, e) && Begins(s, e, cursor, k)
    ensures Blocks(s, e) != {} && spans != [] && |spans| <= |s| && k < |s|
    ensures Cut(Blocks(s, e), blocks, spans) && IsNearest(Blocks(s, e), cursor, spans[0].lo) && Onward(Blocks(s, e), spans)
    ensures var limit := SpanLimit(Blocks(s, e), cursor, maxSpans);
            1 <= |spans| <= limit <= |s| && (SpanTotal(spans) < blocks ==> |spans| == limit)
  {
    RunEdges(s, e, 0);
    assert s[0] in Range(s[0], e[0]);
    hide Cut, Onward, IsNearest;
    LimitWithin(s, e, cursor, maxSpans);
  }

  lemma FirstVisitNearest(s: seq<int>, e: seq<int>, cursor: int, k: nat)
    requires Canonical(s, e) && |s| == |e| && Begins(s, e, cursor, k)
    ensures IsNearest(Blocks(s, e), cursor, Visit(s, e, cursor, k, 0).lo)
  {
    NearestRun(s, e, cursor, if cursor < e[k] then k else |s|);
  }

  /** A position of one run lies in no other. */
  lemma RunsApart(s: seq<int>, e: seq<int>, i: nat, j: nat, p: int)
    requires Canonical(s, e) && i < |s| && j < |s| && s[i] <= p < e[i] && s[j] <= p < e[j]
    ensures i == j
  {
  }

  /** Spans cut from the runs visited so far leave the next run untouched. */
  lemma NextUntouched(s: seq<int>, e: seq<int>, cursor: int, k: nat, spans: seq<Interval>, i: nat)
    requires Canonical(s, e) && k < |s| == |e| && i < |s| && i <= |spans|
    requires forall j :: 0 <= j < i ==> spans[j] == Visit(s, e, cursor, k, j)
    ensures Visit(s, e, cursor, k, i).lo in Blocks(s, e)
    ensures i > 0 ==> s[Turn(|s|, k, i)] in Rest(Blocks(s, e), spans, i)
  {
    var t := Turn(|s|, k, i);
    assert InRuns(s, e, 0, |s|, Visit(s, e, cursor, k, i).lo);
    assert InRuns(s, e, 0, |s|, s[t]);
    var before := spans[..i];
    forall j | 0 <= j < i ensures !(before[j].lo <= s[t] < before[j].hi) {
      if before[j].lo <= s[t] < before[j].hi {
        RunsApart(s, e, t, Turn(|s|, k, j), s[t]);
      }
    }
  }

  /** The next run is the nearest of what is left. */
  lemma NextVisitNearest(s: seq<int>, e: seq<int>, cursor: int, k: nat, spans: seq<Interval>, i: nat)
    requires Canonical(s, e) && k < |s| == |e| && 0 < i < |s| && i <= |spans|
    requires forall j :: 0 <= j < i ==> spans[j] == Visit(s, e, cursor, k, j)
    ensures IsNearest(Rest(Blocks(s, e), spans, i), spans[i - 1].hi, Visit(s, e, cursor, k, i).lo)
  {
    NextUntouched(s, e, cursor, k, spans, i);
    var t, u := Turn(|s|, k, i), Turn(|s|, k, i - 1);
    assert spans[i - 1].hi == e[u] && Visit(s, e, cursor, k, i).lo == s[t];
    assert Rest(Blocks(s, e), spans, i) <= Blocks(s, e);
    hide SpanBlocks, Rest;
    forall q | q in Blocks(s, e) ensures if s[t] >= e[u] then e[u] <= q ==> s[t] <= q else s[t] <= q < e[u] {
      var m :| 0 <= m < |s| && s[m] <= q < e[m];
    }
  }

  /** Where a span ends. */
  lemma SpanEnd(s: seq<int>, e: seq<int>, cursor: int, k: nat, blocks: int, maxSpans: int, spans: seq<Interval>, i: nat)
    requires Taken(s, e, cursor, k, blocks, maxSpans, spans) && i < |spans|
    requires |spans| <= |s| && spans[0].lo == Visit(s, e, cursor, k, 0).lo && spans[i].lo == Visit(s, e, cursor, k, i).lo
    ensures spans[i].lo < spans[i].hi <= Visit(s, e, cursor, k, i).hi
    ensures i < |spans| - 1 || SpanTotal(spans) < blocks ==> spans[i].hi == Visit(s, e, cursor, k, i).hi
  {
    TakenParts(s, e, cursor, k, blocks, maxSpans, spans);
    hide Taken, Onward, SpanTotal;
    var t := Turn(|s|, k, i);
    RunHolds(s, e, t);
    var pool := Blocks(s, e);
    NoHole(pool, blocks, spans, i, e[t]);
    if i < |spans| - 1 || SpanTotal(spans) < blocks {
      assert ToRunEnd(pool, spans, i);
      if s[t] <= spans[0].lo < e[t] { RunsApart(s, e, t, k, spans[0].lo); }
    }
  }

  lemma NoHole(pool: set<int>, blocks: int, spans: seq<Interval>, i: nat, p: int)
    requires Cut(pool, blocks, spans) && i < |spans| && p !in pool
    ensures spans[i].lo < spans[i].hi && !(spans[i].lo <= p < spans[i].hi)
  {
    if spans[i].lo <= p < spans[i].hi {
      assert InSpans(spans, p);
    }
  }

  /** The first i spans are the first i runs visited, and the next begins like the next. */
  ghost predicate VisitedTo(s: seq<int>, e: seq<int>, cursor: int, k: nat, blocks: int, spans: seq<Interval>, i: nat) {
    && i < |spans| <= |s| == |e| && k < |s|
    && (forall j :: 0 <= j < i ==> spans[j] == Visit(s, e, cursor, k, j))
    && spans[i].lo == Visit(s, e, cursor, k, i).lo < spans[i].hi <= Visit(s, e, cursor, k, i).hi
    && (i < |spans| - 1 || SpanTotal(spans) < blocks ==> spans[i] == Visit(s, e, cursor, k, i))
    && SpanTotal(spans[..i]) == Reach(s, e, cursor, k, i)
  }

  /** The spans are the runs visited, in order, and all but the last to their end. */
  lemma {:induction false} TakenIsVisited(s: seq<int>, e: seq<int>, cursor: int, k: nat, blocks: int, maxSpans: int,
                                          spans: seq<Interval>, i: nat)
    requires Taken(s, e, cursor, k, blocks, maxSpans, spans) && i < |spans|
    ensures VisitedTo(s, e, cursor, k, blocks, spans, i)
  {
    hide *;
    TakenParts(s, e, cursor, k, blocks, maxSpans, spans);
    FirstVisitNearest(s, e, cursor, k);
    NearestIsOne(Blocks(s, e), cursor, spans[0].lo, Visit(s, e, cursor, k, 0).lo);
    if i == 0 {
      SpanEnd(s, e, cursor, k, blocks, maxSpans, spans, i);
      VisitedFirst(s, e, cursor, k, blocks, spans);
    } else {
      TakenIsVisited(s, e, cursor, k, blocks, maxSpans, spans, i - 1);
      VisitedNear(s, e, cursor, k, blocks, spans, i);
      SpanEnd(s, e, cursor, k, blocks, maxSpans, spans, i);
      VisitedNext(s, e, cursor, k, blocks, spans, i);
    }
  }

  lemma VisitedFirst(s: seq<int>, e: seq<int>, cursor: int, k: nat, blocks: int, spans: seq<Interval>)
    requires spans != [] && |spans| <= |s| == |e| && k < |s|
    requires spans[0].lo == Visit(s, e, cursor, k, 0).lo < spans[0].hi <= Visit(s, e, cursor, k, 0).hi
    requires 0 < |spans| - 1 || SpanTotal(spans) < blocks ==> spans[0].hi == Visit(s, e, cursor, k, 0).hi
    ensures VisitedTo(s, e, cursor, k, blocks, spans, 0)
  {
    hide Visit;
    assert spans[..0] == [] && SpanTotal([]) == 0;
  }

  lemma VisitedNear(s: seq<int>, e: seq<int>, cursor: int, k: nat, blocks: int, spans: seq<Interval>, i: nat)
    requires Canonical(s, e) && 0 < i < |spans| && VisitedTo(s, e, cursor, k, blocks, spans, i - 1)
    requires Onward(Blocks(s, e), spans)
    ensures spans[i].lo == Visit(s, e, cursor, k, i).lo
  {
    hide Visit, Blocks, Onward, SpanTotal, Reach, Canonical;
    NextVisitNearest(s, e, cursor, k, spans, i);
    OnwardAt(Blocks(s, e), spans, i);
    NearestIsOne(Rest(Blocks(s, e), spans, i), spans[i - 1].hi, spans[i].lo, Visit(s, e, cursor, k, i).lo);
  }

  lemma VisitedNext(s: seq<int>, e: seq<int>, cursor: int, k: nat, blocks: int, spans: seq<Interval>, i: nat)
    requires 0 < i < |spans| && VisitedTo(s, e, cursor, k, blocks, spans, i - 1)
    requires spans[i].lo == Visit(s, e, cursor, k, i).lo < spans[i].hi <= Visit(s, e, cursor, k, i).hi
    requires i < |spans| - 1 || SpanTotal(spans) < blocks ==> spans[i].hi == Visit(s, e, cursor, k, i).hi
    ensures VisitedTo(s, e, cursor, k, blocks, spans, i)
  {
    hide Visit, SpanTotal;
    assert spans[..i - 1] + [spans[i - 1]] == spans[..i];
    SpansAppend(spans[..i - 1], spans[i - 1]);
  }

  lemma VisitedAt(s: seq<int>, e: seq<int>, cursor: int, k: nat, blocks: int, maxSpans: int, spans: seq<Interval>, i: nat)
    requires Taken(s, e, cursor, k, blocks, maxSpans, spans) && i < |spans|
    ensures |spans| <= |s| == |e| && k < |s|
    ensures Visit(s, e, cursor, k, i).lo == spans[i].lo < spans[i].hi <= Visit(s, e, cursor, k, i).hi
    ensures i < |spans| - 1 || SpanTotal(spans) < blocks ==> spans[i] == Visit(s, e, cursor, k, i)
  {
    TakenIsVisited(s, e, cursor, k, blocks, maxSpans, spans, i);
    hide Taken, SpanTotal, Visit, Reach;
  }

  lemma OnwardAt(pool: set<int>, spans: seq<Interval>, i: nat)
    requires Onward(pool, spans) && 0 < i < |spans|
    ensures IsNearest(Rest(pool, spans, i), spans[i - 1].hi, spans[i].lo)
  {
    hide IsNearest, Rest;
  }

  // --- how many spans, and how much -----------------------------------------------

  /** An allocation ends with the visit that meets the request, or at the limit; and what it has taken
      is the request, or all that the visits within the limit find. */
  lemma TakenExactly(s: seq<int>, e: seq<int>, cursor: int, k: nat, blocks: int, maxSpans: int, spans: seq<Interval>)
    requires Taken(s, e, cursor, k, blocks, maxSpans, spans)
    ensures |s| == |e| && k < |s|
    ensures var limit := SpanLimit(Blocks(s, e), cursor, maxSpans);
            && 1 <= |spans| <= limit <= |s|
            && Reach(s, e, cursor, k, |spans| - 1) < blocks
            && (|spans| == limit || blocks <= Reach(s, e, cursor, k, |spans|))
            && SpanTotal(spans) == Min(blocks, Reach(s, e, cursor, k, limit))
  {
    hide *;
    TakenParts(s, e, cursor, k, blocks, maxSpans, spans);
    var limit, n := SpanLimit(Blocks(s, e), cursor, maxSpans), |spans| - 1;
    TakenIsVisited(s, e, cursor, k, blocks, maxSpans, spans, n);
    CutWithin(Blocks(s, e), blocks, spans);
    ReachGrows(s, e, cursor, k, |spans|, limit);
    VisitedAll(s, e, cursor, k, blocks, spans, limit);
  }

  lemma VisitedAll(s: seq<int>, e: seq<int>, cursor: int, k: nat, blocks: int, spans: seq<Interval>, limit: nat)
    requires spans != [] && VisitedTo(s, e, cursor, k, blocks, spans, |spans| - 1) && |spans| <= limit <= |s|
    requires SpanTotal(spans) <= blocks && (SpanTotal(spans) < blocks ==> |spans| == limit)
    requires Reach(s, e, cursor, k, |spans|) <= Reach(s, e, cursor, k, limit)
    ensures Reach(s, e, cursor, k, |spans| - 1) < blocks
    ensures |spans| == limit || blocks <= Reach(s, e, cursor, k, |spans|)
    ensures SpanTotal(spans) == Min(blocks, Reach(s, e, cursor, k, limit))
  {
    hide Visit, SpanTotal, Reach;
    var n := |spans| - 1;
    assert spans[..n] + [spans[n]] == spans;
    SpansAppend(spans[..n], spans[n]);
    NextReach(s, e, cursor, k, |spans|);
  }

  lemma NextReach(s: seq<int>, e: seq<int>, cursor: int, k: nat, i: nat)
    requires |s| == |e| && k < |s| && 0 < i <= |s|
    ensures var v := Visit(s, e, cursor, k, i - 1);
            Reach(s, e, cursor, k, i) == Reach(s, e, cursor, k, i - 1) + (v.hi - v.lo)
  {
  }

  lemma CutWithin(pool: set<int>, blocks: int, spans: seq<Interval>)
    requires Cut(pool, blocks, spans)
    ensures SpanTotal(spans) <= blocks
  {
  }

  lemma MinIs(a: int, b: int)
    ensures Min(a, b) == if a <= b then a else b
  {
  }

  /** The pool and the request determine the answer. */
  lemma TakenOnce(s: seq<int>, e: seq<int>, cursor: int, k: nat, blocks: int, maxSpans: int, a: seq<Interval>, b: seq<Interval>)
    requires Taken(s, e, cursor, k, blocks, maxSpans, a) && Taken(s, e, cursor, k, blocks, maxSpans, b)
    ensures a == b
  {
    hide *;
    TakenExactly(s, e, cursor, k, blocks, maxSpans, a);
    TakenExactly(s, e, cursor, k, blocks, maxSpans, b);
    TakenLength(s, e, cursor, k, blocks, maxSpans, a, b);
    TakenIsVisited(s, e, cursor, k, blocks, maxSpans, a, |a| - 1);
    TakenIsVisited(s, e, cursor, k, blocks, maxSpans, b, |b| - 1);
    SameVisits(s, e, cursor, k, blocks, a, b);
  }

  lemma SameVisits(s: seq<int>, e: seq<int>, cursor: int, k: nat, blocks: int, a: seq<Interval>, b: seq<Interval>)
    requires |a| == |b| > 0 && SpanTotal(a) == SpanTotal(b)
    requires VisitedTo(s, e, cursor, k, blocks, a, |a| - 1) && VisitedTo(s, e, cursor, k, blocks, b, |b| - 1)
    ensures a == b
  {
    hide *;
    var n := |a| - 1;
    SameFirst(s, e, cursor, k, blocks, a, b);
    assert a == a[..n] + [a[n]] && b == b[..n] + [b[n]];
    SpansAppend(a[..n], a[n]);
    SpansAppend(b[..n], b[n]);
    assert a[n] == b[n];
  }

  lemma SameFirst(s: seq<int>, e: seq<int>, cursor: int, k: nat, blocks: int, a: seq<Interval>, b: seq<Interval>)
    requires |a| == |b| > 0
    requires VisitedTo(s, e, cursor, k, blocks, a, |a| - 1) && VisitedTo(s, e, cursor, k, blocks, b, |b| - 1)
    ensures a[..|a| - 1] == b[..|a| - 1] && a[|a| - 1].lo == b[|a| - 1].lo
  {
    hide Visit, Reach, SpanTotal;
  }

  lemma TakenLength(s: seq<int>, e: seq<int>, cursor: int, k: nat, blocks: int, maxSpans: int, a: seq<Interval>, b: seq<Interval>)
    requires Taken(s, e, cursor, k, blocks, maxSpans, a) && Taken(s, e, cursor, k, blocks, maxSpans, b)
    ensures |a| == |b|
  {
    hide *;
    TakenParts(s, e, cursor, k, blocks, maxSpans, a);
    TakenExactly(s, e, cursor, k, blocks, maxSpans, a);
    TakenExactly(s, e, cursor, k, blocks, maxSpans, b);
    if |a| < |b| {
      ReachGrows(s, e, cursor, k, |a|, |b| - 1);
    } else if |b| < |a| {
      ReachGrows(s, e, cursor, k, |b|, |a| - 1);
    }
  }

  // --- when the request is met ------------------------------------------------------

  /** One run, taken whole. */
  lemma OneRunTaken(s: seq<int>, e: seq<int>, cursor: int, k: nat, blocks: int, maxSpans: int, spans: seq<Interval>)
    requires Taken(s, e, cursor, k, blocks, maxSpans, spans) && |s| == 1 && !Inside(Blocks(s, e), cursor)
    requires SpanTotal(spans) < blocks
    ensures SpanBlocks(spans) == Blocks(s, e)
  {
    TakenParts(s, e, cursor, k, blocks, maxSpans, spans);
    VisitedAt(s, e, cursor, k, blocks, maxSpans, spans, 0);
    assert spans == [Visit(s, e, cursor, k, 0)];
    hide Taken, TakenNear, Cut, Onward, SpanLimit, Begins, Blocks;
    RunHolds(s, e, 0);
    assert spans == [Interval(s[0], e[0])];
    OneRunBlocks(s, e, spans);
  }

  lemma OneRunBlocks(s: seq<int>, e: seq<int>, spans: seq<Interval>)
    requires |s| == |e| == 1 && spans == [Interval(s[0], e[0])]
    ensures SpanBlocks(spans) == Blocks(s, e)
  {
    forall p ensures p in SpanBlocks(spans) <==> p in Blocks(s, e) {
      assert p in SpanBlocks(spans) <==> s[0] <= p < e[0] by { if s[0] <= p < e[0] { assert spans[0].lo <= p < spans[0].hi; } }
      assert p in Blocks(s, e) <==> s[0] <= p < e[0] by { if s[0] <= p < e[0] { assert InRuns(s, e, 0, 1, p); } }
    }
  }

  /** With a second run, or part of the first before the cursor, something is always left. */
  lemma SomethingLeft(s: seq<int>, e: seq<int>, cursor: int, k: nat, blocks: int, maxSpans: int, spans: seq<Interval>)
    requires Taken(s, e, cursor, k, blocks, maxSpans, spans) && (|s| > 1 || Inside(Blocks(s, e), cursor))
    ensures SpanBlocks(spans) != Blocks(s, e)
  {
    hide *;
    TakenParts(s, e, cursor, k, blocks, maxSpans, spans);
    LimitWithin(s, e, cursor, maxSpans) by { SpansAllowed(s, e, cursor, k, blocks, maxSpans, spans); }
    SpansAllowed(s, e, cursor, k, blocks, maxSpans, spans);
    var p := LeftPosition(s, e, cursor, k, |spans|);
    forall i | 0 <= i < |spans| ensures !(spans[i].lo <= p < spans[i].hi) {
      VisitedAt(s, e, cursor, k, blocks, maxSpans, spans, i);
    }
    OutsideSpans(spans, p);
  }

  lemma SpansAllowed(s: seq<int>, e: seq<int>, cursor: int, k: nat, blocks: int, maxSpans: int, spans: seq<Interval>)
    requires Taken(s, e, cursor, k, blocks, maxSpans, spans)
    ensures maxSpans > 0 && s != []
  {
  }

  lemma OutsideSpans(spans: seq<Interval>, p: int)
    requires forall i :: 0 <= i < |spans| ==> !(spans[i].lo <= p < spans[i].hi)
    ensures p !in SpanBlocks(spans)
  {
  }

  lemma LeftPosition(s: seq<int>, e: seq<int>, cursor: int, k: nat, count: nat) returns (p: int)
    requires Canonical(s, e) && k < |s| == |e| && Begins(s, e, cursor, k)
    requires 1 <= count <= (|s| + (if Inside(Blocks(s, e), cursor) then 2 else 1)) / 2 && count <= |s|
    requires |s| > 1 || Inside(Blocks(s, e), cursor)
    ensures p in Blocks(s, e)
    ensures forall i :: 0 <= i < count ==> !(Visit(s, e, cursor, k, i).lo <= p < Visit(s, e, cursor, k, i).hi)
  {
    if Inside(Blocks(s, e), cursor) {
      p := cursor - 1;
      InsideFirst(s, e, cursor, k);
      forall i | 0 <= i < count ensures !(Visit(s, e, cursor, k, i).lo <= p < Visit(s, e, cursor, k, i).hi) {
        ElsewhereVisited(s, e, cursor, k, k, i, p);
      }
    } else {
      var t := Turn(|s|, k, |s| - 1);
      p := s[t];
      assert InRuns(s, e, 0, |s|, p);
      hide Blocks, Begins;
      forall i | 0 <= i < count ensures !(Visit(s, e, cursor, k, i).lo <= p < Visit(s, e, cursor, k, i).hi) {
        ElsewhereVisited(s, e, cursor, k, t, i, p);
      }
    }
  }

  lemma InsideFirst(s: seq<int>, e: seq<int>, cursor: int, k: nat)
    requires Canonical(s, e) && |s| == |e| && Begins(s, e, cursor, k) && Inside(Blocks(s, e), cursor)
    ensures s[k] < cursor < e[k]
  {
    var m :| 0 <= m < |s| && s[m] <= cursor < e[m];
    var m' :| 0 <= m' < |s| && s[m'] <= cursor - 1 < e[m'];
  }

  /** A position of run t lies in no other visit. */
  lemma ElsewhereVisited(s: seq<int>, e: seq<int>, cursor: int, k: nat, t: nat, i: nat, p: int)
    requires Canonical(s, e) && k < |s| == |e| && t < |s| && i < |s| && s[t] <= p < e[t]
    requires Turn(|s|, k, i) != t || (i == 0 && p < cursor < e[t])
    ensures !(Visit(s, e, cursor, k, i).lo <= p < Visit(s, e, cursor, k, i).hi)
  {
    var u := Turn(|s|, k, i);
    if s[u] <= p < e[u] {
      RunsApart(s, e, t, u, p);
    }
  }

  /** A request is met, or the pool emptied for it, exactly when the visits within the limit find enough,
      or there is but one run and the cursor does not cut it in two. */
  lemma FilledExactly(s: seq<int>, e: seq<int>, cursor: int, k: nat, blocks: int, maxSpans: int, spans: seq<Interval>)
    requires Taken(s, e, cursor, k, blocks, maxSpans, spans)
    ensures |s| == |e| && k < |s| && 1 <= SpanLimit(Blocks(s, e), cursor, maxSpans) <= |s|
    ensures SpanTotal(spans) == blocks || SpanBlocks(spans) == Blocks(s, e) <==>
            blocks <= Reach(s, e, cursor, k, SpanLimit(Blocks(s, e), cursor, maxSpans))
            || (|s| == 1 && !Inside(Blocks(s, e), cursor))
  {
    hide *;
    TakenExactly(s, e, cursor, k, blocks, maxSpans, spans);
    MinIs(blocks, Reach(s, e, cursor, k, SpanLimit(Blocks(s, e), cursor, maxSpans)));
    if |s| == 1 && !Inside(Blocks(s, e), cursor) {
      if SpanTotal(spans) < blocks {
        OneRunTaken(s, e, cursor, k, blocks, maxSpans, spans);
      }
    } else {
      SomethingLeft(s, e, cursor, k, blocks, maxSpans, spans);
    }
  }

  // --- a request that is not met -----------------------------------------------------

  /** Blocks 0, 2 and 4 are free; three are asked for from 0, in up to eight spans: only two are given. */
  lemma GivesUpHalfway(spans: seq<Interval>)
    requires TakenNear({0, 2, 4}, 0, 3, 8, spans)
    ensures spans == [Interval(0, 1), Interval(2, 3)] && 4 in {0, 2, 4} - SpanBlocks(spans)
  {
    hide *;
    var s, e := [0, 2, 4], [1, 3, 5];
    ThreeTaken(spans);
    ThreeLimit();
    ReachHalfway(s, e);
    TakenExactly(s, e, 0, 0, 3, 8, spans);
    VisitedAt(s, e, 0, 0, 3, 8, spans, 0);
    VisitedAt(s, e, 0, 0, 3, 8, spans, 1);
    assert spans == [Interval(0, 1), Interval(2, 3)];
    OutsideSpans(spans, 4);
  }

  lemma ThreeBlocks()
    ensures Canonical([0, 2, 4], [1, 3, 5]) && Blocks([0, 2, 4], [1, 3, 5]) == {0, 2, 4}
  {
    var s, e := [0, 2, 4], [1, 3, 5];
    forall p ensures p in Blocks(s, e) <==> p in {0, 2, 4} {
      assert InRuns(s, e, 0, 3, p) <==> s[0] <= p < e[0] || s[1] <= p < e[1] || s[2] <= p < e[2];
    }
  }

  lemma ThreeTaken(spans: seq<Interval>)
    requires TakenNear({0, 2, 4}, 0, 3, 8, spans)
    ensures Taken([0, 2, 4], [1, 3, 5], 0, 0, 3, 8, spans)
  {
    ThreeBlocks();
    hide TakenNear, Blocks;
  }

  lemma ThreeLimit()
    ensures SpanLimit(Blocks([0, 2, 4], [1, 3, 5]), 0, 8) == 2
  {
    ThreeBlocks();
    RunsCounted([0, 2, 4], [1, 3, 5]);
    hide Blocks, RunStarts, Elements;
  }

  lemma ReachHalfway(s: seq<int>, e: seq<int>)
    requires s == [0, 2, 4] && e == [1, 3, 5]
    ensures Reach(s, e, 0, 0, 1) == 1 && Reach(s, e, 0, 0, 2) == 2 && Min(3, 2) == 2
    ensures Visit(s, e, 0, 0, 0) == Interval(0, 1) && Visit(s, e, 0, 0, 1) == Interval(2, 3)
  {
  }

  // --- where an allocation starts -------------------------------------------------

  /** An allocation starts at the cursor if that is free, or else at the next free position, and only when
      nothing free lies ahead at the first of all; and it goes on in the same way from the end of each span. */
  lemma StartsAhead(pool: set<int>, cursor: int, blocks: int, maxSpans: int, spans: seq<Interval>, i: nat)
    requires TakenNear(pool, cursor, blocks, maxSpans, spans) && i < |spans|
    ensures var from, left := if i == 0 then cursor else spans[i - 1].hi, pool - SpanBlocks(spans[..i]);
            && spans[i].lo in left
            && (from in left ==> spans[i].lo == from)
            && (forall p :: p in left && from <= p ==> from <= spans[i].lo <= p)
            && ((forall p :: p in left ==> p < from) ==> forall p :: p in left ==> spans[i].lo <= p)
  {
    hide Cut, SpanLimit, SpanTotal, SpanBlocks;
    if i == 0 {
      NothingTaken(pool, spans);
    } else {
      assert IsNearest(Rest(pool, spans, i), spans[i - 1].hi, spans[i].lo);
    }
  }

  lemma NothingTaken(pool: set<int>, spans: seq<Interval>)
    ensures pool - SpanBlocks(spans[..0]) == pool
  {
    assert spans[..0] == [];
  }
}
