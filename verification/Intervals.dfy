/** Half-open integer ranges, as sets and as the sorted, merged lists that stand for them. */
module Intervals {
  import opened Arithmetic

  datatype Interval = Interval(lo: int, hi: int)

  // --- ranges as sets ---------------------------------------------------------

  ghost function Range(lo: int, hi: int): (r: set<int>)
    ensures forall p :: p in r <==> lo <= p < hi
    decreases hi - lo
  {
    if lo < hi then Range(lo, hi - 1) + {hi - 1} else {}
  }

  lemma {:induction false} RangeSize(lo: int, hi: int)
    requires lo <= hi
    ensures |Range(lo, hi)| == hi - lo
    decreases hi - lo
  {
    if lo < hi {
      RangeSize(lo, hi - 1);
    }
  }

  lemma UnionSize(a: set<int>, lo: int, hi: int)
    requires lo <= hi && a !! Range(lo, hi)
    ensures |a + Range(lo, hi)| == |a| + (hi - lo)
  {
    RangeSize(lo, hi);
  }

  lemma DifferenceSize(a: set<int>, lo: int, hi: int)
    requires lo <= hi && Range(lo, hi) <= a
    ensures |a - Range(lo, hi)| == |a| - (hi - lo)
  {
    RangeSize(lo, hi);
    assert a == (a - Range(lo, hi)) + Range(lo, hi);
  }

  lemma Pick<T>(s: set<T>) returns (x: T)
    requires s != {}
    ensures x in s
  {
    x :| x in s;
  }

  lemma {:induction false} SubsetSize<T>(a: set<T>, b: set<T>)
    requires a <= b
    ensures |a| <= |b|
  {
    if a != {} {
      var x :| x in a;
      SubsetSize(a - {x}, b - {x});
    }
  }

  // --- lists of spans, in any order -------------------------------------------

  ghost predicate InSpans(spans: seq<Interval>, p: int) {
    exists i :: 0 <= i < |spans| && spans[i].lo <= p < spans[i].hi
  }

  ghost function SpanBlocks(spans: seq<Interval>): (b: set<int>)
    ensures forall p :: p in b <==> InSpans(spans, p)
  {
    var b := set i, p | 0 <= i < |spans| && p in Range(spans[i].lo, spans[i].hi) :: p;
    assert forall p :: InSpans(spans, p) ==> p in b by {
      forall p | InSpans(spans, p) ensures p in b {
        var i :| 0 <= i < |spans| && spans[i].lo <= p < spans[i].hi;
        assert p in Range(spans[i].lo, spans[i].hi);
      }
    }
    b
  }

  ghost predicate Disjoint(spans: seq<Interval>) {
    forall i, j :: 0 <= i < j < |spans| ==> spans[i].hi <= spans[j].lo || spans[j].hi <= spans[i].lo
  }

  function SpanTotal(spans: seq<Interval>): int {
    if spans == [] then 0
    else SpanTotal(spans[..|spans| - 1]) + spans[|spans| - 1].hi - spans[|spans| - 1].lo
  }

  lemma SpansAppend(spans: seq<Interval>, s: Interval)
    ensures SpanTotal(spans + [s]) == SpanTotal(spans) + s.hi - s.lo
    ensures SpanBlocks(spans + [s]) == SpanBlocks(spans) + Range(s.lo, s.hi)
  {
    assert (spans + [s])[..|spans|] == spans;
    forall p ensures InSpans(spans + [s], p) <==> InSpans(spans, p) || s.lo <= p < s.hi {
      if s.lo <= p < s.hi { assert (spans + [s])[|spans|].lo <= p < (spans + [s])[|spans|].hi; }
      if InSpans(spans, p) {
        var i :| 0 <= i < |spans| && spans[i].lo <= p < spans[i].hi;
        assert (spans + [s])[i] == spans[i];
      }
    }
  }

  // --- the canonical list -----------------------------------------------------

  /** Non-empty intervals, ascending, with a gap between neighbours. */
  ghost predicate Canonical(starts: seq<int>, ends: seq<int>) {
    && |starts| == |ends|
    && (forall i :: 0 <= i < |starts| ==> starts[i] < ends[i])
    && (forall i, j :: 0 <= i < j < |starts| ==> ends[i] < starts[j])
  }

  /** p lies in one of the intervals from..to of the list. */
  ghost predicate InRuns(starts: seq<int>, ends: seq<int>, from: int, to: int, p: int)
    requires 0 <= from <= to <= |starts| == |ends|
  {
    exists i :: from <= i < to && starts[i] <= p < ends[i]
  }

  ghost function Blocks(starts: seq<int>, ends: seq<int>): (b: set<int>)
    requires |starts| == |ends|
    ensures forall p :: p in b <==> InRuns(starts, ends, 0, |starts|, p)
  {
    var b := set i, p | 0 <= i < |starts| && p in Range(starts[i], ends[i]) :: p;
    assert forall p :: InRuns(starts, ends, 0, |starts|, p) ==> p in b by {
      forall p | InRuns(starts, ends, 0, |starts|, p) ensures p in b {
        var i :| 0 <= i < |starts| && starts[i] <= p < ends[i];
        assert p in Range(starts[i], ends[i]);
      }
    }
    b
  }

  /** Each interval is a maximal run: the positions on either side are not in the set. */
  lemma RunEdges(s: seq<int>, e: seq<int>, k: nat)
    requires Canonical(s, e) && k < |s|
    ensures s[k] < e[k] && s[k] - 1 !in Blocks(s, e) && e[k] !in Blocks(s, e)
    ensures Range(s[k], e[k]) <= Blocks(s, e)
  {
    forall p | s[k] <= p < e[k] ensures InRuns(s, e, 0, |s|, p) {
    }
  }

  /** The list is determined by the set it stands for. */
  lemma {:induction false} CanonicalIsUnique(s: seq<int>, e: seq<int>, s': seq<int>, e': seq<int>)
    requires Canonical(s, e) && Canonical(s', e')
    requires Blocks(s, e) == Blocks(s', e')
    ensures s == s' && e == e'
  {
    SameAt(s, e, s', e', 0);
    SameAt(s', e', s, e, 0);
  }

  lemma {:induction false} SameAt(s: seq<int>, e: seq<int>, s': seq<int>, e': seq<int>, k: nat)
    requires Canonical(s, e) && Canonical(s', e')
    requires Blocks(s, e) == Blocks(s', e')
    requires k <= |s| && k <= |s'|
    requires forall i :: 0 <= i < k ==> s[i] == s'[i] && e[i] == e'[i]
    ensures |s| <= |s'| && forall i :: 0 <= i < |s| ==> s[i] == s'[i] && e[i] == e'[i]
    decreases |s| - k
  {
    if k < |s| {
      RunWithin(s, e, s', e', k);
      RunWithin(s', e', s, e, k);
      SameAt(s, e, s', e', k + 1);
    }
  }

  lemma RunWithin(s: seq<int>, e: seq<int>, s': seq<int>, e': seq<int>, k: nat)
    requires Canonical(s, e) && Canonical(s', e')
    requires Blocks(s, e) == Blocks(s', e')
    requires k < |s| && k <= |s'|
    requires forall i :: 0 <= i < k ==> s[i] == s'[i] && e[i] == e'[i]
    ensures k < |s'| && s'[k] <= s[k] && e[k] <= e'[k]
  {
    hide *;
    ListsMatch(s, e);
    ListsMatch(s', e');
    RunHolds(s, e, k);
    var j := RunOf(s', e', s[k]);
    InOrder(s, e, if j < k then j else k, k);
    InOrder(s', e', if j < k then j else k, j);
    RunHolds(s', e', k);
    var m := RunOf(s, e, s'[k]);
    InOrder(s', e', if m < k then m else k, k);
    InOrder(s, e, if m < k then m else k, m);
  }

  lemma ListsMatch(s: seq<int>, e: seq<int>)
    requires Canonical(s, e)
    ensures |s| == |e|
  {
  }

  lemma InOrder(s: seq<int>, e: seq<int>, i: nat, j: nat)
    requires Canonical(s, e) && i <= j < |s|
    ensures |s| == |e| && s[i] <= s[j] && (i < j ==> e[i] < s[j])
  {
  }

  lemma RunOf(s: seq<int>, e: seq<int>, p: int) returns (m: nat)
    requires |s| == |e| && p in Blocks(s, e)
    ensures m < |s| && s[m] <= p < e[m]
  {
    var i :| 0 <= i < |s| && s[i] <= p < e[i];
    m := i;
  }

  /** A run of the list is in the set from end to end, and stops there. */
  lemma RunHolds(s: seq<int>, e: seq<int>, k: nat)
    requires Canonical(s, e) && k < |s|
    ensures |s| == |e| && s[k] < e[k] && s[k] in Blocks(s, e) && e[k] !in Blocks(s, e)
    ensures forall p :: s[k] <= p < e[k] ==> p in Blocks(s, e)
  {
    RunEdges(s, e, k);
  }

  // --- editing the list -------------------------------------------------------

  /** Elements a..b of x replaced by ys. */
  function Replace(x: seq<int>, a: nat, b: nat, ys: seq<int>): (r: seq<int>)
    requires a <= b <= |x|
    ensures |r| == |x| - (b - a) + |ys|
  {
    x[..a] + ys + x[b..]
  }

  lemma ReplaceNone(x: seq<int>, a: nat)
    requires a <= |x|
    ensures Replace(x, a, a, []) == x
  {
  }

  lemma ReplaceNext(x: seq<int>, a: nat, b: nat)
    requires a <= b < |x|
    ensures Replace(x, a, b, [])[a] == x[b]
    ensures Replace(Replace(x, a, b, []), a, a + 1, []) == Replace(x, a, b + 1, [])
  {
  }

  lemma ReplaceInsert(x: seq<int>, a: nat, b: nat, ys: seq<int>)
    requires a <= b <= |x|
    ensures Replace(Replace(x, a, b, []), a, a, ys) == Replace(x, a, b, ys)
  {
  }

  lemma ReplaceRuns(s: seq<int>, e: seq<int>, a: nat, b: nat, ss: seq<int>, ee: seq<int>, p: int)
    requires |s| == |e| && |ss| == |ee| && a <= b <= |s|
    ensures var s', e' := Replace(s, a, b, ss), Replace(e, a, b, ee);
            InRuns(s', e', 0, |s'|, p) <==>
            InRuns(s, e, 0, a, p) || InRuns(ss, ee, 0, |ss|, p) || InRuns(s, e, b, |s|, p)
  {
    var s', e' := Replace(s, a, b, ss), Replace(e, a, b, ee);
    forall k | 0 <= k < |s| && (k < a || b <= k)
      ensures var k' := if k < a then k else k - b + a + |ss|; s'[k'] == s[k] && e'[k'] == e[k]
    {
    }
    forall k | 0 <= k < |ss| ensures s'[a + k] == ss[k] && e'[a + k] == ee[k] {
    }
    forall k' | 0 <= k' < |s'| && s'[k'] <= p < e'[k']
      ensures InRuns(s, e, 0, a, p) || InRuns(ss, ee, 0, |ss|, p) || InRuns(s, e, b, |s|, p)
    {
      if a <= k' < a + |ss| {
        assert ss[k' - a] <= p < ee[k' - a];
      } else {
        var k := if k' < a then k' else k' - a - |ss| + b;
        assert s[k] <= p < e[k];
      }
    }
  }

  lemma RunsSplit(s: seq<int>, e: seq<int>, a: nat, b: nat, p: int)
    requires |s| == |e| && a <= b <= |s|
    ensures InRuns(s, e, 0, |s|, p) <==>
            InRuns(s, e, 0, a, p) || InRuns(s, e, a, b, p) || InRuns(s, e, b, |s|, p)
  {
  }

  lemma ReplaceCanonical(s: seq<int>, e: seq<int>, a: nat, b: nat, ss: seq<int>, ee: seq<int>)
    requires Canonical(s, e) && Canonical(ss, ee) && a <= b <= |s|
    requires ss != [] && a > 0 ==> e[a - 1] < ss[0]
    requires ss != [] && b < |s| ==> ee[|ee| - 1] < s[b]
    ensures Canonical(Replace(s, a, b, ss), Replace(e, a, b, ee))
  {
    var s', e' := Replace(s, a, b, ss), Replace(e, a, b, ee);
    forall i, j | 0 <= i < j < |s'| ensures e'[i] < s'[j] {
      if a <= i < a + |ss| && a <= j < a + |ss| {
        assert ee[i - a] < ss[j - a];
      }
    }
  }

  /** The set of the edited list: what the replaced intervals held gives way to `ss`/`ee`. */
  lemma ReplaceBlocks(s: seq<int>, e: seq<int>, a: nat, b: nat, ss: seq<int>, ee: seq<int>, gone: set<int>)
    requires Canonical(s, e) && |ss| == |ee| && a <= b <= |s|
    requires forall p :: p in gone <==> InRuns(s, e, a, b, p)
    ensures Blocks(Replace(s, a, b, ss), Replace(e, a, b, ee)) == (Blocks(s, e) - gone) + Blocks(ss, ee)
  {
    var s', e' := Replace(s, a, b, ss), Replace(e, a, b, ee);
    forall p ensures p in Blocks(s', e') <==> p in (Blocks(s, e) - gone) + Blocks(ss, ee) {
      ReplaceRuns(s, e, a, b, ss, ee, p);
      RunsSplit(s, e, a, b, p);
      OneRun(s, e, a, b, p);
    }
  }

  /** A position lies in at most one part of a canonical list. */
  lemma OneRun(s: seq<int>, e: seq<int>, a: nat, b: nat, p: int)
    requires Canonical(s, e) && a <= b <= |s|
    ensures InRuns(s, e, a, b, p) ==> !InRuns(s, e, 0, a, p) && !InRuns(s, e, b, |s|, p)
  {
  }

  // --- what an allocation near a cursor returns -------------------------------

  /** The position an allocation starts from: the least free position at or after the
      cursor, or the least of all when there is none. */
  ghost predicate IsNearest(pool: set<int>, cursor: int, p: int) {
    && p in pool
    && if p >= cursor then forall q :: q in pool && cursor <= q ==> p <= q
       else forall q :: q in pool ==> p <= q < cursor
  }

  /** Spans cut one after another from `pool`: disjoint, non-empty, each from the beginning
      of a run (the first may start inside one), and each to the end of what is left of the
      run unless that exhausts the request. */
  ghost predicate Cut(pool: set<int>, blocks: int, spans: seq<Interval>) {
    && Disjoint(spans)
    && (forall i :: 0 <= i < |spans| ==> spans[i].lo < spans[i].hi)
    && (forall p :: InSpans(spans, p) ==> p in pool)
    && SpanTotal(spans) <= blocks
    && (forall i :: 1 <= i < |spans| ==> spans[i].lo - 1 !in pool)
    && (forall i :: 0 <= i < |spans| - 1 ==> ToRunEnd(pool, spans, i))
    && (SpanTotal(spans) < blocks && spans != [] ==> ToRunEnd(pool, spans, |spans| - 1))
  }

  ghost predicate ToRunEnd(pool: set<int>, spans: seq<Interval>, i: nat)
    requires i < |spans|
  {
    spans[i].hi !in pool || spans[i].hi == spans[0].lo
  }

  /** The first position of each run of the pool. */
  ghost function RunStarts(pool: set<int>): (r: set<int>) {
    set p | p in pool && BeginsRun(pool, p)
  }

  predicate BeginsRun(pool: set<int>, p: int) {
    p in pool && p - 1 !in pool
  }

  /** The cursor cuts a run in two. */
  predicate Inside(pool: set<int>, cursor: int) {
    cursor in pool && cursor - 1 in pool
  }

  /** How many spans an allocation may give. It counts the runs it has visited against the runs that
      are left, so it gives up about half way round. */
  ghost function SpanLimit(pool: set<int>, cursor: int, maxSpans: int): int {
    Min(maxSpans, (|RunStarts(pool)| + (if Inside(pool, cursor) then 2 else 1)) / 2)
  }

  /** What the first i spans leave. */
  ghost function Rest(pool: set<int>, spans: seq<Interval>, i: nat): set<int>
    requires i <= |spans|
  {
    pool - SpanBlocks(spans[..i])
  }

  /** Each span starts at what is left nearest to the end of the one before. */
  ghost predicate Onward(pool: set<int>, spans: seq<Interval>) {
    forall i :: 0 < i < |spans| ==> IsNearest(Rest(pool, spans, i), spans[i - 1].hi, spans[i].lo)
  }

  /** The first span starts nearest to the cursor, each next one nearest to the one before; and the
      request is met unless there are as many spans as there may be. */
  ghost predicate TakenNear(pool: set<int>, cursor: int, blocks: int, maxSpans: int, spans: seq<Interval>) {
    && (spans == [] <==> pool == {} || blocks <= 0 || maxSpans <= 0)
    && (spans != [] ==>
          && Cut(pool, blocks, spans) && IsNearest(pool, cursor, spans[0].lo) && Onward(pool, spans)
          && |spans| <= SpanLimit(pool, cursor, maxSpans)
          && (SpanTotal(spans) < blocks ==> |spans| == SpanLimit(pool, cursor, maxSpans)))
  }

  lemma OnwardNext(pool: set<int>, spans: seq<Interval>, s: Interval)
    requires Onward(pool, spans)
    requires spans != [] ==> IsNearest(pool - SpanBlocks(spans), spans[|spans| - 1].hi, s.lo)
    ensures Onward(pool, spans + [s])
  {
    hide IsNearest, SpanBlocks;
    var longer := spans + [s];
    forall i | 0 < i < |longer| ensures IsNearest(Rest(pool, longer, i), longer[i - 1].hi, longer[i].lo) {
      assert longer[..i] == spans[..i];
      if i == |spans| { assert spans[..i] == spans; } else { assert IsNearest(Rest(pool, spans, i), spans[i - 1].hi, spans[i].lo); }
    }
  }

  lemma SomeRun(pool: set<int>)
    requires pool != {}
    ensures |RunStarts(pool)| >= 1
  {
    var p := Least(pool);
    assert p in RunStarts(pool);
  }

  /** There are as many runs as intervals in the list. */
  lemma RunsCounted(s: seq<int>, e: seq<int>)
    requires Canonical(s, e)
    ensures RunStarts(Blocks(s, e)) == Elements(s) && |RunStarts(Blocks(s, e))| == |s|
  {
    forall p ensures BeginsRun(Blocks(s, e), p) <==> p in Elements(s) {
      BeginsAt(s, e, p);
    }
    ElementsCounted(s);
  }

  lemma BeginsAt(s: seq<int>, e: seq<int>, p: int)
    requires Canonical(s, e)
    ensures BeginsRun(Blocks(s, e), p) <==> p in Elements(s)
  {
    if p in Elements(s) {
      var i :| 0 <= i < |s| && s[i] == p;
      RunEdges(s, e, i);
      assert p in Range(s[i], e[i]);
    }
    if BeginsRun(Blocks(s, e), p) {
      var i :| 0 <= i < |s| && s[i] <= p < e[i];
      RunEdges(s, e, i);
      assert !(s[i] <= p - 1) && p == s[i];
    }
  }

  ghost function Elements(s: seq<int>): set<int> {
    set i | 0 <= i < |s| :: s[i]
  }

  lemma {:induction false} ElementsCounted(s: seq<int>)
    requires forall i, j :: 0 <= i < j < |s| ==> s[i] < s[j]
    ensures |Elements(s)| == |s|
  {
    if s == [] {
      assert Elements(s) == {};
    } else {
      var n := |s| - 1;
      ElementsCounted(s[..n]);
      assert Elements(s) == Elements(s[..n]) + {s[n]};
    }
  }

  // --- a single span is always to be had --------------------------------------

  lemma {:induction false} Least(s: set<int>) returns (m: int)
    requires s != {}
    ensures m in s && forall q :: q in s ==> m <= q
  {
    m := Pick(s);
    var others := s - {m};
    assert forall q :: q in s ==> q == m || q in others;
    if others != {} {
      var rest := Least(others);
      if rest < m { m := rest; }
    }
  }

  lemma Nearest(pool: set<int>, cursor: int) returns (p: int)
    requires pool != {}
    ensures IsNearest(pool, cursor, p)
  {
    var later := set q | q in pool && cursor <= q;
    if later == {} {
      p := Least(pool);
      assert p !in later;
      forall q | q in pool ensures q < cursor { assert q !in later; }
    } else {
      p := Least(later);
      forall q | q in pool && cursor <= q ensures p <= q { assert q in later; }
    }
  }

  lemma {:induction false} RunTo(pool: set<int>, lo: int) returns (hi: int)
    ensures lo <= hi && hi !in pool && forall p :: lo <= p < hi ==> p in pool
    decreases pool
  {
    hi := lo;
    if lo in pool {
      hi := RunTo(pool - {lo}, lo + 1);
      assert hi in pool ==> hi in pool - {lo};
    }
  }

  lemma SpanNear(pool: set<int>, cursor: int, blocks: int) returns (s: Interval)
    requires pool != {} && blocks > 0
    ensures TakenNear(pool, cursor, blocks, 1, [s])
  {
    var lo := Nearest(pool, cursor);
    var hi := RunTo(pool, lo);
    s := Interval(lo, if hi - lo <= blocks then hi else lo + blocks);
    var spans := [s];
    assert spans[..0] == [] && SpanTotal(spans) == s.hi - s.lo;
    SomeRun(pool);
  }

  /** [lo, hi) is a run of what the cuts have left of the pool. */
  ghost predicate RunLeft(pool: set<int>, spans: seq<Interval>, lo: int, hi: int) {
    && (forall p :: lo <= p < hi ==> p in pool && !InSpans(spans, p))
    && (hi in pool ==> InSpans(spans, hi))
    && (spans != [] && lo - 1 in pool ==> InSpans(spans, lo - 1))
  }

  lemma RunStart(pool: set<int>, blocks: int, spans: seq<Interval>, lo: int, hi: int)
    requires Cut(pool, blocks, spans) && SpanTotal(spans) < blocks
    requires lo < hi && RunLeft(pool, spans, lo, hi) && spans != []
    ensures lo - 1 !in pool
  {
    if lo - 1 in pool {
      var i :| 0 <= i < |spans| && spans[i].lo <= lo - 1 < spans[i].hi;
      assert spans[i].hi == lo by { assert !InSpans(spans, lo); }
      assert ToRunEnd(pool, spans, i);
      assert InSpans(spans, lo);
      assert false;
    }
  }

  lemma RunEnd(pool: set<int>, blocks: int, spans: seq<Interval>, lo: int, hi: int)
    requires Cut(pool, blocks, spans) && lo < hi && RunLeft(pool, spans, lo, hi)
    ensures hi in pool ==> spans != [] && hi == spans[0].lo
  {
    if hi in pool {
      var i :| 0 <= i < |spans| && spans[i].lo <= hi < spans[i].hi;
      assert hi - 1 in pool && !InSpans(spans, hi - 1);
      assert spans[i].lo == hi;
      assert i == 0;
    }
  }

  lemma RunApart(pool: set<int>, spans: seq<Interval>, lo: int, hi: int, i: nat)
    requires lo < hi && RunLeft(pool, spans, lo, hi) && i < |spans| && spans[i].lo < spans[i].hi
    ensures spans[i].hi <= lo || hi <= spans[i].lo
  {
    if spans[i].lo < hi && lo < spans[i].hi {
      assert InSpans(spans, if spans[i].lo < lo then lo else spans[i].lo);
      assert false;
    }
  }

  /** Cutting one more span, [lo, to) out of a run [lo, hi) of what is left. */
  lemma CutNext(pool: set<int>, blocks: int, spans: seq<Interval>, lo: int, to: int, hi: int)
    requires Cut(pool, blocks, spans) && SpanTotal(spans) < blocks
    requires lo < to <= hi && RunLeft(pool, spans, lo, hi)
    requires SpanTotal(spans) + (to - lo) <= blocks
    requires to == hi || SpanTotal(spans) + (to - lo) == blocks
    ensures Cut(pool, blocks, spans + [Interval(lo, to)])
  {
    hide SpanTotal, Disjoint, SpanBlocks, InSpans, RunLeft;
    var s := Interval(lo, to);
    SpansAppend(spans, s);
    DisjointNext(pool, spans, lo, to, hi);
    WithinNext(pool, spans, lo, to, hi);
    if spans != [] {
      RunStart(pool, blocks, spans, lo, hi);
    }
    RunEnd(pool, blocks, spans, lo, hi);
    var spans' := spans + [s];
    forall i | 1 <= i < |spans'| ensures spans'[i].lo - 1 !in pool {
      if i < |spans| { assert spans'[i] == spans[i]; }
    }
    forall i | 0 <= i < |spans'| - 1 ensures ToRunEnd(pool, spans', i) {
      assert ToRunEnd(pool, spans, i) && spans'[i] == spans[i];
    }
  }

  lemma WithinNext(pool: set<int>, spans: seq<Interval>, lo: int, to: int, hi: int)
    requires lo < to <= hi && RunLeft(pool, spans, lo, hi)
    requires forall p :: InSpans(spans, p) ==> p in pool
    ensures forall p :: InSpans(spans + [Interval(lo, to)], p) ==> p in pool
  {
    var s := Interval(lo, to);
    SpansAppend(spans, s);
    forall p | InSpans(spans + [s], p) ensures p in pool {
      assert p in SpanBlocks(spans + [s]);
    }
  }

  lemma DisjointNext(pool: set<int>, spans: seq<Interval>, lo: int, to: int, hi: int)
    requires lo < to <= hi && RunLeft(pool, spans, lo, hi)
    requires Disjoint(spans) && forall i :: 0 <= i < |spans| ==> spans[i].lo < spans[i].hi
    ensures Disjoint(spans + [Interval(lo, to)])
  {
    forall i | 0 <= i < |spans| ensures spans[i].hi <= lo || to <= spans[i].lo {
      RunApart(pool, spans, lo, hi, i);
    }
  }
}
