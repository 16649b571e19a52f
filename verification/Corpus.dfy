/** From positions to samples: fixed-size blocks of the corpus in a shuffled order. */
module Corpus {
  import opened Arithmetic
  import opened Intervals

  /** N samples in blocks of K; the last block is short when K does not divide N. */
  datatype BlockSpace = BlockSpace(numSamples: int, blockSize: int)

  predicate SpaceOk(space: BlockSpace) {
    space.numSamples >= 1 && space.blockSize >= 1
  }

  function NumBlocks(space: BlockSpace): (m: int)
    requires SpaceOk(space)
    ensures m >= 1 && (m - 1) * space.blockSize < space.numSamples <= m * space.blockSize
  {
    var q := -space.numSamples / space.blockSize;
    assert q * space.blockSize <= -space.numSamples < q * space.blockSize + space.blockSize;
    assert (-q - 1) * space.blockSize == -(q * space.blockSize) - space.blockSize;
    -q
  }

  /** A phase's worth of blocks: enough for its samples, and not one block more. */
  function BlocksForPhase(space: BlockSpace, samples: int): (blocks: int)
    requires SpaceOk(space) && samples >= 1
    ensures blocks >= 1 && (blocks - 1) * space.blockSize < samples <= blocks * space.blockSize
  {
    NumBlocks(BlockSpace(samples, space.blockSize))
  }

  // --- runs of sample indices -------------------------------------------------

  function Indices(lo: int, hi: int): (r: seq<int>)
    ensures |r| == Max(0, hi - lo)
  {
    seq(Max(0, hi - lo), i => lo + i)
  }

  lemma {:induction false} IndicesCount(lo: int, hi: int, x: int)
    ensures multiset(Indices(lo, hi))[x] == if lo <= x < hi then 1 else 0
    decreases hi - lo
  {
    if lo < hi {
      IndicesCount(lo, hi - 1, x);
      assert Indices(lo, hi) == Indices(lo, hi - 1) + [hi - 1];
    }
  }

  // --- permutations -----------------------------------------------------------

  /** Every block id in [0, m), once. */
  ghost predicate IsPermutation(order: seq<int>, m: int) {
    multiset(order) == multiset(Indices(0, m))
  }

  lemma {:induction false} CountTwice(s: seq<int>, i: nat, j: nat)
    requires i < j < |s| && s[i] == s[j]
    ensures multiset(s)[s[i]] >= 2
  {
    assert s == s[..j] + [s[j]] + s[j + 1..];
    assert s[i] in s[..j];
    assert multiset(s[..j])[s[i]] >= 1;
  }

  /** A position for every block, and only one. */
  lemma PermutationIsOneToOne(order: seq<int>, m: int)
    requires IsPermutation(order, m) && m >= 0
    ensures |order| == m
    ensures forall p :: 0 <= p < |order| ==> 0 <= order[p] < m
    ensures forall p, q :: 0 <= p < q < |order| ==> order[p] != order[q]
    ensures forall b :: 0 <= b < m ==> b in order
  {
    assert |multiset(order)| == |order| && |multiset(Indices(0, m))| == m;
    forall p | 0 <= p < |order| ensures 0 <= order[p] < m {
      assert order[p] in multiset(order);
      IndicesCount(0, m, order[p]);
    }
    forall p, q | 0 <= p < q < |order| ensures order[p] != order[q] {
      IndicesCount(0, m, order[p]);
      if order[p] == order[q] { CountTwice(order, p, q); }
    }
    forall b | 0 <= b < m ensures b in order {
      IndicesCount(0, m, b);
      assert b in multiset(order);
    }
  }

  function Swapped(s: seq<int>, i: int, j: int): (r: seq<int>)
    requires 0 <= i < |s| && 0 <= j < |s|
    ensures |r| == |s|
  {
    s[i := s[j]][j := s[i]]
  }

  lemma SwapKeeps(s: seq<int>, i: int, j: int)
    requires 0 <= i < |s| && 0 <= j < |s|
    ensures multiset(Swapped(s, i, j)) == multiset(s)
  {
  }

  /** The random draws of one shuffle: below each position, a place to swap with. */
  predicate DrawsOk(draws: seq<int>, n: int) {
    |draws| == n && forall i :: 0 <= i < n ==> 0 <= draws[i] <= i
  }

  /** Positions n-1 down to 1 swapped with their draws. */
  function Shuffled(s: seq<int>, draws: seq<int>, n: int): (r: seq<int>)
    requires 0 <= n <= |s| && DrawsOk(draws, |s|)
    ensures |r| == |s|
    decreases n
  {
    if n <= 1 then s else Shuffled(Swapped(s, n - 1, draws[n - 1]), draws, n - 1)
  }

  lemma {:induction false} ShuffleKeeps(s: seq<int>, draws: seq<int>, n: int)
    requires 0 <= n <= |s| && DrawsOk(draws, |s|)
    ensures multiset(Shuffled(s, draws, n)) == multiset(s)
    decreases n
  {
    if n > 1 {
      SwapKeeps(s, n - 1, draws[n - 1]);
      ShuffleKeeps(Swapped(s, n - 1, draws[n - 1]), draws, n - 1);
    }
  }

  /** Fisher-Yates, in place. */
  method Shuffle(a: array<int>, draws: seq<int>)
    requires DrawsOk(draws, a.Length)
    modifies a
    ensures a[..] == Shuffled(old(a[..]), draws, a.Length)
    ensures multiset(a[..]) == multiset(old(a[..]))
  {
    ShuffleKeeps(a[..], draws, a.Length);
    var n := a.Length;
    while n > 1
      invariant 0 <= n <= a.Length
      invariant Shuffled(a[..], draws, n) == Shuffled(old(a[..]), draws, a.Length)
    {
      n := n - 1;
      ghost var before := a[..];
      var j := draws[n];
      a[n], a[j] := a[j], a[n];
      assert a[..] == Swapped(before, n, j);
    }
  }

  /** The order in which an epoch reads the blocks. */
  method Permutation(m: nat, draws: seq<int>) returns (order: seq<int>)
    requires DrawsOk(draws, m)
    ensures IsPermutation(order, m) && order == Shuffled(Indices(0, m), draws, m)
  {
    var a := new int[m](i => i);
    assert a[..] == Indices(0, m);
    Shuffle(a, draws);
    order := a[..];
  }

  // --- the samples of a span --------------------------------------------------

  function StartOf(block: int, size: int): int {
    block * size
  }

  function BlockSamples(space: BlockSpace, block: int): (r: seq<int>) {
    var start := StartOf(block, space.blockSize);
    Indices(start, Min(start + space.blockSize, space.numSamples))
  }

  /** A sample lies in the block its index falls in. */
  predicate InBlock(space: BlockSpace, block: int, x: int)
    requires SpaceOk(space)
  {
    0 <= x < space.numSamples && x / space.blockSize == block
  }

  lemma BlockOf(x: int, size: int, block: int)
    requires size >= 1
    ensures x / size == block <==> StartOf(block, size) <= x < StartOf(block, size) + size
    ensures block >= 0 ==> StartOf(block, size) >= 0
  {
    var q := x / size;
    assert q * size <= x < q * size + size;
    BlockBelow(q, block, size);
    BlockBelow(block, q, size);
    if q < block { BlockBelow(q + 1, block, size); }
    if block < q { BlockBelow(block + 1, q, size); }
    BlockBelow(-1, block, size);
  }

  lemma BlockCount(space: BlockSpace, block: int, x: int)
    requires SpaceOk(space) && 0 <= block
    ensures multiset(BlockSamples(space, block))[x] == if InBlock(space, block, x) then 1 else 0
  {
    hide Indices, StartOf;
    var start := StartOf(block, space.blockSize);
    IndicesCount(start, Min(start + space.blockSize, space.numSamples), x);
    BlockOf(x, space.blockSize, block);
  }

  /** Every sample index of positions [start, end), in the order they are read. */
  function SpanIndices(space: BlockSpace, order: seq<int>, start: int, end: int): seq<int>
    requires 0 <= start && end <= |order|
    decreases end - start
  {
    if start >= end then [] else SpanIndices(space, order, start, end - 1) + BlockSamples(space, order[end - 1])
  }

  method ReadSpan(space: BlockSpace, order: seq<int>, start: int, end: int) returns (out: seq<int>)
    requires 0 <= start <= end <= |order|
    ensures out == SpanIndices(space, order, start, end)
  {
    out := [];
    var p := start;
    while p < end
      invariant start <= p <= end && out == SpanIndices(space, order, start, p)
    {
      out := out + BlockSamples(space, order[p]);
      p := p + 1;
    }
  }

  /** x is read somewhere in [start, end). */
  ghost predicate ReadIn(space: BlockSpace, order: seq<int>, start: int, end: int, x: int)
    requires SpaceOk(space)
  {
    exists p :: start <= p < end && 0 <= p < |order| && InBlock(space, order[p], x)
  }

  /** A span reads each of its samples once, and nothing else. */
  lemma {:induction false} SpanReadsOnce(space: BlockSpace, order: seq<int>, start: int, end: int, x: int)
    requires SpaceOk(space) && IsPermutation(order, NumBlocks(space)) && 0 <= start && end <= |order|
    ensures multiset(SpanIndices(space, order, start, end))[x] == if ReadIn(space, order, start, end, x) then 1 else 0
    decreases end - start
  {
    hide BlockSamples, NumBlocks, IsPermutation;
    if start < end {
      SpanReadsOnce(space, order, start, end - 1, x);
      PermutationIsOneToOne(order, NumBlocks(space));
      BlockCount(space, order[end - 1], x);
      var before := multiset(SpanIndices(space, order, start, end - 1))[x];
      assert multiset(SpanIndices(space, order, start, end))[x] == before + multiset(BlockSamples(space, order[end - 1]))[x];
      if InBlock(space, order[end - 1], x) {
        assert !ReadIn(space, order, start, end - 1, x);
      } else {
        assert ReadIn(space, order, start, end, x) <==> ReadIn(space, order, start, end - 1, x);
      }
    }
  }

  /** The blocks partition the corpus: every sample is read at exactly one position. */
  lemma EverySampleOnce(space: BlockSpace, order: seq<int>, x: int)
    requires SpaceOk(space) && IsPermutation(order, NumBlocks(space)) && 0 <= x < space.numSamples
    ensures exists p :: 0 <= p < |order| && InBlock(space, order[p], x)
    ensures forall p, q :: 0 <= p < |order| && 0 <= q < |order| && InBlock(space, order[p], x) && InBlock(space, order[q], x) ==> p == q
  {
    hide NumBlocks, IsPermutation;
    PermutationIsOneToOne(order, NumBlocks(space));
    BlockInRange(space, x);
    assert x / space.blockSize in order;
    var p :| 0 <= p < |order| && order[p] == x / space.blockSize;
    assert InBlock(space, order[p], x);
  }

  lemma BlockInRange(space: BlockSpace, x: int)
    requires SpaceOk(space) && 0 <= x < space.numSamples
    ensures 0 <= x / space.blockSize < NumBlocks(space)
  {
    var b, m, size := x / space.blockSize, NumBlocks(space), space.blockSize;
    assert b * size <= x < b * size + size;
    BlockBelow(b, m, size);
    BlockBelow(-1, b, size);
  }

  /** Blocks that start in order are numbered in order. */
  lemma BlockBelow(a: int, b: int, size: int)
    requires size >= 1
    ensures a * size < b * size <==> a < b
    ensures a <= b ==> a * size <= b * size
  {
  }

  /** Read from end to end, the whole epoch is the corpus, rearranged. */
  lemma EpochIsCorpus(space: BlockSpace, order: seq<int>)
    requires SpaceOk(space) && IsPermutation(order, NumBlocks(space))
    ensures multiset(SpanIndices(space, order, 0, |order|)) == multiset(Indices(0, space.numSamples))
  {
    var all, corpus := multiset(SpanIndices(space, order, 0, |order|)), multiset(Indices(0, space.numSamples));
    forall x ensures all[x] == corpus[x] {
      SpanReadsOnce(space, order, 0, |order|, x);
      IndicesCount(0, space.numSamples, x);
      if 0 <= x < space.numSamples { EverySampleOnce(space, order, x); }
    }
  }

  /** Spans that share no position share no sample. */
  lemma DisjointSpansDisjointSamples(space: BlockSpace, order: seq<int>, a: Interval, b: Interval, x: int)
    requires SpaceOk(space) && IsPermutation(order, NumBlocks(space))
    requires 0 <= a.lo && a.hi <= |order| && 0 <= b.lo && b.hi <= |order| && (a.hi <= b.lo || b.hi <= a.lo)
    ensures !(x in SpanIndices(space, order, a.lo, a.hi) && x in SpanIndices(space, order, b.lo, b.hi))
  {
    SpanReadsOnce(space, order, a.lo, a.hi, x);
    SpanReadsOnce(space, order, b.lo, b.hi, x);
    PermutationIsOneToOne(order, NumBlocks(space));
  }
}
