/** One phase after another: leased spans become per-rank sample lists, and what does not divide
    evenly rides along to the next phase. */
module Phases {
  import opened Wrappers
  import opened Arithmetic
  import opened Intervals
  import opened Corpus

  type Samples = seq<int>

  // --- striding over ranks ----------------------------------------------------

  /** Samples in so many whole rows of one per rank. */
  function Cells(rows: int, world: int): int {
    rows * world
  }

  lemma RowAfter(rows: int, world: int)
    ensures Cells(rows, world) == Cells(rows - 1, world) + world
    ensures 1 <= rows && 0 <= world ==> 0 <= Cells(rows - 1, world)
    ensures Cells(0, world) == 0
  {
  }

  lemma {:induction false} CellsWithin(i: int, rows: int, world: int)
    requires 0 <= i < rows && 0 < world
    ensures 0 <= Cells(i, world) && Cells(i, world) + world <= Cells(rows, world)
    decreases rows - i
  {
    RowAfter(i + 1, world);
    if i + 1 < rows { CellsWithin(i + 1, rows, world); }
  }

  /** Every world-th sample from `rank`, `rows` of them. */
  function Stride(s: Samples, rank: int, world: int, rows: int): (r: Samples)
    requires 0 <= rank < world && 0 <= rows && Cells(rows, world) <= |s|
    ensures |r| == rows
  {
    seq(rows, i requires 0 <= i < rows => At(s, rank, world, rows, i))
  }

  function At(s: Samples, rank: int, world: int, rows: int, i: int): int
    requires 0 <= rank < world && 0 <= i < rows && Cells(rows, world) <= |s|
  {
    CellsWithin(i, rows, world);
    s[rank + Cells(i, world)]
  }

  /** What the first `ranks` ranks get, together. */
  ghost function Together(s: Samples, ranks: int, world: int, rows: int): multiset<int>
    requires 0 <= ranks <= world && 0 <= rows && Cells(rows, world) <= |s|
    decreases ranks
  {
    if ranks == 0 then multiset{}
    else Together(s, ranks - 1, world, rows) + multiset(Stride(s, ranks - 1, world, rows))
  }

  lemma StrideRow(s: Samples, rank: int, world: int, rows: int)
    requires 0 <= rank < world && 0 < rows && Cells(rows, world) <= |s|
    ensures Cells(rows - 1, world) + world == Cells(rows, world)
    ensures Stride(s, rank, world, rows) == Stride(s, rank, world, rows - 1) + [s[Cells(rows - 1, world) + rank]]
  {
    RowAfter(rows, world);
  }

  lemma NobodyYet(s: Samples, world: int, rows: int)
    requires 0 < world && 0 <= rows && Cells(rows, world) <= |s|
    ensures Together(s, 0, world, rows) == multiset{}
  {
  }

  lemma TogetherUnfolds(s: Samples, ranks: int, world: int, rows: int)
    requires 0 < ranks <= world && 0 <= rows && Cells(rows, world) <= |s|
    ensures Together(s, ranks, world, rows) == Together(s, ranks - 1, world, rows) + multiset(Stride(s, ranks - 1, world, rows))
  {
    hide Stride;
  }

  lemma RowExtends(s: Samples, from: int, ranks: int)
    requires 0 <= from && 0 < ranks && from + ranks <= |s|
    ensures s[from..from + ranks] == s[from..from + ranks - 1] + [s[from + ranks - 1]]
  {
  }

  lemma RowGrows(row: Samples, row': Samples, x: int, others: multiset<int>, mine: Samples)
    requires row' == row + [x]
    ensures (others + multiset(row)) + multiset(mine + [x]) == (others + multiset(mine)) + multiset(row')
  {
  }

  /** One more row: its samples go to one rank each. */
  lemma {:induction false} TogetherRow(s: Samples, ranks: int, world: int, rows: int)
    requires 0 <= ranks <= world && 0 < world && 0 < rows && Cells(rows, world) <= |s|
    ensures Cells(rows - 1, world) + world == Cells(rows, world) && 0 <= Cells(rows - 1, world)
    ensures Together(s, ranks, world, rows)
         == Together(s, ranks, world, rows - 1) + multiset(s[Cells(rows - 1, world)..Cells(rows - 1, world) + ranks])
    decreases ranks
  {
    hide *;
    var from := Cells(rows - 1, world);
    RowAfter(rows, world);
    if ranks > 0 {
      TogetherRow(s, ranks - 1, world, rows);
      StrideRow(s, ranks - 1, world, rows);
      TogetherUnfolds(s, ranks, world, rows);
      TogetherUnfolds(s, ranks, world, rows - 1);
      RowExtends(s, from, ranks);
      RowGrows(s[from..from + ranks - 1], s[from..from + ranks], s[from + ranks - 1],
               Together(s, ranks - 1, world, rows - 1), Stride(s, ranks - 1, world, rows - 1));
    } else {
      NobodyYet(s, world, rows);
      NobodyYet(s, world, rows - 1);
      assert s[from..from] == [];
    }
  }

  lemma Extends(s: Samples, from: int, world: int)
    requires 0 <= from <= from + world <= |s|
    ensures multiset(s[..from + world]) == multiset(s[..from]) + multiset(s[from..from + world])
  {
    assert s[..from + world] == s[..from] + s[from..from + world];
  }

  /** The ranks share out exactly the samples that divide evenly. */
  lemma {:induction false} RanksShareOut(s: Samples, world: int, rows: int)
    requires 0 < world && 0 <= rows && Cells(rows, world) <= |s|
    ensures Together(s, world, world, rows) == multiset(s[..Cells(rows, world)])
    decreases rows
  {
    hide Together, Stride, Cells;
    RowAfter(rows, world);
    if rows == 0 {
      NoRows(s, world, world);
      assert s[..0] == [];
    } else {
      TogetherRow(s, world, world, rows);
      RanksShareOut(s, world, rows - 1);
      Extends(s, Cells(rows - 1, world), world);
    }
  }

  lemma {:induction false} NoRows(s: Samples, ranks: int, world: int)
    requires 0 <= ranks <= world
    ensures Together(s, ranks, world, 0) == multiset{}
    decreases ranks
  {
    if ranks > 0 {
      NoRows(s, ranks - 1, world);
      assert Stride(s, ranks - 1, world, 0) == [];
    }
  }

  // --- one phase --------------------------------------------------------------

  function LeasedSamples(space: BlockSpace, order: seq<int>, spans: seq<Interval>): Samples
    requires SpansInRange(order, spans)
  {
    if spans == [] then []
    else
      var n := |spans| - 1;
      LeasedSamples(space, order, spans[..n]) + SpanIndices(space, order, spans[n].lo, spans[n].hi)
  }

  predicate SpansInRange(order: seq<int>, spans: seq<Interval>) {
    forall i :: 0 <= i < |spans| ==> 0 <= spans[i].lo <= spans[i].hi <= |order|
  }

  /** How one phase's samples are mixed: the draws when shuffling, nothing when not. */
  function Mixed(s: Samples, draws: seq<int>, shuffle: bool): (r: Samples)
    requires shuffle ==> DrawsOk(draws, |s|)
    ensures |r| == |s|
  {
    if shuffle then Shuffled(s, draws, |s|) else s
  }

  lemma MixedKeeps(s: Samples, draws: seq<int>, shuffle: bool)
    requires shuffle ==> DrawsOk(draws, |s|)
    ensures multiset(Mixed(s, draws, shuffle)) == multiset(s)
  {
    if shuffle { ShuffleKeeps(s, draws, |s|); }
  }

  /** How many samples of a phase divide evenly over the ranks. */
  function Rows(samples: nat, world: int): (rows: int)
    requires world >= 1
    ensures 0 <= rows && 0 <= rows * world <= samples < rows * world + world
  {
    var rows := samples / world;
    assert rows * world + samples % world == samples;
    rows
  }

  datatype Phase = Phase(index: int, epoch: int, spans: seq<Interval>, indices: Samples, blocks: int, samplesGlobal: int)

  /** The mixed samples of a phase: a function of what every rank is told, and of no rank. */
  function PhaseSamples(carry: Samples, leased: Samples, draws: seq<int>, shuffle: bool): (r: Samples)
    requires shuffle ==> DrawsOk(draws, |carry| + |leased|)
    ensures |r| == |carry| + |leased|
  {
    Mixed(carry + leased, draws, shuffle)
  }

  function CarryOf(s: Samples, world: int): (r: Samples)
    requires world >= 1
    ensures |r| < world
  {
    s[Rows(|s|, world) * world..]
  }

  /** Nothing is lost in a phase: what the ranks get and what is carried on are what was carried in
      and what was leased. */
  lemma PhaseConserves(carry: Samples, leased: Samples, draws: seq<int>, shuffle: bool, world: int)
    requires world >= 1 && (shuffle ==> DrawsOk(draws, |carry| + |leased|))
    ensures var s := PhaseSamples(carry, leased, draws, shuffle);
            Together(s, world, world, Rows(|s|, world)) + multiset(CarryOf(s, world)) == multiset(carry) + multiset(leased)
  {
    var s := PhaseSamples(carry, leased, draws, shuffle);
    MixedKeeps(carry + leased, draws, shuffle);
    var usable := Rows(|s|, world) * world;
    RanksShareOut(s, world, Rows(|s|, world));
    assert s == s[..usable] + s[usable..];
  }

  class DARLDataSource {
    const space: BlockSpace
    const rank: int
    const worldSize: int
    const shuffle: bool
    var epoch: int
    var carry: Samples
    var phaseIndex: int
    var samplesSeen: int
    var blocksSeen: int

    predicate Valid()
      reads this
    {
      SpaceOk(space) && 0 <= rank < worldSize && |carry| < worldSize
    }

    constructor (space: BlockSpace, rank: int, worldSize: int, shuffle: bool)
      requires SpaceOk(space) && 0 <= rank < Max(1, worldSize)
      ensures Valid() && carry == [] && phaseIndex == samplesSeen == blocksSeen == epoch == 0
      ensures this.space == space && this.rank == rank && this.worldSize == Max(1, worldSize) && this.shuffle == shuffle
    {
      this.space, this.rank, this.worldSize, this.shuffle := space, rank, Max(1, worldSize), shuffle;
      epoch, carry, phaseIndex, samplesSeen, blocksSeen := 0, [], 0, 0, 0;
    }

    /** Expand spans to sample indices, after the carried ones. */
    method Expand(spans: seq<Interval>, order: seq<int>) returns (indices: Samples, blocks: int)
      requires SpansInRange(order, spans)
      ensures indices == carry + LeasedSamples(space, order, spans) && blocks == SpanTotal(spans)
    {
      indices, blocks := carry, 0;
      var i := 0;
      while i < |spans|
        invariant 0 <= i <= |spans|
        invariant indices == carry + LeasedSamples(space, order, spans[..i]) && blocks == SpanTotal(spans[..i])
      {
        assert spans[..i + 1][..i] == spans[..i];
        var out := ReadSpan(space, order, spans[i].lo, spans[i].hi);
        indices := indices + out;
        blocks := blocks + spans[i].hi - spans[i].lo;
        i := i + 1;
      }
      assert spans[..i] == spans;
    }

    /** Mix, keep the remainder for the next phase, and take this rank's share. */
    method BuildPhase(spans: seq<Interval>, order: seq<int>, draws: seq<int>) returns (phase: Phase)
      requires Valid() && SpansInRange(order, spans)
      requires shuffle ==> DrawsOk(draws, |carry| + |LeasedSamples(space, order, spans)|)
      modifies this`carry
      ensures Valid()
      ensures var s := PhaseSamples(old(carry), LeasedSamples(space, order, spans), draws, shuffle);
              var rows := Rows(|s|, worldSize);
              && carry == CarryOf(s, worldSize) && phase.indices == Stride(s, rank, worldSize, rows)
              && phase.samplesGlobal == rows * worldSize && phase.blocks == SpanTotal(spans) && phase.spans == spans
              && phase.index == phaseIndex && phase.epoch == epoch
    {
      var indices, blocks := Expand(spans, order);
      if shuffle {
        var a := new int[|indices|](i requires 0 <= i < |indices| => indices[i]);
        assert a[..] == indices;
        Shuffle(a, draws);
        indices := a[..];
      }
      var rows := Rows(|indices|, worldSize);
      carry := indices[rows * worldSize..];
      phase := Phase(phaseIndex, epoch, spans, Stride(indices, rank, worldSize, rows), blocks, rows * worldSize);
    }

    /** The next phase of a stream, or nothing at the end of the epoch; `told` is what the leader
        broadcast. */
    method NextPhase(told: Option<Payload>, order: seq<int>, draws: seq<int>) returns (phase: Option<Phase>)
      requires Valid() && (told.Some? ==> SpansInRange(order, told.value.spans))
      requires told.Some? && shuffle ==> DrawsOk(draws, |carry| + |LeasedSamples(space, order, told.value.spans)|)
      modifies this
      ensures Valid() && (phase.Some? <==> told.Some?)
      ensures told.None? ==> carry == old(carry) && phaseIndex == old(phaseIndex) && samplesSeen == old(samplesSeen)
                             && blocksSeen == old(blocksSeen) && epoch == old(epoch)
      ensures told.Some? ==>
        var s := PhaseSamples(old(carry), LeasedSamples(space, order, told.value.spans), draws, shuffle);
        var rows := Rows(|s|, worldSize);
        && carry == CarryOf(s, worldSize) && phase.value.indices == Stride(s, rank, worldSize, rows)
        && phaseIndex == old(phaseIndex) + 1 && epoch == told.value.epoch
        && samplesSeen == old(samplesSeen) + rows * worldSize
        && blocksSeen == old(blocksSeen) + SpanTotal(told.value.spans)
    {
      if told.None? {
        return None;
      }
      epoch := told.value.epoch;
      var built := BuildPhase(told.value.spans, order, draws);
      phaseIndex := phaseIndex + 1;
      blocksSeen := blocksSeen + built.blocks;
      samplesSeen := samplesSeen + built.samplesGlobal;
      return Some(built);
    }
  }

  datatype Payload = Payload(epoch: int, spans: seq<Interval>)

  // --- whole runs -------------------------------------------------------------

  /** What was leased for one phase, and how it was mixed. */
  datatype Turn = Turn(leased: Samples, draws: seq<int>, shuffle: bool)

  ghost predicate IsPhaseRun(carries: seq<Samples>, turns: seq<Turn>, world: int)
    requires world >= 1
  {
    && |carries| == |turns| + 1
    && forall i :: 0 <= i < |turns| ==>
         && (turns[i].shuffle ==> DrawsOk(turns[i].draws, |carries[i]| + |turns[i].leased|))
         && carries[i + 1] == CarryOf(PhaseSamples(carries[i], turns[i].leased, turns[i].draws, turns[i].shuffle), world)
  }

  /** Everything handed to any rank in the first k phases. */
  ghost function Handed(carries: seq<Samples>, turns: seq<Turn>, world: int, k: nat): multiset<int>
    requires world >= 1 && IsPhaseRun(carries, turns, world) && k <= |turns|
  {
    if k == 0 then multiset{}
    else
      var s := PhaseSamples(carries[k - 1], turns[k - 1].leased, turns[k - 1].draws, turns[k - 1].shuffle);
      Handed(carries, turns, world, k - 1) + Together(s, world, world, Rows(|s|, world))
  }

  ghost function Leased(turns: seq<Turn>, k: nat): multiset<int>
    requires k <= |turns|
  {
    if k == 0 then multiset{} else Leased(turns, k - 1) + multiset(turns[k - 1].leased)
  }

  /** Over any run of phases, every sample leased has been handed to a rank, once for each time it was
      leased, or is being carried; and fewer are carried than there are ranks. */
  lemma {:induction false} RunConserves(carries: seq<Samples>, turns: seq<Turn>, world: int, k: nat)
    requires world >= 1 && IsPhaseRun(carries, turns, world) && k <= |turns| && carries[0] == []
    ensures Handed(carries, turns, world, k) + multiset(carries[k]) == Leased(turns, k)
    ensures |carries[k]| < world
  {
    hide *;
    RunLengths(carries, turns, world);
    if k == 0 {
      NothingYet(carries, turns, world);
    } else {
      RunConserves(carries, turns, world, k - 1);
      var given := RunTurn(carries, turns, world, k);
      Rearranged(Handed(carries, turns, world, k - 1), given, Leased(turns, k - 1), multiset(turns[k - 1].leased),
                 multiset(carries[k - 1]), multiset(carries[k]));
    }
  }

  lemma RunLengths(carries: seq<Samples>, turns: seq<Turn>, world: int)
    requires world >= 1 && IsPhaseRun(carries, turns, world)
    ensures |carries| == |turns| + 1
  {
  }

  lemma NothingYet(carries: seq<Samples>, turns: seq<Turn>, world: int)
    requires world >= 1 && IsPhaseRun(carries, turns, world)
    ensures Handed(carries, turns, world, 0) == multiset{} == Leased(turns, 0)
  {
  }

  /** What one phase hands out. */
  lemma RunTurn(carries: seq<Samples>, turns: seq<Turn>, world: int, k: nat) returns (given: multiset<int>)
    requires world >= 1 && IsPhaseRun(carries, turns, world) && 0 < k <= |turns|
    ensures |carries| == |turns| + 1 && |carries[k]| < world
    ensures Handed(carries, turns, world, k) == Handed(carries, turns, world, k - 1) + given
    ensures Leased(turns, k) == Leased(turns, k - 1) + multiset(turns[k - 1].leased)
    ensures given + multiset(carries[k]) == multiset(carries[k - 1]) + multiset(turns[k - 1].leased)
  {
    var t := turns[k - 1];
    assert carries[k - 1 + 1] == CarryOf(PhaseSamples(carries[k - 1], t.leased, t.draws, t.shuffle), world);
    hide Together, Mixed, Rows, CarryOf, PhaseSamples;
    PhaseConserves(carries[k - 1], t.leased, t.draws, t.shuffle, world);
    var s := PhaseSamples(carries[k - 1], t.leased, t.draws, t.shuffle);
    given := Together(s, world, world, Rows(|s|, world));
  }

  lemma Rearranged(handed: multiset<int>, given: multiset<int>, before: multiset<int>, leased: multiset<int>,
                   carried: multiset<int>, carry: multiset<int>)
    requires handed + carried == before && given + carry == carried + leased
    ensures (handed + given) + carry == before + leased
  {
    assert (handed + given) + carry == handed + (given + carry);
    assert handed + (carried + leased) == (handed + carried) + leased;
  }
}
