/** Exactly once, sample by sample: what the lease table has committed, read through the block order. */
module SampleCoverage {
  import opened LeaseModel
  import opened LeaseInvariant
  import opened LeaseRuns
  import opened ExactlyOnce
  import opened DrainSafety
  import opened Corpus

  /** The order of the epoch is one of the table's own block space. */
  ghost predicate Describes(t: Table, space: BlockSpace, order: seq<int>) {
    SpaceOk(space) && t.cfg.numBlocks == NumBlocks(space) && IsPermutation(order, NumBlocks(space))
  }

  ghost predicate HoldsSample(space: BlockSpace, order: seq<int>, p: int, x: int)
    requires SpaceOk(space)
  {
    0 <= p < |order| && InBlock(space, order[p], x)
  }

  /** In a finished epoch every sample of the corpus lies in exactly one block, and that block was
      committed unless it is in quarantine. */
  lemma FinishedEpoch(t: Table, space: BlockSpace, order: seq<int>, x: int) returns (p: int)
    requires Inv(t) && EpochDone(t) && Describes(t, space, order) && 0 <= x < space.numSamples
    ensures HoldsSample(space, order, p, x) && forall q :: HoldsSample(space, order, q, x) ==> q == p
    ensures 0 <= p < |t.state| && (t.state[p] == Committed || t.state[p] == Quarantined)
  {
    PermutationIsOneToOne(order, NumBlocks(space));
    DoneMeansSettled(t);
    assert |t.state| == t.cfg.numBlocks == |order|;
    hide Inv, InvPending, NumBlocks, IsPermutation;
    EverySampleOnce(space, order, x);
    p :| 0 <= p < |order| && InBlock(space, order[p], x);
  }

  /** Over a run, one call committed the block of each sample of a finished epoch, and no other call
      ever did; where nothing is in quarantine that is every sample of the corpus. */
  lemma EverySampleCommittedOnce(cfg: Config, epoch: int, trace: seq<Table>, calls: seq<Call>, k: nat, space: BlockSpace,
                                 order: seq<int>, x: int)
    returns (p: int)
    requires ConfigOk(cfg) && IsRun(trace, calls) && trace[0] == NewTable(cfg, epoch) && k <= |calls| < |trace|
    requires EpochDone(trace[k]) && trace[k].quarantined == 0 && Describes(trace[k], space, order)
    requires 0 <= x < space.numSamples
    ensures HoldsSample(space, order, p, x) && forall q :: HoldsSample(space, order, q, x) ==> q == p
    ensures Slot(trace[k].epoch, p) in Log(trace, calls, k)
    ensures forall i, j :: 0 <= i < j < |calls| ==>
      !(Slot(trace[k].epoch, p) in NewlyCommitted(trace[i], calls[i], trace[i + 1])
        && Slot(trace[k].epoch, p) in NewlyCommitted(trace[j], calls[j], trace[j + 1]))
  {
    hide IsRun, Inv, InvPending, Describes, EpochDone, Log, NewlyCommitted, NewTable;
    NewTableIsSound(cfg, epoch);
    RunIsSound(trace, calls, k);
    LogIsComplete(cfg, epoch, trace, calls, k);
    p := FinishedEpoch(trace[k], space, order, x);
    NoneQuarantined(trace[k], p);
    SlotLogged(trace[k], Log(trace, calls, k), p);
    forall i, j | 0 <= i < j < |calls|
      ensures !(Slot(trace[k].epoch, p) in NewlyCommitted(trace[i], calls[i], trace[i + 1])
                && Slot(trace[k].epoch, p) in NewlyCommitted(trace[j], calls[j], trace[j + 1]))
    {
      CommittedAtMostOnce(trace, calls, i, j);
    }
  }

  lemma NoneQuarantined(t: Table, p: int)
    requires Inv(t) && t.quarantined == 0 && 0 <= p < |t.state|
    ensures t.state[p] != Quarantined
  {
    assert Counted(t.state, t.committed, t.quarantined);
    assert t.state[p] == Quarantined ==> p in Where(t.state, Quarantined);
  }

  lemma SlotLogged(t: Table, log: set<Slot>, p: int)
    requires LogCovers(t, log) && 0 <= p < |t.state| && t.state[p] == Committed
    ensures Slot(t.epoch, p) in log
  {
  }
}
