/** Zero duplication over whole runs: what the commit calls of a run add up to. */
module ExactlyOnce {
  import opened Wrappers
  import opened Intervals
  import opened LeaseModel
  import opened LeaseInvariant
  import opened AcquireInvariant
  import opened LeaseRuns

  /** One block durably processed in one epoch. */
  datatype Slot = Slot(epoch: int, position: int)

  /** The slots a call commits. */
  ghost function NewlyCommitted(t: Table, call: Call, t': Table): set<Slot> {
    if call.CallCommit? then Slots(t.epoch, Where(t'.state, Committed) - Where(t.state, Committed)) else {}
  }

  ghost function Slots(epoch: int, positions: set<int>): set<Slot> {
    set p | p in positions :: Slot(epoch, p)
  }

  lemma {:induction false} SlotsSize(epoch: int, positions: set<int>)
    ensures |Slots(epoch, positions)| == |positions|
  {
    if positions != {} {
      var p := Pick(positions);
      SlotsSize(epoch, positions - {p});
      assert Slots(epoch, positions) == Slots(epoch, positions - {p}) + {Slot(epoch, p)};
    }
  }

  /** The slots committed by the first k calls of a run, and how many commits that took. */
  ghost function Log(trace: seq<Table>, calls: seq<Call>, k: nat): set<Slot>
    requires k <= |calls| < |trace|
  {
    if k == 0 then {} else Log(trace, calls, k - 1) + NewlyCommitted(trace[k - 1], calls[k - 1], trace[k])
  }

  ghost function Commits(trace: seq<Table>, calls: seq<Call>, k: nat): nat
    requires k <= |calls| < |trace|
  {
    if k == 0 then 0 else Commits(trace, calls, k - 1) + |NewlyCommitted(trace[k - 1], calls[k - 1], trace[k])|
  }

  /** The commits among them that cluster c made. */
  ghost function CommitsBy(c: ClusterId, trace: seq<Table>, calls: seq<Call>, k: nat): nat
    requires k <= |calls| < |trace|
  {
    if k == 0 then 0
    else CommitsBy(c, trace, calls, k - 1)
         + if calls[k - 1].CallCommit? && calls[k - 1].cluster == c
           then |NewlyCommitted(trace[k - 1], calls[k - 1], trace[k])| else 0
  }

  ghost function Credits(t: Table, c: ClusterId): int {
    if c in t.clusters then t.clusters[c].blocksCommitted else 0
  }

  // --- one call ---------------------------------------------------------------

  /** A commit moves positions its cluster holds from LEASED to COMMITTED, and credits it. */
  lemma CommitCredits(t: Table, call: Call, t': Table)
    requires Inv(t) && call.CallCommit? && Next(t, call, t')
    ensures t'.epoch == t.epoch && |t'.state| == |t.state| && Where(t.state, Committed) <= Where(t'.state, Committed)
    ensures forall p :: 0 <= p < |t.state| && t'.state[p] != t.state[p] ==>
      t.state[p] == Leased && t'.state[p] == Committed && call.lease in t.leases
      && Holds(t.leases[call.lease], p) && t.leases[call.lease].cluster == call.cluster
    ensures SumCommitted(t'.clusters) == SumCommitted(t.clusters) + |NewlyCommitted(t, call, t')|
    ensures forall c :: Credits(t', c) == Credits(t, c) + if c == call.cluster then |NewlyCommitted(t, call, t')| else 0
  {
    hide *;
    CommitIs(t, call, t');
    if call.lease in t.leases && t.leases[call.lease].cluster == call.cluster {
      CommitShape(t, call.cluster, call.lease, call.through, call.now);
      AcceptedCommit(t, call, t');
    } else {
      RefusedCommit(t, call, t');
    }
  }

  lemma CommitIs(t: Table, call: Call, t': Table)
    requires call.CallCommit? && Next(t, call, t')
    ensures t' == OrSame(Commit(t, call.cluster, call.lease, call.through, call.now), t)
  {
    hide Commit;
  }

  lemma RefusedCommit(t: Table, call: Call, t': Table)
    requires call.CallCommit? && t' == OrSame(Commit(t, call.cluster, call.lease, call.through, call.now), t)
    requires !(call.lease in t.leases && t.leases[call.lease].cluster == call.cluster)
    ensures t' == t && |NewlyCommitted(t, call, t')| == 0
    ensures forall c :: Credits(t', c) == Credits(t, c)
  {
    assert NewlyCommitted(t, call, t') == {};
  }

  /** The step of a commit that its holder was entitled to. */
  ghost predicate Entitled(t: Table, call: Call, t': Table, to: int) {
    && call.CallCommit? && call.lease in t.leases
    && var l, c := t.leases[call.lease], call.cluster;
       && l.cluster == c && 0 <= l.committedEnd <= to <= l.end <= |t.state| && c in t.clusters
       && (forall p :: l.committedEnd <= p < to ==> t.state[p] == Leased)
       && t'.epoch == t.epoch && t'.state == Filled(t.state, l.committedEnd, to, Committed)
       && t'.clusters == if to != l.committedEnd then t.clusters[c := Credited(t.clusters[c], to - l.committedEnd, call.now)]
                         else t.clusters
  }

  lemma AcceptedCommit(t: Table, call: Call, t': Table)
    requires call.CallCommit? && t' == OrSame(Commit(t, call.cluster, call.lease, call.through, call.now), t)
    requires call.lease in t.leases && t.leases[call.lease].cluster == call.cluster
    requires var l := t.leases[call.lease]; var to := ClampThrough(l, call.through); var newly := to - l.committedEnd;
             && 0 <= l.committedEnd <= to <= l.end <= |t.state| && call.cluster in t.clusters
             && (forall p :: l.committedEnd <= p < to ==> t.state[p] == Leased)
             && Commit(t, call.cluster, call.lease, call.through, call.now) ==
                Ok(t.(state := Filled(t.state, l.committedEnd, to, Committed), committed := t.committed + newly,
                      leases := AfterCommit(t.leases, call.lease, to),
                      clusters := if newly != 0 then t.clusters[call.cluster := Credited(t.clusters[call.cluster], newly, call.now)]
                                  else t.clusters))
    ensures t'.epoch == t.epoch && |t'.state| == |t.state| && Where(t.state, Committed) <= Where(t'.state, Committed)
    ensures forall p :: 0 <= p < |t.state| && t'.state[p] != t.state[p] ==>
      t.state[p] == Leased && t'.state[p] == Committed && Holds(t.leases[call.lease], p)
    ensures SumCommitted(t'.clusters) == SumCommitted(t.clusters) + |NewlyCommitted(t, call, t')|
    ensures forall c :: Credits(t', c) == Credits(t, c) + if c == call.cluster then |NewlyCommitted(t, call, t')| else 0
  {
    hide Commit, Credited, AfterCommit, ClampThrough;
    var to := ClampThrough(t.leases[call.lease], call.through);
    assert Entitled(t, call, t', to);
    hide OrSame;
    CommitsPositions(t, call, t', to);
    CreditsGrow(t.clusters, call.cluster, to - t.leases[call.lease].committedEnd, call.now);
  }

  lemma CommitsPositions(t: Table, call: Call, t': Table, to: int)
    requires Entitled(t, call, t', to)
    ensures |t'.state| == |t.state| && Where(t.state, Committed) <= Where(t'.state, Committed)
    ensures forall p :: 0 <= p < |t.state| && t'.state[p] != t.state[p] ==>
      t.state[p] == Leased && t'.state[p] == Committed && Holds(t.leases[call.lease], p)
    ensures |NewlyCommitted(t, call, t')| == to - t.leases[call.lease].committedEnd
  {
    hide Credited, Slots;
    CommitSlots(t.state, t.leases[call.lease].committedEnd, to, t.epoch);
  }

  lemma CreditsGrow(clusters: map<ClusterId, ClusterRecord>, c: ClusterId, newly: int, now: real)
    requires c in clusters
    ensures var clusters' := if newly != 0 then clusters[c := Credited(clusters[c], newly, now)] else clusters;
            && SumCommitted(clusters') == SumCommitted(clusters) + newly
            && clusters'.Keys == clusters.Keys
            && forall d :: d in clusters ==>
                 clusters'[d].blocksCommitted == clusters[d].blocksCommitted + if d == c then newly else 0
  {
    SumUpdate(clusters, c, Credited(clusters[c], newly, now));
  }

  lemma CommitSlots(s: seq<BlockState>, lo: int, hi: int, epoch: int)
    requires 0 <= lo <= hi <= |s| && forall p :: lo <= p < hi ==> s[p] == Leased
    ensures var s' := Filled(s, lo, hi, Committed);
            && Where(s', Committed) - Where(s, Committed) == Range(lo, hi)
            && Where(s, Committed) <= Where(s', Committed)
            && |Slots(epoch, Range(lo, hi))| == hi - lo
  {
    RangeSize(lo, hi);
    SlotsSize(epoch, Range(lo, hi));
  }

  /** Any other call commits nothing and credits nobody; within the epoch COMMITTED stands. */
  lemma OthersCommitNothing(t: Table, call: Call, t': Table)
    requires Inv(t) && !call.CallCommit? && Next(t, call, t')
    ensures t'.epoch == t.epoch ==> Where(t'.state, Committed) == Where(t.state, Committed)
    ensures t'.epoch != t.epoch ==> t'.epoch == t.epoch + 1 && Where(t'.state, Committed) == {}
    ensures NewlyCommitted(t, call, t') == {} && forall c :: Credits(t', c) == Credits(t, c)
  {
    hide *;
    if t'.epoch == t.epoch {
      CallDrifts(t, call, t');
      DriftsKeep(t.state, t'.state);
    }
    NothingNew(t, call, t');
    if call.CallAcquire? {
      var g := GrantOf(t, call.request, t');
      AcquireCommitsNothing(t, call.request, g, t');
    } else {
      RecordsOnly(t, call, t');
    }
  }

  lemma GrantOf(t: Table, a: AcquireCall, t': Table) returns (g: Grant)
    requires Next(t, CallAcquire(a), t')
    ensures Acquires(t, a, g, t')
  {
    g :| Acquires(t, a, g, t');
  }

  lemma DriftsKeep(s: seq<BlockState>, s': seq<BlockState>)
    requires Drifts(s, s')
    ensures Where(s', Committed) == Where(s, Committed)
  {
  }

  lemma NothingNew(t: Table, call: Call, t': Table)
    requires !call.CallCommit?
    ensures NewlyCommitted(t, call, t') == {}
  {
  }

  lemma RecordsOnly(t: Table, call: Call, t': Table)
    requires !call.CallCommit? && !call.CallAcquire? && Next(t, call, t')
    ensures t'.epoch != t.epoch ==> t'.epoch == t.epoch + 1 && Where(t'.state, Committed) == {}
    ensures forall c :: Credits(t', c) == Credits(t, c)
  {
    hide HeldBlocks, Poisoned, Returned, Blamed, RenewedLeases, IsLive;
  }

  lemma AcquireCommitsNothing(t: Table, a: AcquireCall, g: Grant, t': Table)
    requires Inv(t) && Acquires(t, a, g, t')
    ensures t'.epoch != t.epoch ==> t'.epoch == t.epoch + 1 && Where(t'.state, Committed) == {}
    ensures forall c :: Credits(t', c) == Credits(t, c)
  {
    hide Inv, InvPending, Credits, Where, Serves;
    var ready := Prepared(t, a);
    PreparedKeeps(t, a);
    PreparedCredits(t, a);
    if !(Finished(ready) && !CanAdvance(ready)) {
      RolledKeeps(ready);
      RolledCredits(ready);
      var rolled := Rolled(ready);
      var spans, t1 :| Serves(rolled, a, spans, t1, g, t');
      hide *;
      ServesEpoch(rolled, a, spans, t1, g, t');
      ServesCredits(rolled, a, spans, t1, g, t');
    }
  }

  lemma PreparedCredits(t: Table, a: AcquireCall)
    ensures Prepared(t, a).epoch == t.epoch && forall c :: Credits(Prepared(t, a), c) == Credits(t, c)
  {
    hide HeldBlocks, Returned, Poisoned, Blamed, Expired;
  }

  lemma RolledCredits(t: Table)
    ensures forall c :: Credits(Rolled(t), c) == Credits(t, c)
    ensures Rolled(t).epoch == t.epoch || (Rolled(t).epoch == t.epoch + 1 && Where(Rolled(t).state, Committed) == {})
  {
  }

  lemma ServesEpoch(t: Table, a: AcquireCall, spans: seq<Interval>, t1: Table, g: Grant, t': Table)
    requires Inv(t) && a.cluster in t.clusters && Serves(t, a, spans, t1, g, t')
    ensures a.cluster in t.clusters && t.cfg.numBlocks != 0
    ensures t'.epoch == t.epoch && (Where(t.state, Committed) == {} ==> Where(t'.state, Committed) == {})
  {
    ServesState(t, a, spans, t1, g, t');
    hide Inv, Serves;
    assert Where(t'.state, Committed) <= Where(t.state, Committed);
  }

  lemma ServesCredits(t: Table, a: AcquireCall, spans: seq<Interval>, t1: Table, g: Grant, t': Table)
    requires a.cluster in t.clusters && t.cfg.numBlocks != 0 && Serves(t, a, spans, t1, g, t')
    ensures forall c :: Credits(t', c) == Credits(t, c)
  {
    AllotState(t, a.cluster, GrantSize(t, a.cluster, a.blocks, a.clock), a.maxSpans, spans, t1);
    if spans != [] {
      InstallFrame(t1, a.cluster, spans, GrantedTtl(t.cfg, t.clusters[a.cluster], a.ttl), a.now);
    }
  }

  // --- whole runs -------------------------------------------------------------

  /** Everything the log says of the current epoch is committed, and nothing is from the future. */
  ghost predicate LogHolds(t: Table, log: set<Slot>) {
    forall s :: s in log ==> s.epoch <= t.epoch && (s.epoch == t.epoch ==> s.position in Where(t.state, Committed))
  }

  lemma {:induction false} LogOverRun(trace: seq<Table>, calls: seq<Call>, k: nat)
    requires IsRun(trace, calls) && Inv(trace[0]) && k <= |calls|
    ensures LogHolds(trace[k], Log(trace, calls, k))
    ensures |Log(trace, calls, k)| == Commits(trace, calls, k)
  {
    hide *;
    RunLength(trace, calls);
    if k == 0 {
      LogStarts(trace, calls);
    } else {
      LogUnfolds(trace, calls, k);
      LogOverRun(trace, calls, k - 1);
      RunIsSound(trace, calls, k - 1);
      StepOf(trace, calls, k - 1);
      LogStep(trace[k - 1], calls[k - 1], trace[k], Log(trace, calls, k - 1));
      UnionOfDisjoint(Log(trace, calls, k - 1), NewlyCommitted(trace[k - 1], calls[k - 1], trace[k]));
    }
  }

  lemma RunLength(trace: seq<Table>, calls: seq<Call>)
    requires IsRun(trace, calls)
    ensures |trace| == |calls| + 1
  {
  }

  lemma LogStarts(trace: seq<Table>, calls: seq<Call>)
    requires |trace| == |calls| + 1
    ensures LogHolds(trace[0], Log(trace, calls, 0))
    ensures |Log(trace, calls, 0)| == Commits(trace, calls, 0) == 0
    ensures forall c :: CommitsBy(c, trace, calls, 0) == 0
  {
  }

  lemma LogUnfolds(trace: seq<Table>, calls: seq<Call>, k: nat)
    requires 0 < k <= |calls| < |trace|
    ensures var added := NewlyCommitted(trace[k - 1], calls[k - 1], trace[k]);
            && Log(trace, calls, k) == Log(trace, calls, k - 1) + added
            && Commits(trace, calls, k) == Commits(trace, calls, k - 1) + |added|
            && forall c :: CommitsBy(c, trace, calls, k) == CommitsBy(c, trace, calls, k - 1)
                 + if calls[k - 1].CallCommit? && calls[k - 1].cluster == c then |added| else 0
  {
  }

  lemma UnionOfDisjoint<T>(a: set<T>, b: set<T>)
    requires a !! b
    ensures |a + b| == |a| + |b|
  {
  }

  lemma LogStep(t: Table, call: Call, t': Table, log: set<Slot>)
    requires Inv(t) && Next(t, call, t') && LogHolds(t, log)
    ensures log !! NewlyCommitted(t, call, t')
    ensures LogHolds(t', log + NewlyCommitted(t, call, t'))
  {
    if call.CallCommit? {
      CommitCredits(t, call, t');
    } else {
      OthersCommitNothing(t, call, t');
    }
  }

  /** Everything committed in the current epoch is in the log. */
  ghost predicate LogCovers(t: Table, log: set<Slot>) {
    forall p :: p in Where(t.state, Committed) ==> Slot(t.epoch, p) in log
  }

  lemma CoverStep(t: Table, call: Call, t': Table, log: set<Slot>)
    requires Inv(t) && Next(t, call, t') && LogCovers(t, log)
    ensures LogCovers(t', log + NewlyCommitted(t, call, t'))
  {
    if call.CallCommit? {
      CommitCredits(t, call, t');
    } else {
      OthersCommitNothing(t, call, t');
    }
  }

  /** From a fresh table on, the log of a run misses no commit. */
  lemma {:induction false} LogIsComplete(cfg: Config, epoch: int, trace: seq<Table>, calls: seq<Call>, k: nat)
    requires ConfigOk(cfg) && IsRun(trace, calls) && trace[0] == NewTable(cfg, epoch) && k <= |calls|
    ensures LogCovers(trace[k], Log(trace, calls, k))
  {
    hide *;
    RunLength(trace, calls);
    NewTableIsSound(cfg, epoch);
    if k == 0 {
      NothingToLog(cfg, epoch, Log(trace, calls, 0));
    } else {
      LogUnfolds(trace, calls, k);
      LogIsComplete(cfg, epoch, trace, calls, k - 1);
      RunIsSound(trace, calls, k - 1);
      StepOf(trace, calls, k - 1);
      CoverStep(trace[k - 1], calls[k - 1], trace[k], Log(trace, calls, k - 1));
    }
  }

  lemma NothingToLog(cfg: Config, epoch: int, log: set<Slot>)
    requires ConfigOk(cfg)
    ensures LogCovers(NewTable(cfg, epoch), log)
  {
  }

  /** No block is committed twice in an epoch: the slots logged over a run are as many as the
      commits made; and each slot was committed by one cluster, the holder of its lease. */
  lemma CommittedAtMostOnce(trace: seq<Table>, calls: seq<Call>, i: nat, j: nat)
    requires IsRun(trace, calls) && Inv(trace[0]) && i < j < |calls|
    ensures NewlyCommitted(trace[i], calls[i], trace[i + 1]) !! NewlyCommitted(trace[j], calls[j], trace[j + 1])
    ensures |Log(trace, calls, |calls|)| == Commits(trace, calls, |calls|)
  {
    hide Next, Inv, InvPending, LogHolds, NewlyCommitted;
    LogOverRun(trace, calls, |calls|);
    LogOverRun(trace, calls, j);
    RunIsSound(trace, calls, j);
    LogStep(trace[j], calls[j], trace[j + 1], Log(trace, calls, j));
    LogGrows(trace, calls, i + 1, j);
  }

  lemma {:induction false} LogGrows(trace: seq<Table>, calls: seq<Call>, i: nat, j: nat)
    requires i <= j <= |calls| < |trace|
    ensures Log(trace, calls, i) <= Log(trace, calls, j)
    decreases j - i
  {
    if i < j {
      LogGrows(trace, calls, i, j - 1);
    }
  }

  /** The cumulative counters tell the truth: each cluster's is the number of commits it made,
      and their sum is the number of slots committed over all epochs of the run. */
  lemma {:induction false} CreditIsExact(cfg: Config, epoch: int, trace: seq<Table>, calls: seq<Call>, k: nat)
    requires ConfigOk(cfg) && IsRun(trace, calls) && trace[0] == NewTable(cfg, epoch) && k <= |calls|
    ensures forall c :: Credits(trace[k], c) == CommitsBy(c, trace, calls, k)
    ensures SumCommitted(trace[k].clusters) == Commits(trace, calls, k) == |Log(trace, calls, k)|
  {
    hide *;
    RunLength(trace, calls);
    NewTableIsSound(cfg, epoch);
    LogOverRun(trace, calls, k);
    if k == 0 {
      LogStarts(trace, calls);
      NoCredits(cfg, epoch);
    } else {
      LogUnfolds(trace, calls, k);
      CreditIsExact(cfg, epoch, trace, calls, k - 1);
      RunIsSound(trace, calls, k - 1);
      StepOf(trace, calls, k - 1);
      CreditStep(trace[k - 1], calls[k - 1], trace[k]);
    }
  }

  lemma NoCredits(cfg: Config, epoch: int)
    requires ConfigOk(cfg)
    ensures var t := NewTable(cfg, epoch);
            SumCommitted(t.clusters) == 0 && forall c :: Credits(t, c) == 0
  {
  }

  lemma CreditStep(t: Table, call: Call, t': Table)
    requires Inv(t) && Next(t, call, t')
    ensures SumCommitted(t'.clusters) == SumCommitted(t.clusters) + |NewlyCommitted(t, call, t')|
    ensures forall c ::
      Credits(t', c) ==
      Credits(t, c) + if call.CallCommit? && call.cluster == c then |NewlyCommitted(t, call, t')| else 0
  {
    hide *;
    if call.CallCommit? {
      CommitCredits(t, call, t');
    } else {
      OthersCommitNothing(t, call, t');
      SameCredits(t, t');
    }
  }

  lemma SameCredits(t: Table, t': Table)
    requires forall c :: Credits(t', c) == Credits(t, c)
    ensures SumCommitted(t.clusters) == SumCommitted(t'.clusters)
  {
    forall c ensures CreditIn(t.clusters, c) == CreditIn(t'.clusters, c) {
      assert Credits(t', c) == Credits(t, c);
    }
    SameSums(t.clusters, t'.clusters);
  }

  ghost function CreditIn(m: map<ClusterId, ClusterRecord>, c: ClusterId): int {
    if c in m then m[c].blocksCommitted else 0
  }

  /** Records may appear, but only with nothing to their credit. */
  lemma {:induction false} SameSums(m: map<ClusterId, ClusterRecord>, m': map<ClusterId, ClusterRecord>)
    requires forall c :: CreditIn(m, c) == CreditIn(m', c)
    ensures SumCommitted(m) == SumCommitted(m')
    decreases |m| + |m'|
  {
    if c :| c in m {
      SumRemove(m, c);
      if c in m' { SumRemove(m', c); } else { assert m' - {c} == m'; }
      assert CreditIn(m, c) == CreditIn(m', c);
      forall d ensures CreditIn(m - {c}, d) == CreditIn(m' - {c}, d) {
        assert CreditIn(m, d) == CreditIn(m', d);
      }
      SameSums(m - {c}, m' - {c});
    } else if c :| c in m' {
      SumRemove(m', c);
      assert CreditIn(m, c) == CreditIn(m', c);
      forall d ensures CreditIn(m, d) == CreditIn(m' - {c}, d) {
        assert CreditIn(m, d) == CreditIn(m', d);
      }
      SameSums(m, m' - {c});
    } else {
      assert m == map[] && m' == map[];
    }
  }

  /** A block only moves UNASSIGNED -> LEASED -> {COMMITTED, UNASSIGNED, QUARANTINED}. */
  lemma BlocksMoveForward(t: Table, call: Call, t': Table, p: int)
    requires Inv(t) && Next(t, call, t') && t'.epoch == t.epoch && 0 <= p < |t.state|
    ensures |t'.state| == |t.state| && MayMove(t.state[p], t'.state[p])
    ensures t'.state[p] == Committed && t.state[p] != Committed ==>
      call.CallCommit? && call.lease in t.leases && t.leases[call.lease].cluster == call.cluster
      && Holds(t.leases[call.lease], p)
  {
    if call.CallCommit? {
      CommitCredits(t, call, t');
      if t'.state[p] == Committed && t.state[p] != Committed {
        assert p in Where(t'.state, Committed) - Where(t.state, Committed);
      }
    } else {
      CallDrifts(t, call, t');
    }
  }

  // --- retrying a commit ------------------------------------------------------

  /** A commit repeated after a lost reply changes nothing; it is acknowledged again exactly
      when the first one left the lease open, and refused as gone when it closed it. */
  lemma RetriedCommit(t: Table, c: ClusterId, id: LeaseId, through: int, now: real, later: real)
    requires Inv(t) && Commit(t, c, id, through, now).Ok?
    ensures var t1 := Commit(t, c, id, through, now).value;
            && OrSame(Commit(t1, c, id, through, later), t1) == t1
            && (Commit(t1, c, id, through, later) == if through < t.leases[id].end then Ok(t1) else Err(LeaseGone))
  {
    CommitShape(t, c, id, through, now);
    CommitKeeps(t, c, id, through, now);
    var t1 := Commit(t, c, id, through, now).value;
    assert LeaseOk(t.leases[id], id, t.epoch, |t.state|, t.clusters.Keys, t.lastNumber);
    if through < t.leases[id].end {
      CommitNothing(t1, c, id, through, later);
    }
  }
}
