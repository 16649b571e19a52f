/** Whole runs of the lease protocol: arbitrary calls, in any order, with any arguments and
    any clock readings. */
module LeaseRuns {
  import opened Wrappers
  import opened Intervals
  import opened LeaseModel
  import opened LeaseInvariant
  import opened AcquireInvariant

  datatype Call =
    | CallRegister(cluster: ClusterId, digest: string, ranks: int, incarnation: string, checkConflict: bool, now: real)
    | CallAcquire(request: AcquireCall)
    | CallHeartbeat(cluster: ClusterId, progress: map<LeaseId, int>, macroStep: real, rtt: real, ttl: real, now: real)
    | CallCommit(cluster: ClusterId, lease: LeaseId, through: int, now: real)
    | CallRelease(cluster: ClusterId, target: Option<LeaseId>, incarnation: string, counted: bool)
    | CallReap(now: real)
    | CallAdvance

  /** A refused call changes nothing. */
  ghost function OrSame(r: Result<Table, Refusal>, t: Table): Table {
    if r.Ok? then r.value else t
  }

  ghost predicate Next(t: Table, call: Call, t': Table) {
    match call
    case CallRegister(c, digest, ranks, incarnation, check, now) =>
      t' == OrSame(Register(t, c, digest, ranks, incarnation, check, now), t)
    case CallAcquire(a) => exists g :: Acquires(t, a, g, t')
    case CallHeartbeat(c, progress, macroStep, rtt, ttl, now) => t' == Heartbeat(t, c, progress, macroStep, rtt, ttl, now)
    case CallCommit(c, id, through, now) => t' == OrSame(Commit(t, c, id, through, now), t)
    case CallRelease(c, target, incarnation, counted) => t' == Release(t, c, target, incarnation, counted)
    case CallReap(now) => t' == Reap(t, now)
    case CallAdvance => t' == Advance(t)
  }

  ghost predicate IsRun(trace: seq<Table>, calls: seq<Call>) {
    && |trace| == |calls| + 1
    && forall i :: 0 <= i < |calls| ==> Next(trace[i], calls[i], trace[i + 1])
  }

  lemma StepOf(trace: seq<Table>, calls: seq<Call>, i: nat)
    requires IsRun(trace, calls) && i < |calls|
    ensures |trace| == |calls| + 1 && Next(trace[i], calls[i], trace[i + 1])
  {
  }

  // --- the invariant over every run -------------------------------------------

  lemma NewTableIsSound(cfg: Config, epoch: int)
    requires ConfigOk(cfg)
    ensures Inv(NewTable(cfg, epoch))
  {
    var t := NewTable(cfg, epoch);
    assert Where(t.state, Committed) == {} && Where(t.state, Quarantined) == {};
  }

  lemma NextKeeps(t: Table, call: Call, t': Table)
    requires Inv(t) && Next(t, call, t')
    ensures Inv(t')
  {
    hide Inv, InvPending, Acquires, Register, Heartbeat, Commit, Release, Reclaim, Reap, Advance;
    match call
    case CallRegister(c, digest, ranks, incarnation, check, now) =>
      RegisterKeeps(t, c, digest, ranks, incarnation, check, now);
    case CallAcquire(a) =>
      var g :| Acquires(t, a, g, t');
      AcquireKeeps(t, a, g, t');
    case CallHeartbeat(c, progress, macroStep, rtt, ttl, now) =>
      HeartbeatKeeps(t, c, progress, macroStep, rtt, ttl, now);
    case CallCommit(c, id, through, now) => CommitKeeps(t, c, id, through, now);
    case CallRelease(c, target, incarnation, counted) => ReleaseKeeps(t, c, target, incarnation, counted);
    case CallReap(now) => ReapKeeps(t, now);
    case CallAdvance => AdvanceKeeps(t);
  }

  lemma ReleaseKeeps(t: Table, c: ClusterId, target: Option<LeaseId>, incarnation: string, counted: bool)
    requires Inv(t)
    ensures Inv(Release(t, c, target, incarnation, counted))
  {
    ReclaimKeeps(t, ReleaseTargets(t, c, target, incarnation), counted);
  }

  lemma ReapKeeps(t: Table, now: real)
    requires Inv(t)
    ensures Inv(Reap(t, now))
  {
    ReclaimKeeps(t, Expired(t, now), true);
  }

  lemma {:induction false} RunIsSound(trace: seq<Table>, calls: seq<Call>, k: nat)
    requires IsRun(trace, calls) && Inv(trace[0]) && k < |trace|
    ensures Inv(trace[k])
  {
    if k > 0 {
      RunIsSound(trace, calls, k - 1);
      NextKeeps(trace[k - 1], calls[k - 1], trace[k]);
    }
  }

  /** The executable check never fails, at any point of any run of a fresh table. */
  lemma VerifyNeverFails(cfg: Config, epoch: int, trace: seq<Table>, calls: seq<Call>, k: nat)
    requires ConfigOk(cfg) && IsRun(trace, calls) && trace[0] == NewTable(cfg, epoch) && k < |trace|
    ensures Verified(trace[k], |FreeBlocks(trace[k].state)|)
  {
    NewTableIsSound(cfg, epoch);
    RunIsSound(trace, calls, k);
    InvIsVerified(trace[k]);
  }

  // --- how a block may move ---------------------------------------------------

  predicate MayMove(a: BlockState, b: BlockState) {
    a == b || (a == Unassigned && b == Leased) || (a == Leased && b != Leased)
  }

  /** Moves other than a commit. */
  predicate MayDrift(a: BlockState, b: BlockState) {
    a == b || (a == Unassigned && b == Leased) || (a == Leased && (b == Unassigned || b == Quarantined))
  }

  ghost predicate Drifts(s: seq<BlockState>, s': seq<BlockState>) {
    |s| == |s'| && forall p :: 0 <= p < |s| ==> MayDrift(s[p], s'[p])
  }

  lemma ReclaimDrifts(t: Table, ids: set<LeaseId>, counted: bool)
    requires Inv(t)
    ensures Drifts(t.state, Reclaim(t, ids, counted).state)
  {
    forall p | p in HeldBlocks(t, ids) ensures t.state[p] == Leased {
      HitIsLeased(t, ids, p);
    }
  }

  /** Installing spans marks exactly their positions. */
  lemma {:induction false} InstallState(t: Table, c: ClusterId, spans: seq<Interval>, ttl: real, now: real)
    requires c in t.clusters && t.cfg.numBlocks != 0
    ensures var t' := Install(t, c, spans, ttl, now);
            |t'.state| == |t.state| && forall p :: 0 <= p < |t.state| ==>
              t'.state[p] == if InSpans(spans, p) then Leased else t.state[p]
  {
    hide InSpans, InstallOne;
    if spans == [] {
      NothingIn(spans);
    } else {
      var n := |spans| - 1;
      InstallState(t, c, spans[..n], ttl, now);
      LastSpan(spans);
      InstallOneState(Install(t, c, spans[..n], ttl, now), c, spans[n], ttl, now);
    }
  }

  lemma NothingIn(spans: seq<Interval>)
    requires spans == []
    ensures forall p :: !InSpans(spans, p)
  {
  }

  lemma LastSpan(spans: seq<Interval>)
    requires spans != []
    ensures var n := |spans| - 1;
            forall p :: InSpans(spans, p) <==> InSpans(spans[..n], p) || spans[n].lo <= p < spans[n].hi
  {
    var n := |spans| - 1;
    forall p ensures InSpans(spans, p) <==> InSpans(spans[..n], p) || spans[n].lo <= p < spans[n].hi {
      if InSpans(spans[..n], p) {
        var i :| 0 <= i < n && spans[..n][i].lo <= p < spans[..n][i].hi;
        assert spans[i].lo <= p < spans[i].hi;
      }
    }
  }

  lemma InstallOneState(t: Table, c: ClusterId, s: Interval, ttl: real, now: real)
    requires c in t.clusters && t.cfg.numBlocks != 0
    ensures var t' := InstallOne(t, c, s, ttl, now);
            |t'.state| == |t.state| && forall p :: 0 <= p < |t.state| ==>
              t'.state[p] == if s.lo <= p < s.hi then Leased else t.state[p]
  {
  }

  lemma ServesState(t: Table, a: AcquireCall, spans: seq<Interval>, t1: Table, g: Grant, t': Table)
    requires Inv(t) && a.cluster in t.clusters && Serves(t, a, spans, t1, g, t')
    ensures |t'.state| == |t.state|
    ensures forall p :: 0 <= p < |t.state| ==> t'.state[p] == if InSpans(spans, p) then Leased else t.state[p]
    ensures forall p :: InSpans(spans, p) ==> 0 <= p < |t.state| && (t.state[p] == Unassigned || t.state[p] == Leased)
    ensures t'.epoch == t.epoch && t'.cfg == t.cfg && t'.attempts == t.attempts && t'.committed == t.committed
    ensures t'.quarantined == t.quarantined
  {
    AllotKeeps(t, a.cluster, GrantSize(t, a.cluster, a.blocks, a.clock), a.maxSpans, spans, t1);
    AllotState(t, a.cluster, GrantSize(t, a.cluster, a.blocks, a.clock), a.maxSpans, spans, t1);
    hide Inv, Allots, GrantSize, Cut, StoleFrom;
    forall p | InSpans(spans, p) ensures 0 <= p < |t.state| && (t.state[p] == Unassigned || t.state[p] == Leased) {
      assert p in SpanBlocks(spans);
    }
    if spans != [] {
      var ttl := GrantedTtl(t.cfg, t.clusters[a.cluster], a.ttl);
      InstallState(t1, a.cluster, spans, ttl, a.now);
      InstallFrame(t1, a.cluster, spans, ttl, a.now);
    }
  }

  lemma AllotState(t: Table, c: ClusterId, want: int, maxSpans: int, spans: seq<Interval>, t1: Table)
    requires c in t.clusters && Allots(t, c, want, maxSpans, spans, t1)
    ensures t1 == t.(leases := t1.leases)
  {
  }

  lemma {:induction false} InstallFrame(t: Table, c: ClusterId, spans: seq<Interval>, ttl: real, now: real)
    requires c in t.clusters && t.cfg.numBlocks != 0
    ensures var t' := Install(t, c, spans, ttl, now);
            && t'.attempts == t.attempts && t'.committed == t.committed && t'.quarantined == t.quarantined
            && t'.epochsCompleted == t.epochsCompleted
            && t'.clusters.Keys == t.clusters.Keys
            && (forall d :: d in t.clusters ==> t'.clusters[d].blocksCommitted == t.clusters[d].blocksCommitted)
  {
    if spans != [] {
      InstallFrame(t, c, spans[..|spans| - 1], ttl, now);
    }
  }

  /** Within an epoch no call but a commit moves a block to COMMITTED, and none moves a
      COMMITTED or QUARANTINED block at all. */
  lemma CallDrifts(t: Table, call: Call, t': Table)
    requires Inv(t) && Next(t, call, t') && !call.CallCommit? && t'.epoch == t.epoch
    ensures Drifts(t.state, t'.state)
  {
    match call
    case CallRegister(_, _, _, _, _, _) =>
    case CallAcquire(a) =>
      var g :| Acquires(t, a, g, t');
      AcquireDrifts(t, a, g, t');
    case CallHeartbeat(_, _, _, _, _, now) => ReclaimDrifts(t, Expired(t, now), true);
    case CallRelease(c, target, incarnation, counted) =>
      ReclaimDrifts(t, ReleaseTargets(t, c, target, incarnation), counted);
    case CallReap(now) => ReclaimDrifts(t, Expired(t, now), true);
    case CallAdvance =>
  }

  lemma AcquireDrifts(t: Table, a: AcquireCall, g: Grant, t': Table)
    requires Inv(t) && Acquires(t, a, g, t') && t'.epoch == t.epoch
    ensures Drifts(t.state, t'.state)
  {
    hide Inv, InvPending, Serves, Drifts, Advance;
    var ready := Prepared(t, a);
    PreparedDrifts(t, a);
    PreparedKeeps(t, a);
    if !(Finished(ready) && !CanAdvance(ready)) {
      RolledKeeps(ready);
      var spans, t1 :| Serves(Rolled(ready), a, spans, t1, g, t');
      ServesDrifts(Rolled(ready), a, spans, t1, g, t');
      RolledStands(ready);
      DriftsOn(t.state, ready.state, t'.state);
    }
  }

  lemma PreparedDrifts(t: Table, a: AcquireCall)
    requires Inv(t)
    ensures Drifts(t.state, Prepared(t, a).state) && Prepared(t, a).epoch == t.epoch
  {
    hide Inv, InvPending, Drifts;
    ReclaimDrifts(t, Expired(t, a.now), true);
  }

  lemma RolledStands(t: Table)
    ensures Rolled(t).epoch == t.epoch ==> Rolled(t) == t
  {
  }

  lemma ServesDrifts(t: Table, a: AcquireCall, spans: seq<Interval>, t1: Table, g: Grant, t': Table)
    requires Inv(t) && a.cluster in t.clusters && Serves(t, a, spans, t1, g, t')
    ensures t'.epoch == t.epoch && Drifts(t.state, t'.state)
    ensures forall p :: 0 <= p < |t'.state| ==> t'.state[p] == t.state[p] || t'.state[p] == Leased
  {
    hide Inv, InvPending, Serves;
    ServesState(t, a, spans, t1, g, t');
  }

  /** Free or held, a block may be held next: drifting in two steps is drifting. */
  lemma DriftsOn(s: seq<BlockState>, s1: seq<BlockState>, s2: seq<BlockState>)
    requires Drifts(s, s1) && Drifts(s1, s2) && forall p :: 0 <= p < |s2| ==> s2[p] == s1[p] || s2[p] == Leased
    ensures Drifts(s, s2)
  {
    forall p | 0 <= p < |s| ensures MayDrift(s[p], s2[p]) {
      assert MayDrift(s[p], s1[p]);
    }
  }
}
