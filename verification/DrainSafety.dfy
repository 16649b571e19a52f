/** What an answer means: drain, completion, and what a steal may take. */
module DrainSafety {
  import opened Wrappers
  import opened Intervals
  import opened Arithmetic
  import opened LeaseModel
  import opened LeaseInvariant
  import opened AcquireInvariant
  import opened LeaseSteps
  import opened LeaseRuns

  // --- the grant sizer never sizes to nothing ----------------------------------

  lemma GrantIsPositive(t: Table, c: ClusterId, requested: int, clock: real)
    requires ConfigOk(t.cfg) && c in t.clusters
    ensures t.cfg.maxBlocks >= 1 <==> GrantSize(t, c, requested, clock) >= 1
  {
    var active := ActiveClusters(t.cfg, t.leases, t.clusters, clock);
    assert c in t.clusters.Keys;
  }

  // --- drain and completion ----------------------------------------------------

  lemma DoneMeansSettled(t: Table)
    requires Inv(t)
    ensures EpochDone(t) <==> forall p :: 0 <= p < |t.state| ==> t.state[p] == Committed || t.state[p] == Quarantined
  {
    var c, q := Where(t.state, Committed), Where(t.state, Quarantined);
    assert |c + q| == t.committed + t.quarantined by { assert c !! q; }
    RangeSize(0, |t.state|);
    if EpochDone(t) {
      SubsetSize(Range(0, |t.state|) - (c + q), Range(0, |t.state|) - (c + q));
      assert c + q <= Range(0, |t.state|);
      assert |Range(0, |t.state|) - (c + q)| == |t.state| - |c + q|;
      forall p | 0 <= p < |t.state| ensures t.state[p] == Committed || t.state[p] == Quarantined {
        assert p in Range(0, |t.state|);
      }
    } else if forall p :: 0 <= p < |t.state| ==> t.state[p] == Committed || t.state[p] == Quarantined {
      SubsetSize(Range(0, |t.state|), c + q);
    }
  }

  /** With nothing held, whatever is not settled is free. */
  lemma NothingHeld(t: Table)
    requires Inv(t) && t.leases == map[]
    ensures forall p :: 0 <= p < |t.state| ==> t.state[p] != Leased
    ensures FreeBlocks(t.state) == {} ==> EpochDone(t)
  {
    forall p | 0 <= p < |t.state| ensures t.state[p] != Leased {
      assert !Covered(t.leases, p);
    }
    if FreeBlocks(t.state) == {} {
      forall p | 0 <= p < |t.state| ensures t.state[p] == Committed || t.state[p] == Quarantined {
        assert p !in FreeBlocks(t.state);
      }
      DoneMeansSettled(t);
    }
  }

  /** The pool serves the request exactly when it has something and both caps allow a block. */
  lemma PoolServes(t: Table, a: AcquireCall, spans: seq<Interval>, t1: Table, g: Grant, t': Table)
    requires Inv(t) && a.cluster in t.clusters && Serves(t, a, spans, t1, g, t')
    ensures FreeBlocks(t.state) != {} && a.maxSpans >= 1 && t.cfg.maxBlocks >= 1 ==>
      g.status == Granted && TakenNear(FreeBlocks(t.state), t.clusters[a.cluster].cursor,
                                       GrantSize(t, a.cluster, a.blocks, a.clock), a.maxSpans, spans)
    ensures g.status == Granted <==> spans != []
  {
    GrantIsPositive(t, a.cluster, a.blocks, a.clock);
  }

  lemma ServedAnswer(t: Table, a: AcquireCall, spans: seq<Interval>, t1: Table, g: Grant, t': Table)
    requires Inv(t) && a.cluster in t.clusters && Serves(t, a, spans, t1, g, t')
    requires a.maxSpans >= 1 && t.cfg.maxBlocks >= 1
    ensures g.status != Granted ==> FreeBlocks(t'.state) == {} && t' == t
    ensures g.status == EpochComplete ==> EpochDone(t')
    ensures (t.leases == map[] ==> g.status != Drain) && (g.status == Drain ==> t.leases != map[])
    ensures g.status == Granted <==> g.leases != []
  {
    PoolServes(t, a, spans, t1, g, t');
    if g.status != Granted {
      AllotKeeps(t, a.cluster, GrantSize(t, a.cluster, a.blocks, a.clock), a.maxSpans, spans, t1);
      if g.status == EpochComplete {
        NothingHeld(t);
      }
    }
  }

  /** `drain` is only said when no block is free, `epoch_complete` only when every block is
      settled; and once every deadline has passed nobody is told to wait. */
  lemma NoStuckDrain(t: Table, a: AcquireCall, g: Grant, t': Table)
    requires Inv(t) && Acquires(t, a, g, t') && a.maxSpans >= 1 && t.cfg.maxBlocks >= 1
    ensures g.status == Drain ==> FreeBlocks(t'.state) == {} && t'.leases != map[]
    ensures g.status == EpochComplete ==>
      forall p :: 0 <= p < |t'.state| ==> t'.state[p] == Committed || t'.state[p] == Quarantined
    ensures (forall id :: id in t.leases ==> t.leases[id].deadline < a.now) ==> g.status != Drain
    ensures g.status == Granted <==> g.leases != []
  {
    hide *;
    var ready := Prepared(t, a);
    PreparedKeeps(t, a);
    PreparedLeases(t, a);
    AcquireKeeps(t, a, g, t');
    var served, spans, t1 := Answer(t, a, g, t');
    if served {
      RolledKeeps(ready);
      RolledLeases(ready);
      RolledSettings(t, a);
      ServedAnswer(Rolled(ready), a, spans, t1, g, t');
    } else {
      FinishedIsDone(t');
    }
    DoneMeansSettled(t');
  }

  lemma FinishedIsDone(t: Table)
    requires Finished(t)
    ensures EpochDone(t) && t.leases == map[]
  {
  }

  lemma RolledSettings(t: Table, a: AcquireCall)
    ensures Rolled(Prepared(t, a)).cfg == t.cfg
  {
  }

  /** Nobody can be robbed for this request. */
  ghost predicate NoneToRob(t: Table, c: ClusterId, want: int) {
    !t.cfg.allowStealing || want < t.cfg.stealMinBlocks || forall id :: !Candidate(t.cfg, t.leases, c, id)
  }

  lemma NothingStolen(t: Table, c: ClusterId, want: int)
    requires t.cfg.allowStealing && NoneToRob(t, c, want)
    ensures Stole(t, c, want, [], t)
  {
    assert t == t.(leases := t.leases) && CutShort(t.leases, t.leases, [], []);
    assert StoleFrom(t, c, want, [], [], t);
  }

  /** A request that may have no span or no block is answered from the leases alone, whatever is free. */
  lemma StarvedAnswer(t: Table, a: AcquireCall) returns (g: Grant)
    requires Inv(t) && (a.maxSpans < 1 || t.cfg.maxBlocks < 1)
    requires var ready := Prepared(t, a);
             !Finished(ready) && NoneToRob(ready, a.cluster, GrantSize(ready, a.cluster, a.blocks, a.clock))
    ensures Acquires(t, a, g, Prepared(t, a))
    ensures g == Starved(Prepared(t, a))
  {
    hide *;
    PreparedKeeps(t, a);
    g := Starved(Prepared(t, a));
    StarvedServes(Prepared(t, a), a);
    ServedUnrolled(t, a, g);
  }

  function Starved(t: Table): Grant {
    Grant(if t.leases != map[] then Drain else EpochComplete, t.epoch, [])
  }

  lemma StarvedServes(t: Table, a: AcquireCall)
    requires Inv(t) && a.cluster in t.clusters && (a.maxSpans < 1 || t.cfg.maxBlocks < 1)
    requires NoneToRob(t, a.cluster, GrantSize(t, a.cluster, a.blocks, a.clock))
    ensures t.cfg.numBlocks != 0 && Serves(t, a, [], t, Starved(t), t)
  {
    var want := GrantSize(t, a.cluster, a.blocks, a.clock);
    GrantIsPositive(t, a.cluster, a.blocks, a.clock);
    NumbersIssued(t);
    if t.cfg.allowStealing {
      NothingStolen(t, a.cluster, want);
    }
    hide Inv, InvPending, GrantSize, Stole, NoneToRob, FreeBlocks;
  }

  lemma ServedUnrolled(t: Table, a: AcquireCall, g: Grant)
    requires !Finished(Prepared(t, a)) && a.cluster in Prepared(t, a).clusters && Prepared(t, a).cfg.numBlocks != 0
    requires Serves(Prepared(t, a), a, [], Prepared(t, a), g, Prepared(t, a))
    ensures Acquires(t, a, g, Prepared(t, a))
  {
    hide Serves, Prepared, Finished;
    assert Rolled(Prepared(t, a)) == Prepared(t, a);
  }

  /** A fresh table, asked for no span or no block: the epoch is said to be complete while every
      block is free. */
  lemma FalseCompletion(cfg: Config, epoch: int, a: AcquireCall, g: Grant, t': Table)
    requires ConfigOk(cfg) && (a.maxSpans < 1 || cfg.maxBlocks < 1)
    requires Acquires(NewTable(cfg, epoch), a, g, t')
    ensures g.status == EpochComplete && FreeBlocks(t'.state) == Range(0, cfg.numBlocks) && 0 in FreeBlocks(t'.state)
  {
    var t := NewTable(cfg, epoch);
    var ready := Prepared(t, a);
    FreshPrepared(cfg, epoch, a);
    var spans, t1 :| Serves(ready, a, spans, t1, g, t');
    GrantIsPositive(ready, a.cluster, a.blocks, a.clock);
    assert spans == [];
  }

  lemma FreshPrepared(cfg: Config, epoch: int, a: AcquireCall)
    requires ConfigOk(cfg)
    ensures var ready := Prepared(NewTable(cfg, epoch), a);
            && ready.state == NewTable(cfg, epoch).state && ready.leases == map[] && !Finished(ready)
            && FreeBlocks(ready.state) == Range(0, cfg.numBlocks)
  {
    var t := NewTable(cfg, epoch);
    assert Expired(t, a.now) == {};
    assert HeldBlocks(t, {}) == {};
    var ready := Prepared(t, a);
    assert ready.state == t.state && ready.leases == map[];
    assert FreeBlocks(ready.state) == Range(0, cfg.numBlocks);
  }

  /** Two blocks or more, one of them leased to somebody else for now and the rest free: the request
      is told to wait for that lease. */
  lemma FalseDrain(cfg: Config, a: AcquireCall) returns (t: Table, g: Grant, t': Table)
    requires ConfigOk(cfg) && cfg.numBlocks >= 2 && (a.maxSpans < 1 || cfg.maxBlocks < 1)
    ensures Inv(t) && t.cfg == cfg && Acquires(t, a, g, t')
    ensures g.status == Drain && 1 in FreeBlocks(t'.state)
  {
    t := OneHeld(cfg, a.cluster + "+", a.now);
    OneHeldIsSound(cfg, a.cluster + "+", a.now);
    OneHeldPrepared(cfg, a);
    t' := Prepared(t, a);
    g := StarvedAnswer(t, a);
  }

  /** Block 0 held by `c` until `now`, every other block free. */
  function OneHeld(cfg: Config, c: ClusterId, now: real): Table
    requires cfg.numBlocks >= 2
  {
    var id := Issued(0, 0, 1);
    NewTable(cfg, 0).(state := [Leased] + seq(cfg.numBlocks - 1, _ => Unassigned),
                      leases := map[id := Lease(id, c, 0, 0, 1, 0, 0, now, now, 0.0)],
                      clusters := map[c := NewRecord(now)], lastNumber := 1)
  }

  lemma OneHeldIsSound(cfg: Config, c: ClusterId, now: real)
    requires ConfigOk(cfg) && cfg.numBlocks >= 2
    ensures Inv(OneHeld(cfg, c, now))
  {
    var t, id := OneHeld(cfg, c, now), Issued(0, 0, 1);
    assert Where(t.state, Committed) == {} && Where(t.state, Quarantined) == {};
    SumUpdate(map[], c, NewRecord(now));
    assert t.clusters == map[][c := NewRecord(now)];
    assert id in t.leases && Holds(t.leases[id], 0) && Covered(t.leases, 0);
  }

  lemma OneHeldPrepared(cfg: Config, a: AcquireCall)
    requires ConfigOk(cfg) && cfg.numBlocks >= 2
    ensures var t := OneHeld(cfg, a.cluster + "+", a.now);
            var ready := Prepared(t, a);
            && ready.leases == t.leases != map[] && 1 in FreeBlocks(ready.state)
            && forall want :: NoneToRob(ready, a.cluster, want)
  {
    var t, id := OneHeld(cfg, a.cluster + "+", a.now), Issued(0, 0, 1);
    assert id in t.leases;
    assert Expired(t, a.now) == {};
    assert HeldBlocks(t, {}) == {};
    var ready := Prepared(t, a);
    assert ready.state == t.state && ready.leases == t.leases;
  }

  /** What the answer says is so: nothing is free and others hold leases, or every block is settled. */
  ghost predicate Truthful(g: Grant, t: Table) {
    && (g.status == Drain ==> FreeBlocks(t.state) == {} && t.leases != map[])
    && (g.status == EpochComplete ==> EpochDone(t))
  }

  /** This request gets a truthful answer from every sound table with these settings. */
  ghost predicate Honest(cfg: Config, a: AcquireCall) {
    forall t: Table, g: Grant, t': Table :: t.cfg == cfg && Inv(t) && Acquires(t, a, g, t') ==> Truthful(g, t')
  }

  /** Answers can be trusted exactly when the request admits a span and the settings a block. */
  lemma HonestExactly(cfg: Config, a: AcquireCall)
    requires ConfigOk(cfg)
    ensures Honest(cfg, a) <==> a.maxSpans >= 1 && cfg.maxBlocks >= 1
  {
    hide *;
    if a.maxSpans >= 1 && cfg.maxBlocks >= 1 {
      forall t: Table, g: Grant, t': Table | t.cfg == cfg && Inv(t) && Acquires(t, a, g, t') ensures Truthful(g, t') {
        AnswerIsTruthful(t, a, g, t');
      }
      assert Honest(cfg, a) by { HonestMeans(cfg, a); }
    } else {
      NewTableIsSound(cfg, 0);
      FreshPrepared(cfg, 0, a);
      NewSettings(cfg, a);
      FreshHasNoneToRob(cfg, a);
      var t := NewTable(cfg, 0);
      var g := StarvedAnswer(t, a);
      var t' := Prepared(t, a);
      FalseCompletion(cfg, 0, a, g, t');
      AcquireKeeps(t, a, g, t');
      UntruthfulCompletion(g, t');
      HonestMeans(cfg, a);
    }
  }

  lemma HonestMeans(cfg: Config, a: AcquireCall)
    ensures Honest(cfg, a) <==> forall t: Table, g: Grant, t': Table :: t.cfg == cfg && Inv(t) && Acquires(t, a, g, t') ==> Truthful(g, t')
  {
    hide Inv, Acquires, Truthful;
  }

  lemma NewSettings(cfg: Config, a: AcquireCall)
    requires ConfigOk(cfg)
    ensures cfg.numBlocks >= 1 && NewTable(cfg, 0).cfg == cfg && Prepared(NewTable(cfg, 0), a).cfg == cfg
  {
  }

  lemma FreshHasNoneToRob(cfg: Config, a: AcquireCall)
    requires ConfigOk(cfg)
    ensures forall want :: NoneToRob(Prepared(NewTable(cfg, 0), a), a.cluster, want)
  {
    FreshPrepared(cfg, 0, a);
    hide Prepared;
  }

  lemma AnswerIsTruthful(t: Table, a: AcquireCall, g: Grant, t': Table)
    requires Inv(t) && Acquires(t, a, g, t') && a.maxSpans >= 1 && t.cfg.maxBlocks >= 1
    ensures Truthful(g, t')
  {
    hide Inv, Acquires, FreeBlocks;
    NoStuckDrain(t, a, g, t');
    AcquireKeeps(t, a, g, t');
    DoneMeansSettled(t');
  }

  /** A block that is free is not settled. */
  lemma UntruthfulCompletion(g: Grant, t: Table)
    requires g.status == EpochComplete && 0 in FreeBlocks(t.state) && Inv(t)
    ensures !Truthful(g, t)
  {
    hide Inv;
    DoneMeansSettled(t);
  }

  // --- how a lease evolves -----------------------------------------------------

  /** A lease that survives a call keeps its holder and start; its watermarks never fall, its end
      never grows, and whatever was taken off the end was at most half of what its holder had
      neither started nor committed. */
  ghost predicate Evolves(l: Lease, l': Lease) {
    && l'.cluster == l.cluster && l'.epoch == l.epoch && l'.start == l.start
    && l.committedEnd <= l'.committedEnd && l.progressEnd <= l'.progressEnd && l'.end <= l.end
    && Unstarted(l) <= l'.end
    && 2 * (l.end - l'.end) <= Stealable(l)
  }

  ghost predicate LeasesEvolve(leases: map<LeaseId, Lease>, leases': map<LeaseId, Lease>) {
    forall id :: id in leases && id in leases' ==> Evolves(leases[id], leases'[id])
  }

  lemma StealEvolves(t: Table, thief: ClusterId, want: int, victims: seq<LeaseId>, spans: seq<Interval>, t': Table)
    requires Inv(t) && StoleFrom(t, thief, want, victims, spans, t')
    ensures LeasesEvolve(t.leases, t'.leases)
    ensures forall i :: 0 <= i < |spans| ==>
      victims[i] in t.leases && Unstarted(t.leases[victims[i]]) < spans[i].lo && t.leases[victims[i]].cluster != thief
  {
    StealTakesHalf(t, thief, want, victims, spans, t');
    StandStill(t);
    hide *;
    CutEvolves(t.leases, t'.leases, victims, spans);
  }

  lemma CutEvolves(leases: map<LeaseId, Lease>, leases': map<LeaseId, Lease>, victims: seq<LeaseId>, spans: seq<Interval>)
    requires CutShort(leases, leases', victims, spans) && forall id :: id in leases ==> Evolves(leases[id], leases[id])
    requires forall i :: 0 <= i < |victims| ==>
      && Unstarted(leases[victims[i]]) <= spans[i].lo <= leases[victims[i]].end
      && 2 * (leases[victims[i]].end - spans[i].lo) <= Stealable(leases[victims[i]])
    ensures LeasesEvolve(leases, leases')
  {
    forall id | id in leases ensures id in leases' && Evolves(leases[id], leases'[id]) {
      if id in victims {
        var i :| 0 <= i < |victims| && victims[i] == id;
      }
    }
  }

  lemma StealTakesHalf(t: Table, thief: ClusterId, want: int, victims: seq<LeaseId>, spans: seq<Interval>, t': Table)
    requires Inv(t) && StoleFrom(t, thief, want, victims, spans, t')
    ensures |victims| == |spans| && CutShort(t.leases, t'.leases, victims, spans)
    ensures forall i :: 0 <= i < |spans| ==>
      && victims[i] in t.leases && t.leases[victims[i]].cluster != thief
      && Unstarted(t.leases[victims[i]]) < spans[i].lo <= t.leases[victims[i]].end
      && 2 * (t.leases[victims[i]].end - spans[i].lo) <= Stealable(t.leases[victims[i]])
  {
    assert ConfigOk(t.cfg);
    hide Inv, InvPending;
    forall i | 0 <= i < |spans|
      ensures Unstarted(t.leases[victims[i]]) < spans[i].lo <= t.leases[victims[i]].end
      ensures 2 * (t.leases[victims[i]].end - spans[i].lo) <= Stealable(t.leases[victims[i]])
    {
      assert Candidate(t.cfg, t.leases, thief, victims[i]);
      AmountBound(t.cfg, t.leases[victims[i]], want - SpanTotal(spans[..i]));
    }
  }

  // --- what a call can do to a lease's watermarks ------------------------------

  /** How far a call lets the watermarks of one lease rise, and the end it may leave. */
  ghost predicate Moves(call: Call, id: LeaseId, l: Lease, l': Lease) {
    && Evolves(l, l')
    && l'.committedEnd <= (if call.CallCommit? && call.lease == id && call.cluster == l.cluster
                           then Max(l.committedEnd, call.through) else l.committedEnd)
    && l'.progressEnd <= (if call.CallCommit? && call.lease == id && call.cluster == l.cluster
                          then Max(l.progressEnd, call.through)
                          else if call.CallHeartbeat? && id in call.progress && call.cluster == l.cluster
                          then Max(l.progressEnd, call.progress[id]) else l.progressEnd)
    && (!call.CallAcquire? ==> l'.end == l.end)
  }

  /** No lease id ever comes back: a new lease carries a number never issued before, and starts
      with nothing consumed or committed. */
  ghost predicate NewIds(t: Table, t': Table) {
    && t.lastNumber <= t'.lastNumber
    && forall id :: id in t'.leases && id !in t.leases ==>
         t.lastNumber < NumberOf(id)
         && t'.leases[id].committedEnd == t'.leases[id].start && t'.leases[id].progressEnd == t'.leases[id].start
  }

  ghost predicate AllMove(t: Table, call: Call, t': Table) {
    forall id :: id in t.leases && id in t'.leases ==> Moves(call, id, t.leases[id], t'.leases[id])
  }

  /** Every call keeps every surviving lease's promise to its holder. */
  lemma CallMoves(t: Table, call: Call, t': Table)
    requires Inv(t) && Next(t, call, t')
    ensures AllMove(t, call, t') && NewIds(t, t')
    ensures (exists id :: id in t'.leases && id !in t.leases) ==> call.CallAcquire?
  {
    hide Inv, InvPending, Moves, AllMove, NewIds, Acquires, Register, Heartbeat, Commit, Release, Reap, Advance;
    match call
    case CallRegister(c, digest, ranks, incarnation, check, now) =>
      RegisterKeepsLeases(t, c, digest, ranks, incarnation, check, now);
      FewerMove(t, call, t');
    case CallAcquire(a) =>
      var g :| Acquires(t, a, g, t');
      AcquireMoves(t, a, g, t');
    case CallHeartbeat(c, progress, macroStep, rtt, ttl, now) =>
      HeartbeatMoves(t, c, progress, macroStep, rtt, ttl, now);
    case CallCommit(c, id, through, now) => CommitMoves(t, c, id, through, now);
    case CallRelease(c, target, incarnation, counted) =>
      FewerLeases(t, ReleaseTargets(t, c, target, incarnation), counted);
      assert t' == Reclaim(t, ReleaseTargets(t, c, target, incarnation), counted) by { ReleaseIsReclaim(t, c, target, incarnation, counted); }
      FewerMove(t, call, t');
    case CallReap(now) =>
      FewerLeases(t, Expired(t, now), true);
      assert t' == Reclaim(t, Expired(t, now), true) by { ReapIsReclaim(t, now); }
      FewerMove(t, call, t');
    case CallAdvance =>
      AdvanceKeepsLeases(t);
      FewerMove(t, call, t');
  }

  /** Leases may go, and those that stay are untouched. */
  ghost predicate OnlyFewer(t: Table, t': Table) {
    t'.lastNumber == t.lastNumber && forall id :: id in t'.leases ==> id in t.leases && t'.leases[id] == t.leases[id]
  }

  lemma FewerMove(t: Table, call: Call, t': Table)
    requires Inv(t) && OnlyFewer(t, t')
    ensures AllMove(t, call, t') && NewIds(t, t')
    ensures forall id :: id in t'.leases ==> id in t.leases
  {
    hide Inv, InvPending;
    StandStill(t);
  }

  lemma RegisterKeepsLeases(t: Table, c: ClusterId, digest: string, ranks: int, incarnation: string, check: bool, now: real)
    ensures OnlyFewer(t, OrSame(Register(t, c, digest, ranks, incarnation, check, now), t))
  {
  }

  lemma FewerLeases(t: Table, ids: set<LeaseId>, counted: bool)
    ensures OnlyFewer(t, Reclaim(t, ids, counted))
  {
    hide HeldBlocks, Returned, Blamed, Poisoned;
  }

  lemma ReleaseIsReclaim(t: Table, c: ClusterId, target: Option<LeaseId>, incarnation: string, counted: bool)
    ensures Release(t, c, target, incarnation, counted) == Reclaim(t, ReleaseTargets(t, c, target, incarnation), counted)
  {
  }

  lemma ReapIsReclaim(t: Table, now: real)
    ensures Reap(t, now) == Reclaim(t, Expired(t, now), true)
  {
  }

  lemma AdvanceKeepsLeases(t: Table)
    ensures OnlyFewer(t, Advance(t))
  {
  }

  lemma StandStill(t: Table)
    requires Inv(t)
    ensures forall id :: id in t.leases ==>
      Evolves(t.leases[id], t.leases[id]) && NumberOf(id) <= t.lastNumber
      && t.leases[id].committedEnd <= t.leases[id].progressEnd < t.leases[id].end + 1
  {
    forall id | id in t.leases
      ensures Evolves(t.leases[id], t.leases[id]) && NumberOf(id) <= t.lastNumber
      ensures t.leases[id].committedEnd <= t.leases[id].progressEnd < t.leases[id].end + 1
    {
      assert LeaseOk(t.leases[id], id, t.epoch, |t.state|, t.clusters.Keys, t.lastNumber);
    }
  }

  lemma HeartbeatMoves(t: Table, c: ClusterId, progress: map<LeaseId, int>, macroStep: real, rtt: real, ttl: real, now: real)
    requires Inv(t)
    ensures var call := CallHeartbeat(c, progress, macroStep, rtt, ttl, now);
            var t' := Heartbeat(t, c, progress, macroStep, rtt, ttl, now);
            AllMove(t, call, t') && NewIds(t, t') && t'.leases.Keys <= t.leases.Keys
  {
    StandStill(t);
    var call := CallHeartbeat(c, progress, macroStep, rtt, ttl, now);
    var t' := Heartbeat(t, c, progress, macroStep, rtt, ttl, now);
    assert t'.leases.Keys == t.leases.Keys - Expired(t, now) && t'.lastNumber == t.lastNumber;
    forall id | id in t'.leases ensures Moves(call, id, t.leases[id], t'.leases[id]) {
      assert t'.leases[id] == t.leases[id]
          || (id in progress && t.leases[id].cluster == c
              && exists renewed :: t'.leases[id] == Renewed(t.leases[id], progress[id], renewed, now));
    }
  }

  lemma CommitMoves(t: Table, c: ClusterId, id: LeaseId, through: int, now: real)
    requires Inv(t)
    ensures var call := CallCommit(c, id, through, now);
            var t' := OrSame(Commit(t, c, id, through, now), t);
            AllMove(t, call, t') && NewIds(t, t') && t'.leases.Keys <= t.leases.Keys
  {
    hide *;
    StandStill(t);
    var t' := OrSame(Commit(t, c, id, through, now), t);
    if id in t.leases && t.leases[id].cluster == c {
      CommitShape(t, c, id, through, now);
      CommitLeaves(t, c, id, through, now);
      OneMoves(t, c, id, through, now, t');
    } else {
      CommitRefused(t, c, id, through, now);
      FewerMove(t, CallCommit(c, id, through, now), t');
    }
  }

  lemma CommitRefused(t: Table, c: ClusterId, id: LeaseId, through: int, now: real)
    requires !(id in t.leases && t.leases[id].cluster == c)
    ensures OnlyFewer(t, OrSame(Commit(t, c, id, through, now), t))
  {
  }

  /** What a commit leaves of the leases. */
  lemma CommitLeaves(t: Table, c: ClusterId, id: LeaseId, through: int, now: real)
    requires Inv(t) && id in t.leases && t.leases[id].cluster == c
    ensures var t' := OrSame(Commit(t, c, id, through, now), t);
            t'.leases == AfterCommit(t.leases, id, ClampThrough(t.leases[id], through)) && t'.lastNumber == t.lastNumber
  {
    hide Inv, InvPending, Commit, AfterCommit, ClampThrough, Credited;
    CommitShape(t, c, id, through, now);
  }

  lemma OneMoves(t: Table, c: ClusterId, id: LeaseId, through: int, now: real, t': Table)
    requires Inv(t) && id in t.leases && t.leases[id].cluster == c
    requires t'.leases == AfterCommit(t.leases, id, ClampThrough(t.leases[id], through)) && t'.lastNumber == t.lastNumber
    ensures AllMove(t, CallCommit(c, id, through, now), t') && NewIds(t, t') && t'.leases.Keys <= t.leases.Keys
  {
    hide Inv, InvPending;
    StandStill(t);
  }

  lemma AcquireMoves(t: Table, a: AcquireCall, g: Grant, t': Table)
    requires Inv(t) && Acquires(t, a, g, t')
    ensures AllMove(t, CallAcquire(a), t') && NewIds(t, t')
    ensures forall l :: l in g.leases ==>
      l.id in t'.leases && t'.leases[l.id] == l && NumberOf(l.id) > t.lastNumber && l.cluster == a.cluster
      && l.committedEnd == l.start == l.progressEnd
    ensures forall id :: id in t'.leases && id !in t.leases ==> exists l :: l in g.leases && l.id == id
  {
    hide *;
    var ready := Prepared(t, a);
    PreparedKeeps(t, a);
    PreparedLeases(t, a);
    var served, spans, t1 := Answer(t, a, g, t');
    if served {
      RolledKeeps(ready);
      RolledLeases(ready);
      ServesMoves(Rolled(ready), a, spans, t1, g, t');
      ComposeMoves(t, a, Rolled(ready), g, t');
    } else {
      FewerMove(t, CallAcquire(a), t');
    }
  }

  /** How the request was answered: served from the rolled table, or told at once that it is over. */
  lemma Answer(t: Table, a: AcquireCall, g: Grant, t': Table) returns (served: bool, spans: seq<Interval>, t1: Table)
    requires Acquires(t, a, g, t')
    ensures a.cluster in Prepared(t, a).clusters && Prepared(t, a).cfg.numBlocks != 0
    ensures served ==> a.cluster in Rolled(Prepared(t, a)).clusters && Rolled(Prepared(t, a)).cfg.numBlocks != 0
                       && Serves(Rolled(Prepared(t, a)), a, spans, t1, g, t')
    ensures !served ==> t' == Prepared(t, a) && g == Grant(EpochComplete, t'.epoch, []) && Finished(t') && g.leases == []
  {
    hide Serves, Prepared, Finished;
    var ready := Prepared(t, a);
    served := !(Finished(ready) && !CanAdvance(ready));
    spans, t1 := [], t;
    if served {
      spans, t1 :| Serves(Rolled(ready), a, spans, t1, g, t');
    }
  }

  lemma PreparedLeases(t: Table, a: AcquireCall)
    ensures OnlyFewer(t, Prepared(t, a))
    ensures (forall id :: id in t.leases ==> t.leases[id].deadline < a.now) ==> Prepared(t, a).leases == map[]
  {
    hide HeldBlocks, Returned, Poisoned, Blamed;
  }

  lemma RolledLeases(t: Table)
    ensures OnlyFewer(t, Rolled(t)) && (t.leases == map[] ==> Rolled(t).leases == map[])
  {
  }

  lemma ComposeMoves(t: Table, a: AcquireCall, mid: Table, g: Grant, t': Table)
    requires Inv(t) && (OnlyFewer(t, mid) || exists ready :: OnlyFewer(t, ready) && OnlyFewer(ready, mid))
    requires mid.lastNumber <= t'.lastNumber && t'.leases.Keys == mid.leases.Keys + IdsOf(g.leases)
    requires forall id :: id in mid.leases ==> Moves(CallAcquire(a), id, mid.leases[id], t'.leases[id])
    requires forall l :: l in g.leases ==>
      t'.leases[l.id] == l && NumberOf(l.id) > mid.lastNumber && l.cluster == a.cluster
      && l.committedEnd == l.start == l.progressEnd
    ensures AllMove(t, CallAcquire(a), t') && NewIds(t, t')
    ensures forall l :: l in g.leases ==>
      l.id in t'.leases && t'.leases[l.id] == l && NumberOf(l.id) > t.lastNumber && l.cluster == a.cluster
      && l.committedEnd == l.start == l.progressEnd
    ensures forall id :: id in t'.leases && id !in t.leases ==> exists l :: l in g.leases && l.id == id
  {
    hide Inv, InvPending, Moves;
    assert OnlyFewer(t, mid);
    StandStill(t);
    forall id | id in t.leases && id in t'.leases ensures Moves(CallAcquire(a), id, t.leases[id], t'.leases[id]) {
      assert id in mid.leases;
    }
  }

  ghost function IdsOf(leases: seq<Lease>): set<LeaseId> {
    set l | l in leases :: l.id
  }

  lemma ServesMoves(t: Table, a: AcquireCall, spans: seq<Interval>, t1: Table, g: Grant, t': Table)
    requires Inv(t) && a.cluster in t.clusters && Serves(t, a, spans, t1, g, t')
    ensures t.lastNumber <= t'.lastNumber && t'.leases.Keys == t.leases.Keys + IdsOf(g.leases)
    ensures forall id :: id in t.leases ==> Moves(CallAcquire(a), id, t.leases[id], t'.leases[id])
    ensures forall l :: l in g.leases ==>
      t'.leases[l.id] == l && NumberOf(l.id) > t.lastNumber && l.cluster == a.cluster
      && l.committedEnd == l.start == l.progressEnd
  {
    AllotMoves(t, a, GrantSize(t, a.cluster, a.blocks, a.clock), spans, t1);
    NumbersIssued(t);
    if spans == [] {
      assert g.leases == [] && IdsOf([]) == {};
    } else {
      var ttl := GrantedTtl(t.cfg, t.clusters[a.cluster], a.ttl);
      assert t' == Install(t1, a.cluster, spans, ttl, a.now) && g.leases == NewLeases(t1, a.cluster, spans, ttl, a.now);
      hide *;
      InstallAll(t, t1, a, spans, ttl);
    }
  }

  lemma NumbersIssued(t: Table)
    requires Inv(t)
    ensures 0 <= t.lastNumber && t.cfg.numBlocks != 0
    ensures forall id :: id in t.leases ==> NumberOf(id) <= t.lastNumber
  {
    StandStill(t);
  }

  lemma InstallAll(t: Table, t1: Table, a: AcquireCall, spans: seq<Interval>, ttl: real)
    requires a.cluster in t1.clusters && t1.cfg.numBlocks != 0 && 0 <= t.lastNumber
    requires t1.leases.Keys == t.leases.Keys && t1.lastNumber == t.lastNumber
    requires forall id :: id in t.leases ==> NumberOf(id) <= t.lastNumber
    requires forall id :: id in t.leases ==> Moves(CallAcquire(a), id, t.leases[id], t1.leases[id])
    ensures var t', granted := Install(t1, a.cluster, spans, ttl, a.now), NewLeases(t1, a.cluster, spans, ttl, a.now);
            && t.lastNumber <= t'.lastNumber && t'.leases.Keys == t.leases.Keys + IdsOf(granted)
            && (forall id :: id in t.leases ==> Moves(CallAcquire(a), id, t.leases[id], t'.leases[id]))
            && (forall l :: l in granted ==>
                  t'.leases[l.id] == l && NumberOf(l.id) > t.lastNumber && l.cluster == a.cluster
                  && l.committedEnd == l.start == l.progressEnd)
  {
    NewLeasesAreBlank(t1, a.cluster, spans, ttl, a.now);
    hide Moves, Evolves, Install, NewLeases;
    assert spans[..|spans|] == spans;
    InstallLeases(t1, a.cluster, spans, |spans|, ttl, a.now);
  }

  lemma NewLeasesAreBlank(t: Table, c: ClusterId, spans: seq<Interval>, ttl: real, now: real)
    ensures forall l :: l in NewLeases(t, c, spans, ttl, now) ==>
      l.cluster == c && l.committedEnd == l.start == l.progressEnd
  {
  }

  lemma AllotMoves(t: Table, a: AcquireCall, want: int, spans: seq<Interval>, t1: Table)
    requires Inv(t) && a.cluster in t.clusters && Allots(t, a.cluster, want, a.maxSpans, spans, t1)
    ensures t1.leases.Keys == t.leases.Keys && t1.lastNumber == t.lastNumber && t1.epoch == t.epoch
    ensures forall id :: id in t.leases ==> Moves(CallAcquire(a), id, t.leases[id], t1.leases[id])
  {
    if t1 != t {
      var victims :| StoleFrom(t, a.cluster, want, victims, spans, t1);
      StealMoves(t, a, want, victims, spans, t1);
    } else {
      StandStill(t);
    }
  }

  lemma StealMoves(t: Table, a: AcquireCall, want: int, victims: seq<LeaseId>, spans: seq<Interval>, t1: Table)
    requires Inv(t) && StoleFrom(t, a.cluster, want, victims, spans, t1)
    ensures t1.leases.Keys == t.leases.Keys && t1.lastNumber == t.lastNumber && t1.epoch == t.epoch
    ensures forall id :: id in t.leases ==> Moves(CallAcquire(a), id, t.leases[id], t1.leases[id])
  {
    StealEvolves(t, a.cluster, want, victims, spans, t1);
    assert t1 == t.(leases := t1.leases) && CutShort(t.leases, t1.leases, victims, spans);
    hide Inv, InvPending, StoleFrom, Evolves;
    CutKeepsMarks(t.leases, t1.leases, victims, spans);
  }

  lemma CutKeepsMarks(leases: map<LeaseId, Lease>, leases': map<LeaseId, Lease>, victims: seq<LeaseId>, spans: seq<Interval>)
    requires CutShort(leases, leases', victims, spans)
    ensures forall id :: id in leases ==>
      leases'[id].committedEnd == leases[id].committedEnd && leases'[id].progressEnd == leases[id].progressEnd
  {
    forall id | id in leases && id in victims
      ensures leases'[id].committedEnd == leases[id].committedEnd && leases'[id].progressEnd == leases[id].progressEnd
    {
      var i :| 0 <= i < |victims| && victims[i] == id;
    }
  }

  /** The leases a grant installs are exactly those it reports. */
  lemma {:induction false} InstallLeases(t: Table, c: ClusterId, spans: seq<Interval>, k: nat, ttl: real, now: real)
    requires c in t.clusters && t.cfg.numBlocks != 0 && k <= |spans| && 0 <= t.lastNumber
    requires forall id :: id in t.leases ==> NumberOf(id) <= t.lastNumber
    ensures Holding(t, Install(t, c, spans[..k], ttl, now), NewLeases(t, c, spans[..k], ttl, now), t.lastNumber + k)
  {
    hide *;
    if k == 0 {
      assert spans[..0] == [];
      NoLeasesYet(t, c, ttl, now);
    } else {
      InstallLeases(t, c, spans, k - 1, ttl, now);
      NextInstalled(t, c, spans, k - 1, ttl, now);
      var before, granted := Install(t, c, spans[..k - 1], ttl, now), NewLeases(t, c, spans[..k - 1], ttl, now);
      AddLease(t, before, granted, c, spans[k - 1], t.lastNumber + k, ttl, now);
    }
  }

  /** `t'` holds the leases of `t` and those granted since, numbered up to `last`. */
  ghost predicate Holding(t: Table, t': Table, granted: seq<Lease>, last: int) {
    && t'.leases.Keys == t.leases.Keys + IdsOf(granted)
    && (forall id :: id in t.leases ==> t'.leases[id] == t.leases[id])
    && (forall l :: l in granted ==> t'.leases[l.id] == l && t.lastNumber < NumberOf(l.id) <= last)
  }

  lemma NoLeasesYet(t: Table, c: ClusterId, ttl: real, now: real)
    requires c in t.clusters && t.cfg.numBlocks != 0
    ensures Holding(t, Install(t, c, [], ttl, now), NewLeases(t, c, [], ttl, now), t.lastNumber)
  {
  }

  lemma AddLease(t: Table, before: Table, granted: seq<Lease>, c: ClusterId, s: Interval, number: int, ttl: real, now: real)
    requires c in before.clusters && before.cfg.numBlocks != 0 && before.lastNumber == number - 1 >= t.lastNumber
    requires forall id :: id in t.leases ==> NumberOf(id) <= t.lastNumber
    requires Holding(t, before, granted, number - 1)
    ensures Holding(t, InstallOne(before, c, s, ttl, now), granted + [NewLease(before, c, s, number, ttl, now)], number)
  {
    var l := NewLease(before, c, s, number, ttl, now);
    NumberOfNew(before, c, s, number, ttl, now);
    InstalledLeases(before, c, s, ttl, now);
    hide InstallOne, NewLease;
    assert IdsOf(granted + [l]) == IdsOf(granted) + {l.id};
  }

  lemma NumberOfNew(t: Table, c: ClusterId, s: Interval, number: int, ttl: real, now: real)
    ensures NumberOf(NewLease(t, c, s, number, ttl, now).id) == number
  {
  }

  lemma InstalledLeases(t: Table, c: ClusterId, s: Interval, ttl: real, now: real)
    requires c in t.clusters && t.cfg.numBlocks != 0
    ensures var l := NewLease(t, c, s, t.lastNumber + 1, ttl, now);
            InstallOne(t, c, s, ttl, now).leases == t.leases[l.id := l]
  {
  }
}
