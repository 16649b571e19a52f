/** What a heartbeat renews, field by field, and what a holder that beats in time can rely on. */
module Heartbeats {
  import Intervals
  import AcquireInvariant
  import Recovery
  import opened Wrappers
  import opened LeaseModel
  import opened LeaseInvariant
  import opened LeaseRuns
  import opened DrainSafety

  // --- how long a lease is renewed for --------------------------------------------

  /** What is asked for, or else two and a half macro steps and ten round trips; between half a minute and
      six hours, and never below the table's own minimum unless that is above six hours. */
  lemma TtlExactly(cfg: Config, r: ClusterRecord, ttl: real)
    ensures var g := GrantedTtl(cfg, r, ttl);
            && g <= 21600.0 && (g >= cfg.minTtl || g == 21600.0)
            && (ttl != 0.0 && cfg.minTtl <= ttl <= 21600.0 ==> g == ttl)
            && (ttl != 0.0 && ttl < cfg.minTtl <= 21600.0 ==> g == cfg.minTtl)
            && (ttl > 21600.0 ==> g == 21600.0)
    ensures var g := GrantedTtl(cfg, r, ttl);
            var estimate := 2.5 * (if r.macroStep > 0.0 then r.macroStep else 0.0) + 10.0 * (if r.rtt > 0.0 then r.rtt else 0.0);
            ttl == 0.0 && cfg.minTtl <= 30.0 ==>
              g == if estimate < 30.0 then 30.0 else if estimate > 21600.0 then 21600.0 else estimate
  {
  }

  // --- one heartbeat --------------------------------------------------------------

  /** Overdue leases are gone and no others. Every reported lease that the asker still holds runs from now
      for what the reply says, its watermark risen to the report but not past the end; every other lease
      is as it was. */
  lemma HeartbeatFields(t: Table, c: ClusterId, progress: map<LeaseId, int>, macroStep: real, rtt: real, ttl: real, now: real)
    requires Inv(t)
    ensures var t' := Heartbeat(t, c, progress, macroStep, rtt, ttl, now);
            && (forall id :: id in t'.leases <==> id in t.leases && t.leases[id].deadline >= now)
            && c in t'.clusters && t'.epoch == t.epoch
            && var renewed := GrantedTtl(t.cfg, t'.clusters[c], ttl);
               forall id :: id in t'.leases ==>
                 var l, l' := t.leases[id], t'.leases[id];
                 if id in progress && l.cluster == c then
                   && l'.deadline == now + renewed && l'.ttl == renewed
                   && l'.progressEnd == (var mark := if progress[id] <= l.end then progress[id] else l.end;
                                         if mark >= l.progressEnd then mark else l.progressEnd)
                   && l' == l.(deadline := l'.deadline, ttl := l'.ttl, progressEnd := l'.progressEnd)
                 else l' == l
  {
    forall id | id in t.leases ensures t.leases[id].epoch == t.epoch {
      assert LeaseOk(t.leases[id], id, t.epoch, |t.state|, t.clusters.Keys, t.lastNumber);
    }
    hide Inv, InvPending, HeldBlocks, Returned, Poisoned, Blamed, GrantedTtl;
  }

  /** The asker was seen now, with the timings it reported, if any; nobody else's record changes. */
  lemma BeaterFields(t: Table, c: ClusterId, progress: map<LeaseId, int>, macroStep: real, rtt: real, ttl: real, now: real)
    ensures var t' := Heartbeat(t, c, progress, macroStep, rtt, ttl, now);
            && (forall d :: d in t'.clusters <==> d in t.clusters || d == c)
            && (forall d :: d in t.clusters && d != c ==> t'.clusters[d] == t.clusters[d])
            && var r' := t'.clusters[c];
               && r'.lastSeen == now
               && (macroStep != 0.0 ==> r'.macroStep == macroStep) && (rtt != 0.0 ==> r'.rtt == rtt)
               && (c in t.clusters ==>
                     && (macroStep == 0.0 ==> r'.macroStep == t.clusters[c].macroStep)
                     && (rtt == 0.0 ==> r'.rtt == t.clusters[c].rtt)
                     && r' == t.clusters[c].(lastSeen := now, macroStep := r'.macroStep, rtt := r'.rtt))
  {
    hide HeldBlocks, Returned, Poisoned, Blamed, RenewedLeases;
  }

  /** What the reply says of a lease: lost, or where it ends and how far it is committed, exactly as the table
      has it afterwards. */
  lemma RepliesExactly(t: Table, c: ClusterId, ids: set<LeaseId>)
    requires Inv(t)
    ensures Views(t.leases, t.epoch, c, ids).Keys == ids
    ensures forall id :: id in ids ==>
              Views(t.leases, t.epoch, c, ids)[id] ==
                if id in t.leases && t.leases[id].cluster == c then Held(t.leases[id].end, t.leases[id].committedEnd) else Lost
  {
    forall id | id in t.leases ensures t.leases[id].epoch == t.epoch {
      assert LeaseOk(t.leases[id], id, t.epoch, |t.state|, t.clusters.Keys, t.lastNumber);
    }
    hide Inv, InvPending;
  }

  // --- a holder that beats in time ------------------------------------------------

  predicate Beats(call: Call, c: ClusterId, id: LeaseId) {
    call.CallHeartbeat? && call.cluster == c && id in call.progress
  }

  /** The clock reading by which a call reaps, if it does. */
  function ReapClock(call: Call): Option<real> {
    match call
    case CallAcquire(a) => Some(a.now)
    case CallHeartbeat(_, _, _, _, _, now) => Some(now)
    case CallReap(now) => Some(now)
    case _ => None
  }

  /** A call that reaps nothing that runs until then. */
  predicate ReapsBy(call: Call, deadline: real) {
    ReapClock(call).Some? ==> ReapClock(call).value <= deadline
  }

  /** What the reply to a heartbeat says its leases were renewed for. */
  function RepliedTtl(t': Table, call: Call): real
    requires call.CallHeartbeat?
  {
    if call.cluster in t'.clusters then GrantedTtl(t'.cfg, t'.clusters[call.cluster], call.ttl) else 0.0
  }

  /** The deadline the holder can work out from the last reply to have answered it. */
  ghost function DeadlineAt(trace: seq<Table>, calls: seq<Call>, j: nat, m: nat, c: ClusterId, id: LeaseId): real
    requires j <= m < |trace| && m <= |calls| && id in trace[j].leases
    decreases m
  {
    if m <= j then trace[j].leases[id].deadline
    else if Beats(calls[m - 1], c, id) then calls[m - 1].now + RepliedTtl(trace[m], calls[m - 1])
    else DeadlineAt(trace, calls, j, m - 1, c, id)
  }

  /** The holder lets go: it commits the whole lease, or releases it, or the epoch ends. */
  ghost predicate LetsGo(t: Table, call: Call, t': Table, c: ClusterId, id: LeaseId)
    requires id in t.leases
  {
    || (call.CallCommit? && call.cluster == c && call.lease == id && call.through >= t.leases[id].end)
    || (call.CallRelease? && call.cluster == c && (call.target.None? || call.target.value == id))
    || t'.epoch != t.epoch
  }

  ghost predicate Lets(trace: seq<Table>, calls: seq<Call>, m: nat, c: ClusterId, id: LeaseId)
    requires m + 1 < |trace| && m < |calls|
  {
    id in trace[m].leases && LetsGo(trace[m], calls[m], trace[m + 1], c, id)
  }

  ghost predicate InTime(trace: seq<Table>, calls: seq<Call>, j: nat, k: nat, c: ClusterId, id: LeaseId)
    requires j <= k < |trace| && k <= |calls| && id in trace[j].leases
  {
    forall m :: j <= m < k ==> ReapsBy(calls[m], DeadlineAt(trace, calls, j, m, c, id))
  }

  /** A call that reaps nothing of this deadline, and by which the holder does not let go, keeps the lease;
      and only the holder's beats move the deadline. */
  lemma CallSpares(t: Table, call: Call, t': Table, c: ClusterId, id: LeaseId)
    requires Inv(t) && Next(t, call, t') && id in t.leases && t.leases[id].cluster == c && !LetsGo(t, call, t', c, id)
    requires ReapsBy(call, t.leases[id].deadline)
    ensures id in t'.leases && t'.leases[id].cluster == c
    ensures t'.leases[id].deadline == if Beats(call, c, id) then call.now + RepliedTtl(t', call) else t.leases[id].deadline
  {
    hide Inv, InvPending, Acquires, Register, Heartbeat, Commit, Release, Reap, Advance, RepliedTtl;
    match call
    case CallRegister(d, digest, ranks, incarnation, check, now) =>
      RegisterKeepsLeases(t, d, digest, ranks, incarnation, check, now);
      RegisterSpares(t, d, digest, ranks, incarnation, check, now);
    case CallAcquire(a) =>
      var g :| Acquires(t, a, g, t');
      AcquireSpares(t, a, g, t', id);
    case CallHeartbeat(d, progress, macroStep, rtt, ttl, now) => BeatSpares(t, call, t', id);
    case CallCommit(d, x, through, now) => CommitSpares(t, call, t', c, id);
    case CallRelease(d, target, incarnation, counted) => ReleaseSpares(t, d, target, incarnation, counted, id);
    case CallReap(now) => ReapSpares(t, now, id);
    case CallAdvance => AdvanceSpares(t);
  }

  lemma RegisterSpares(t: Table, c: ClusterId, digest: string, ranks: int, incarnation: string, check: bool, now: real)
    ensures OrSame(Register(t, c, digest, ranks, incarnation, check, now), t).leases == t.leases
  {
  }

  lemma BeatSpares(t: Table, call: Call, t': Table, id: LeaseId)
    requires Inv(t) && call.CallHeartbeat? && Next(t, call, t') && id in t.leases && call.now <= t.leases[id].deadline
    ensures id in t'.leases && t'.leases[id].cluster == t.leases[id].cluster
    ensures t'.leases[id].deadline ==
            if Beats(call, t.leases[id].cluster, id) then call.now + RepliedTtl(t', call) else t.leases[id].deadline
  {
    hide *;
    BeatIs(t, call, t');
    HeartbeatFields(t, call.cluster, call.progress, call.macroStep, call.rtt, call.ttl, call.now);
    HeartbeatSettings(t, call.cluster, call.progress, call.macroStep, call.rtt, call.ttl, call.now);
    RepliedIs(t', call);
    BeatsIs(call, t.leases[id].cluster, id);
  }

  lemma BeatIs(t: Table, call: Call, t': Table)
    requires call.CallHeartbeat? && Next(t, call, t')
    ensures t' == Heartbeat(t, call.cluster, call.progress, call.macroStep, call.rtt, call.ttl, call.now)
  {
    hide Heartbeat;
  }

  lemma RepliedIs(t: Table, call: Call)
    requires call.CallHeartbeat? && call.cluster in t.clusters
    ensures RepliedTtl(t, call) == GrantedTtl(t.cfg, t.clusters[call.cluster], call.ttl)
  {
    hide GrantedTtl;
  }

  lemma BeatsIs(call: Call, c: ClusterId, id: LeaseId)
    requires call.CallHeartbeat?
    ensures Beats(call, c, id) <==> call.cluster == c && id in call.progress
  {
  }

  lemma ReleaseSpares(t: Table, c: ClusterId, target: Option<LeaseId>, incarnation: string, counted: bool, id: LeaseId)
    requires id in t.leases && !(t.leases[id].cluster == c && (target.None? || target.value == id))
    ensures id in Release(t, c, target, incarnation, counted).leases
    ensures Release(t, c, target, incarnation, counted).leases[id] == t.leases[id]
  {
    hide HeldBlocks, Returned, Poisoned, Blamed;
  }

  lemma ReapSpares(t: Table, now: real, id: LeaseId)
    requires id in t.leases && now <= t.leases[id].deadline
    ensures id in Reap(t, now).leases && Reap(t, now).leases[id] == t.leases[id]
  {
    hide HeldBlocks, Returned, Poisoned, Blamed;
  }

  lemma AdvanceSpares(t: Table)
    ensures Advance(t).epoch == t.epoch ==> Advance(t) == t
  {
  }

  lemma HeartbeatSettings(t: Table, c: ClusterId, progress: map<LeaseId, int>, macroStep: real, rtt: real, ttl: real, now: real)
    ensures Heartbeat(t, c, progress, macroStep, rtt, ttl, now).cfg == t.cfg
  {
    hide HeldBlocks, Returned, Poisoned, Blamed, RenewedLeases;
  }

  lemma CommitSpares(t: Table, call: Call, t': Table, c: ClusterId, id: LeaseId)
    requires Inv(t) && call.CallCommit? && Next(t, call, t') && id in t.leases && t.leases[id].cluster == c
    requires !LetsGo(t, call, t', c, id)
    ensures id in t'.leases && t'.leases[id].cluster == c && t'.leases[id].deadline == t.leases[id].deadline
  {
    if call.lease in t.leases && t.leases[call.lease].cluster == call.cluster {
      CommitShape(t, call.cluster, call.lease, call.through, call.now);
      assert LeaseOk(t.leases[id], id, t.epoch, |t.state|, t.clusters.Keys, t.lastNumber);
      hide Inv, InvPending, Commit;
    }
  }

  lemma AcquireSpares(t: Table, a: AcquireCall, g: Grant, t': Table, id: LeaseId)
    requires Inv(t) && Acquires(t, a, g, t') && id in t.leases && a.now <= t.leases[id].deadline && t'.epoch == t.epoch
    ensures id in t'.leases && t'.leases[id].cluster == t.leases[id].cluster && t'.leases[id].deadline == t.leases[id].deadline
  {
    hide *;
    var ready := Prepared(t, a);
    AcquireInvariant.PreparedKeeps(t, a);
    PreparedSpares(t, a, id);
    var served, spans, t1 := Answer(t, a, g, t');
    if served {
      ServesEpoch(Rolled(ready), a, spans, t1, g, t');
      RolledStands(ready);
      ServesSpares(ready, a, spans, t1, g, t', id);
    }
  }

  lemma PreparedSpares(t: Table, a: AcquireCall, id: LeaseId)
    requires id in t.leases && a.now <= t.leases[id].deadline
    ensures id in Prepared(t, a).leases && Prepared(t, a).leases[id] == t.leases[id] && Prepared(t, a).epoch == t.epoch
  {
    hide HeldBlocks, Returned, Poisoned, Blamed;
  }

  lemma ServesEpoch(t: Table, a: AcquireCall, spans: seq<Intervals.Interval>, t1: Table, g: Grant, t': Table)
    requires a.cluster in t.clusters && t.cfg.numBlocks != 0 && Serves(t, a, spans, t1, g, t')
    ensures t'.epoch == t.epoch
  {
    hide Install, GrantSize, NewLeases;
  }

  lemma ServesSpares(t: Table, a: AcquireCall, spans: seq<Intervals.Interval>, t1: Table, g: Grant, t': Table, id: LeaseId)
    requires Inv(t) && a.cluster in t.clusters && t.cfg.numBlocks != 0 && Serves(t, a, spans, t1, g, t') && id in t.leases
    ensures id in t'.leases && t'.leases[id].cluster == t.leases[id].cluster && t'.leases[id].deadline == t.leases[id].deadline
  {
    AllotSpares(t, a.cluster, GrantSize(t, a.cluster, a.blocks, a.clock), a.maxSpans, spans, t1, id);
    if spans != [] {
      var ttl := GrantedTtl(t.cfg, t.clusters[a.cluster], a.ttl);
      assert t' == Install(t1, a.cluster, spans, ttl, a.now);
      hide *;
      NumbersIssued(t);
      assert spans[..|spans|] == spans;
      InstallLeases(t1, a.cluster, spans, |spans|, ttl, a.now);
      HeldStill(t1, t', NewLeases(t1, a.cluster, spans, ttl, a.now), t1.lastNumber + |spans|, id);
    }
  }

  lemma HeldStill(t: Table, t': Table, granted: seq<Lease>, last: int, id: LeaseId)
    requires Holding(t, t', granted, last) && id in t.leases
    ensures id in t'.leases && t'.leases[id] == t.leases[id]
  {
  }

  lemma AllotSpares(t: Table, c: ClusterId, want: int, maxSpans: int, spans: seq<Intervals.Interval>, t1: Table, id: LeaseId)
    requires c in t.clusters && Allots(t, c, want, maxSpans, spans, t1) && id in t.leases
    ensures id in t1.leases && t1.leases[id].cluster == t.leases[id].cluster && t1.leases[id].deadline == t.leases[id].deadline
    ensures t1.leases.Keys == t.leases.Keys && t1.lastNumber == t.lastNumber && t1.cfg == t.cfg && t1.clusters == t.clusters
  {
    if t1 != t {
      var victims :| StoleFrom(t, c, want, victims, spans, t1);
      assert CutShort(t.leases, t1.leases, victims, spans);
      if id in victims {
        var i :| 0 <= i < |victims| && victims[i] == id;
      }
    }
  }

  /** As long as its holder keeps to the deadlines it has been told, a lease leaves the table only when the
      holder lets go: no reap takes it, whatever the other clusters do. */
  lemma {:induction false} NeverReaped(trace: seq<Table>, calls: seq<Call>, j: nat, k: nat, c: ClusterId, id: LeaseId)
    requires IsRun(trace, calls) && Inv(trace[0]) && j <= k < |trace| && |calls| < |trace|
    requires id in trace[j].leases && trace[j].leases[id].cluster == c && k <= |calls| && InTime(trace, calls, j, k, c, id)
    requires forall m :: j <= m < k ==> !Lets(trace, calls, m, c, id)
    ensures id in trace[k].leases && trace[k].leases[id].cluster == c
    ensures trace[k].leases[id].deadline == DeadlineAt(trace, calls, j, k, c, id)
    decreases k
  {
    if j < k {
      assert InTime(trace, calls, j, k - 1, c, id);
      NeverReaped(trace, calls, j, k - 1, c, id);
      assert !Lets(trace, calls, k - 1, c, id);
      assert ReapsBy(calls[k - 1], DeadlineAt(trace, calls, j, k - 1, c, id));
      RunIsSound(trace, calls, k - 1);
      StepOf(trace, calls, k - 1);
      hide IsRun, Inv, Next, ReapsBy, Beats, LetsGo, InTime, RepliedTtl;
      CallSpares(trace[k - 1], calls[k - 1], trace[k], c, id);
    }
  }

  // --- beating often enough ---------------------------------------------------------

  /** Beat b is the last of the holder's before call m. */
  predicate LastBeat(calls: seq<Call>, b: nat, m: nat, c: ClusterId, id: LeaseId)
    requires b < m <= |calls|
  {
    Beats(calls[b], c, id) && forall n :: b < n < m ==> !Beats(calls[n], c, id)
  }

  lemma {:induction false} DeadlineSince(trace: seq<Table>, calls: seq<Call>, j: nat, b: nat, m: nat, c: ClusterId, id: LeaseId)
    requires IsRun(trace, calls) && j <= b < m <= |calls| < |trace| && id in trace[j].leases && LastBeat(calls, b, m, c, id)
    ensures DeadlineAt(trace, calls, j, m, c, id) == calls[b].now + RepliedTtl(trace[b + 1], calls[b])
    decreases m
  {
    if b < m - 1 {
      DeadlineSince(trace, calls, j, b, m - 1, c, id);
    }
  }

  /** Call m reaps no more than this long after the holder's last beat. */
  predicate ReapsSoonAfter(calls: seq<Call>, b: nat, m: nat, c: ClusterId, id: LeaseId, ttl: real)
    requires b < m < |calls|
  {
    LastBeat(calls, b, m, c, id) && ReapsBy(calls[m], calls[b].now + ttl)
  }

  predicate NoBeat(calls: seq<Call>, j: nat, m: nat, c: ClusterId, id: LeaseId)
    requires j <= m <= |calls|
  {
    forall b :: j <= b < m ==> !Beats(calls[b], c, id)
  }

  /** Call m reaps nothing later than the table's minimum time to live after the holder's last beat, or,
      before its first, than the deadline of the grant. */
  ghost predicate Often(trace: seq<Table>, calls: seq<Call>, j: nat, m: nat, c: ClusterId, id: LeaseId)
    requires j <= m < |calls| && j < |trace| && id in trace[j].leases
  {
    || (exists b: nat :: j <= b < m && ReapsSoonAfter(calls, b, m, c, id, trace[j].cfg.minTtl))
    || (NoBeat(calls, j, m, c, id) && ReapsBy(calls[m], trace[j].leases[id].deadline))
  }

  ghost predicate BeatsOften(trace: seq<Table>, calls: seq<Call>, j: nat, k: nat, c: ClusterId, id: LeaseId)
    requires j <= k <= |calls| && j < |trace| && id in trace[j].leases
  {
    forall m :: j <= m < k ==> Often(trace, calls, j, m, c, id)
  }

  lemma {:induction false} NoBeatYet(trace: seq<Table>, calls: seq<Call>, j: nat, m: nat, c: ClusterId, id: LeaseId)
    requires j <= m < |trace| && m <= |calls| && id in trace[j].leases && NoBeat(calls, j, m, c, id)
    ensures DeadlineAt(trace, calls, j, m, c, id) == trace[j].leases[id].deadline
    decreases m
  {
    if j < m {
      NoBeatYet(trace, calls, j, m - 1, c, id);
    }
  }

  lemma {:induction false} SameSettings(trace: seq<Table>, calls: seq<Call>, j: nat, m: nat)
    requires IsRun(trace, calls) && Inv(trace[0]) && j <= m <= |calls| < |trace|
    ensures trace[m].cfg == trace[j].cfg
    decreases m
  {
    hide *;
    if j < m {
      SameSettings(trace, calls, j, m - 1);
      RunIsSound(trace, calls, m - 1);
      StepOf(trace, calls, m - 1);
      Recovery.NextShape(trace[m - 1], calls[m - 1], trace[m]);
    }
  }

  /** A holder that beats at least once in every minimum time to live is never reaped. */
  lemma SteadyBeatsSuffice(trace: seq<Table>, calls: seq<Call>, j: nat, k: nat, c: ClusterId, id: LeaseId)
    requires IsRun(trace, calls) && Inv(trace[0]) && j <= k < |trace| && k <= |calls| < |trace|
    requires id in trace[j].leases && trace[j].leases[id].cluster == c && trace[j].cfg.minTtl <= 21600.0
    requires BeatsOften(trace, calls, j, k, c, id)
    requires forall m :: j <= m < k ==> !Lets(trace, calls, m, c, id)
    ensures id in trace[k].leases && trace[k].leases[id].cluster == c
  {
    hide *;
    forall m | j <= m < k ensures ReapsBy(calls[m], DeadlineAt(trace, calls, j, m, c, id)) {
      BeatsInTime(trace, calls, j, m, k, c, id);
    }
    IsInTime(trace, calls, j, k, c, id);
    NeverReaped(trace, calls, j, k, c, id);
  }

  lemma IsInTime(trace: seq<Table>, calls: seq<Call>, j: nat, k: nat, c: ClusterId, id: LeaseId)
    requires j <= k < |trace| && k <= |calls| && id in trace[j].leases
    requires forall m :: j <= m < k ==> ReapsBy(calls[m], DeadlineAt(trace, calls, j, m, c, id))
    ensures InTime(trace, calls, j, k, c, id)
  {
    hide DeadlineAt, ReapsBy;
  }

  lemma BeatsInTime(trace: seq<Table>, calls: seq<Call>, j: nat, m: nat, k: nat, c: ClusterId, id: LeaseId)
    requires IsRun(trace, calls) && Inv(trace[0]) && j <= m < k < |trace| && k <= |calls| < |trace|
    requires id in trace[j].leases && trace[j].cfg.minTtl <= 21600.0 && BeatsOften(trace, calls, j, k, c, id)
    ensures ReapsBy(calls[m], DeadlineAt(trace, calls, j, m, c, id))
  {
    hide *;
    OftenAt(trace, calls, j, m, k, c, id);
    if b: nat :| j <= b < m && ReapsSoonAfter(calls, b, m, c, id, trace[j].cfg.minTtl) {
      SoonAfterBeat(calls, b, m, c, id, trace[j].cfg.minTtl);
      DeadlineSince(trace, calls, j, b, m, c, id);
      BeatLasts(trace, calls, j, b, c, id);
      ReapsLater(calls[m], calls[b].now + trace[j].cfg.minTtl, calls[b].now + RepliedTtl(trace[b + 1], calls[b]));
    } else {
      NoBeatYet(trace, calls, j, m, c, id);
    }
  }

  lemma SoonAfterBeat(calls: seq<Call>, b: nat, m: nat, c: ClusterId, id: LeaseId, ttl: real)
    requires b < m < |calls| && ReapsSoonAfter(calls, b, m, c, id, ttl)
    ensures LastBeat(calls, b, m, c, id) && calls[b].CallHeartbeat? && Beats(calls[b], c, id)
    ensures ReapsBy(calls[m], calls[b].now + ttl)
  {
    hide ReapsBy;
  }

  lemma ReapsLater(call: Call, deadline: real, later: real)
    requires ReapsBy(call, deadline) && deadline <= later
    ensures ReapsBy(call, later)
  {
  }

  lemma OftenAt(trace: seq<Table>, calls: seq<Call>, j: nat, m: nat, k: nat, c: ClusterId, id: LeaseId)
    requires j <= m < k <= |calls| && j < |trace| && id in trace[j].leases && BeatsOften(trace, calls, j, k, c, id)
    ensures || (exists b: nat :: j <= b < m && ReapsSoonAfter(calls, b, m, c, id, trace[j].cfg.minTtl))
            || (NoBeat(calls, j, m, c, id) && ReapsBy(calls[m], trace[j].leases[id].deadline))
  {
    hide ReapsSoonAfter, NoBeat, ReapsBy;
    assert Often(trace, calls, j, m, c, id);
  }

  lemma BeatLasts(trace: seq<Table>, calls: seq<Call>, j: nat, b: nat, c: ClusterId, id: LeaseId)
    requires IsRun(trace, calls) && Inv(trace[0]) && j <= b < |calls| < |trace| && Beats(calls[b], c, id)
    requires trace[j].cfg.minTtl <= 21600.0
    ensures RepliedTtl(trace[b + 1], calls[b]) >= trace[j].cfg.minTtl
  {
    hide IsRun, Inv, InvPending, Next, RepliedTtl;
    SameSettings(trace, calls, j, b + 1);
    StepOf(trace, calls, b);
    RunIsSound(trace, calls, b);
    BeatReplies(trace[b], calls[b], trace[b + 1]);
  }

  lemma BeatReplies(t: Table, call: Call, t': Table)
    requires Inv(t) && call.CallHeartbeat? && Next(t, call, t')
    ensures t'.cfg.minTtl <= 21600.0 ==> RepliedTtl(t', call) >= t'.cfg.minTtl
  {
    HeartbeatFields(t, call.cluster, call.progress, call.macroStep, call.rtt, call.ttl, call.now);
    TtlExactly(t'.cfg, t'.clusters[call.cluster], call.ttl);
    hide Inv, InvPending, Heartbeat, GrantedTtl;
  }
}
