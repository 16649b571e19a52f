/** Without expiries and steals, replay rebuilds what the crash destroyed. */
module ExactRecovery {
  import opened Wrappers
  import opened Intervals
  import opened LeaseModel
  import opened LeaseInvariant
  import opened AcquireInvariant
  import opened LeaseSteps
  import opened LeaseRuns
  import opened DrainSafety
  import opened Snapshots
  import opened Journals
  import opened Recovery

  // --- agreement --------------------------------------------------------------

  /** The recovered lease is the lost one, but for deadlines and for consumption that no
      heartbeat has reported since. */
  ghost predicate SameLease(l: Lease, r: Lease) {
    && r.progressEnd <= l.progressEnd
    && r.(progressEnd := l.progressEnd, deadline := l.deadline, ttl := l.ttl) == l
  }

  ghost predicate SameLeases(a: map<LeaseId, Lease>, b: map<LeaseId, Lease>) {
    a.Keys == b.Keys && forall id :: id in a ==> SameLease(a[id], b[id])
  }

  function CreditOf(clusters: map<ClusterId, ClusterRecord>, c: ClusterId): int {
    if c in clusters then clusters[c].blocksCommitted else 0
  }

  ghost predicate SameCredits(a: map<ClusterId, ClusterRecord>, b: map<ClusterId, ClusterRecord>) {
    forall c :: CreditOf(a, c) == CreditOf(b, c)
  }

  ghost predicate Agrees(t: Table, r: Table) {
    && r.cfg == t.cfg && r.epoch == t.epoch && r.epochsCompleted == t.epochsCompleted
    && r.state == t.state && r.attempts == t.attempts && r.committed == t.committed
    && r.quarantined == t.quarantined && r.lastNumber == t.lastNumber
    && SameLeases(t.leases, r.leases) && SameCredits(t.clusters, r.clusters)
  }

  // --- the calls that replay reproduces ---------------------------------------

  /** A release is logged whether or not it was refused, and replayed authorised and counted: the same if
      it was both, or if there was nothing to release. */
  ghost predicate ReplaysAlike(t: Table, c: ClusterId, target: Option<LeaseId>, incarnation: string, counted: bool) {
    if ReleaseRefused(t, c, target, incarnation) then LeasesOf(t, c) == {}
    else counted || ReleaseTargets(t, c, target, incarnation) == {}
  }

  /** Within the epoch, nothing expired, nothing stolen, and every release replayed alike. */
  ghost predicate Quiet(t: Table, call: Call, t': Table) {
    && t'.epoch == t.epoch && StealFree(t, t')
    && (call.CallAcquire? ==> Expired(t, call.request.now) == {})
    && (call.CallHeartbeat? || call.CallReap? ==> Expired(t, call.now) == {})
    && (call.CallRelease? ==> ReplaysAlike(t, call.cluster, call.target, call.incarnation, call.counted))
  }

  lemma ReclaimNothing(t: Table, counted: bool)
    ensures Reclaim(t, {}, counted) == t
  {
    NoneReclaimed(t, counted);
  }

  lemma SameHeld(t: Table, r: Table, ids: set<LeaseId>)
    requires Agrees(t, r)
    ensures HeldBlocks(t, ids) == HeldBlocks(r, ids)
  {
    forall p | CoveredBy(t.leases, ids, p) ensures CoveredBy(r.leases, ids, p) {
      var id :| id in ids && id in t.leases && Holds(t.leases[id], p);
      assert SameLease(t.leases[id], r.leases[id]) && Holds(r.leases[id], p);
    }
    forall p | CoveredBy(r.leases, ids, p) ensures CoveredBy(t.leases, ids, p) {
      var id :| id in ids && id in r.leases && Holds(r.leases[id], p);
      assert SameLease(t.leases[id], r.leases[id]) && Holds(t.leases[id], p);
    }
  }

  lemma ReclaimAgrees(t: Table, r: Table, ids: set<LeaseId>, counted: bool)
    requires Agrees(t, r)
    ensures Agrees(Reclaim(t, ids, counted), Reclaim(r, ids, counted))
  {
    SameHeld(t, r, ids);
  }

  lemma SameTargets(t: Table, r: Table, c: ClusterId, target: Option<LeaseId>, incarnation: string)
    requires Agrees(t, r) && !ReleaseRefused(t, c, target, incarnation)
    ensures ReleaseTargets(t, c, target, incarnation) == ReleaseTargets(r, c, target, "")
  {
    assert LeasesOf(t, c) == LeasesOf(r, c);
  }

  lemma CommitAgrees(t: Table, r: Table, c: ClusterId, id: LeaseId, through: int, now: real)
    requires Inv(t) && Inv(r) && Agrees(t, r) && id in t.leases && t.leases[id].cluster == c
    ensures Agrees(OrSame(Commit(t, c, id, through, now), t), OrSame(Commit(r, c, id, through, now), r))
  {
    assert SameLease(t.leases[id], r.leases[id]);
    CommitShape(t, c, id, through, now);
    CommitShape(r, c, id, through, now);
    hide Inv, InvPending, Commit, Credited;
    var l := t.leases[id];
    var to := ClampThrough(l, through);
    assert ClampThrough(r.leases[id], through) == to;
    CommitLeasesAgree(t.leases, r.leases, id, to);
    CreditsAgree(t.clusters, r.clusters, c, to - l.committedEnd, now);
  }

  lemma CommitLeasesAgree(a: map<LeaseId, Lease>, b: map<LeaseId, Lease>, id: LeaseId, to: int)
    requires SameLeases(a, b) && id in a
    ensures SameLeases(AfterCommit(a, id, to), AfterCommit(b, id, to))
  {
    assert SameLease(a[id], b[id]);
  }

  lemma CreditsAgree(a: map<ClusterId, ClusterRecord>, b: map<ClusterId, ClusterRecord>, c: ClusterId, newly: int, now: real)
    requires SameCredits(a, b) && c in a && c in b
    ensures SameCredits(if newly != 0 then a[c := Credited(a[c], newly, now)] else a,
                        if newly != 0 then b[c := Credited(b[c], newly, now)] else b)
  {
    assert CreditOf(a, c) == CreditOf(b, c);
    var a', b' := a[c := Credited(a[c], newly, now)], b[c := Credited(b[c], newly, now)];
    forall d ensures CreditOf(a', d) == CreditOf(b', d) {
      assert CreditOf(a, d) == CreditOf(b, d);
    }
  }

  /** A record may change in every way but the credit. */
  lemma RecordAgrees(t: Table, r: Table, c: ClusterId, record: ClusterRecord)
    requires Agrees(t, r) && record.blocksCommitted == CreditOf(t.clusters, c)
    ensures Agrees(t.(clusters := t.clusters[c := record]), r)
  {
    var clusters := t.clusters[c := record];
    forall d ensures CreditOf(clusters, d) == CreditOf(r.clusters, d) {
      assert CreditOf(t.clusters, d) == CreditOf(r.clusters, d);
    }
  }

  lemma RecoveredRecordAgrees(t: Table, r: Table, c: ClusterId, record: ClusterRecord)
    requires Agrees(t, r) && record.blocksCommitted == CreditOf(r.clusters, c)
    ensures Agrees(t, r.(clusters := r.clusters[c := record]))
  {
    var clusters := r.clusters[c := record];
    forall d ensures CreditOf(t.clusters, d) == CreditOf(clusters, d) {
      assert CreditOf(t.clusters, d) == CreditOf(r.clusters, d);
    }
  }

  lemma RegisterAgrees(t: Table, r: Table, c: ClusterId, digest: string, ranks: int, incarnation: string, check: bool, now: real)
    requires Agrees(t, r)
    ensures Agrees(OrSame(Register(t, c, digest, ranks, incarnation, check, now), t), r)
  {
    RecordAgrees(t, r, c, Announced(RecordOf(t, c, now), ranks, incarnation, now));
  }

  lemma ReplayedRegisterAgrees(t: Table, r: Table, c: ClusterId, digest: string, ranks: int, incarnation: string,
                               check: bool, now: real)
    requires Agrees(t, r)
    ensures Agrees(t, OrSame(Register(r, c, digest, ranks, incarnation, check, now), r))
  {
    RecoveredRecordAgrees(t, r, c, Announced(RecordOf(r, c, now), ranks, incarnation, now));
  }

  /** A heartbeat moves only deadlines and progress, which recovery does not promise. */
  lemma HeartbeatAgrees(t: Table, r: Table, c: ClusterId, progress: map<LeaseId, int>, macroStep: real, rtt: real,
                        ttl: real, now: real)
    requires Inv(t) && Agrees(t, r) && Expired(t, now) == {}
    ensures Agrees(Heartbeat(t, c, progress, macroStep, rtt, ttl, now), r)
  {
    ReclaimNothing(t, true);
    var t1 := Touched(t, c, macroStep, rtt, now);
    RecordAgrees(t, r, c, t1.clusters[c]);
    RenewAgrees(t1, r, c, progress, GrantedTtl(t1.cfg, t1.clusters[c], ttl), now);
  }

  lemma RenewAgrees(t: Table, r: Table, c: ClusterId, progress: map<LeaseId, int>, ttl: real, now: real)
    requires Agrees(t, r)
    ensures Agrees(Renew(t, c, progress, ttl, now), r)
  {
    var leases := Renew(t, c, progress, ttl, now).leases;
    forall id | id in leases ensures SameLease(leases[id], r.leases[id]) {
      assert SameLease(t.leases[id], r.leases[id]);
    }
  }

  // --- grants -----------------------------------------------------------------

  lemma {:induction false} FreeThroughout(s: seq<BlockState>, from: int, end: int)
    requires 0 <= from <= end <= |s| && forall p :: from <= p < end ==> s[p] == Unassigned
    ensures FirstFree(s, from, end) == from && FreeRunEnd(s, from, end) == end
    decreases end - from
  {
    if from < end {
      FreeThroughout(s, from + 1, end);
    }
  }

  /** Replaying one granted lease onto an agreeing table takes the same span under the same id. */
  lemma ReplayLeaseAgrees(t: Table, r: Table, c: ClusterId, s: Interval, ttl: real, now: real, floor: real)
    requires Agrees(t, r) && c in t.clusters && t.cfg.numBlocks != 0
    requires 0 <= s.lo < s.hi <= |t.state| && forall p :: s.lo <= p < s.hi ==> t.state[p] == Unassigned
    requires NewLease(t, c, s, t.lastNumber + 1, ttl, now).id !in t.leases
    ensures Agrees(InstallOne(t, c, s, ttl, now), ReplayLease(r, NewLease(t, c, s, t.lastNumber + 1, ttl, now), floor))
  {
    var l := NewLease(t, c, s, t.lastNumber + 1, ttl, now);
    FreeThroughout(t.state, s.lo, s.hi);
    var r' := ReplayLease(r, l, floor);
    assert r' == Leasing(r, Reinstated(l, s.lo, s.hi, floor), t.lastNumber + 1);
    assert SameLease(l, Reinstated(l, s.lo, s.hi, floor));
    var t1 := Leasing(t, l, t.lastNumber + 1);
    assert SameLeases(t1.leases, r'.leases);
    assert Agrees(t1, r');
    RecordAgrees(t1, r', c, t1.clusters[c].(cursor := s.hi % t.cfg.numBlocks));
  }

  /** Spans cut from the pool. */
  ghost predicate FromPool(t: Table, spans: seq<Interval>) {
    && Disjoint(spans)
    && (forall i :: 0 <= i < |spans| ==> spans[i].lo < spans[i].hi)
    && (forall p :: InSpans(spans, p) ==> p in FreeBlocks(t.state))
  }

  predicate AllRecordable(leases: seq<Lease>, blocks: int) {
    forall i :: 0 <= i < |leases| ==> Recordable(leases[i], blocks)
  }

  lemma PoolRecordable(t: Table, c: ClusterId, spans: seq<Interval>, ttl: real, now: real)
    requires FromPool(t, spans)
    ensures AllRecordable(NewLeases(t, c, spans, ttl, now), |t.state|)
  {
    forall i | 0 <= i < |spans| ensures 0 <= spans[i].lo && spans[i].hi <= |t.state| {
      assert InSpans(spans, spans[i].lo) && InSpans(spans, spans[i].hi - 1);
    }
  }

  lemma ReplayGrantNext(r: Table, granted: seq<Lease>, k: nat, floor: real)
    requires 0 < k <= |granted| && AllRecordable(granted, |r.state|)
    ensures AllRecordable(granted[..k - 1], |r.state|) && AllRecordable(granted[..k], |r.state|)
    ensures ReplayGrant(r, granted[..k], floor) == ReplayLease(ReplayGrant(r, granted[..k - 1], floor), granted[k - 1], floor)
  {
    assert granted[..k][..k - 1] == granted[..k - 1];
  }

  lemma NothingInstalled(t: Table, c: ClusterId, ttl: real, now: real)
    requires c in t.clusters && t.cfg.numBlocks != 0
    ensures Install(t, c, [], ttl, now) == t
  {
  }

  lemma NothingGranted(r: Table, floor: real)
    ensures AllRecordable([], |r.state|) && ReplayGrant(r, [], floor) == r
  {
  }

  lemma GrantShape(t: Table, r: Table, c: ClusterId, spans: seq<Interval>, k: nat, ttl: real, now: real)
    requires Inv(t) && Agrees(t, r) && k <= |spans|
    ensures r.state == t.state && t.cfg.numBlocks != 0
    ensures var granted := NewLeases(t, c, spans, ttl, now);
            |granted| == |spans| && (k > 0 ==> granted[k - 1] == NewLease(t, c, spans[k - 1], t.lastNumber + k, ttl, now))
  {
  }

  lemma {:induction false} InstallAgrees(t: Table, r: Table, c: ClusterId, spans: seq<Interval>, k: nat, ttl: real, now: real,
                                         floor: real)
    requires Inv(t) && Agrees(t, r) && c in t.clusters && k <= |spans| && FromPool(t, spans)
    ensures AllRecordable(NewLeases(t, c, spans, ttl, now)[..k], |r.state|)
    ensures Agrees(Install(t, c, spans[..k], ttl, now), ReplayGrant(r, NewLeases(t, c, spans, ttl, now)[..k], floor))
  {
    hide *;
    var granted := NewLeases(t, c, spans, ttl, now);
    GrantShape(t, r, c, spans, k, ttl, now);
    PoolRecordable(t, c, spans, ttl, now);
    if k == 0 {
      assert spans[..0] == [] && granted[..0] == [];
      NothingInstalled(t, c, ttl, now);
      NothingGranted(r, floor);
    } else {
      InstallAgrees(t, r, c, spans, k - 1, ttl, now, floor);
      ReplayGrantNext(r, granted, k, floor);
      NextInstalled(t, c, spans, k - 1, ttl, now);
      NextSpanFree(t, c, spans, k, ttl, now);
      NextNumber(t, c, spans, k, ttl, now);
      ReplayLeaseAgrees(Install(t, c, spans[..k - 1], ttl, now), ReplayGrant(r, granted[..k - 1], floor), c, spans[k - 1],
                        ttl, now, floor);
    }
  }

  lemma NextSpanFree(t: Table, c: ClusterId, spans: seq<Interval>, k: nat, ttl: real, now: real)
    requires c in t.clusters && t.cfg.numBlocks != 0 && 0 < k <= |spans| && FromPool(t, spans)
    ensures var before, s := Install(t, c, spans[..k - 1], ttl, now), spans[k - 1];
            && 0 <= s.lo < s.hi <= |before.state|
            && forall p :: s.lo <= p < s.hi ==> before.state[p] == Unassigned
  {
    InstallState(t, c, spans[..k - 1], ttl, now);
    var s := spans[k - 1];
    assert InSpans(spans, s.lo) && InSpans(spans, s.hi - 1);
    var before := Install(t, c, spans[..k - 1], ttl, now);
    forall p | s.lo <= p < s.hi ensures before.state[p] == Unassigned {
      assert InSpans(spans, p);
      assert p in FreeBlocks(t.state);
      LaterSpan(spans, k, p);
    }
  }

  lemma LaterSpan(spans: seq<Interval>, k: nat, p: int)
    requires 0 < k <= |spans| && Disjoint(spans) && spans[k - 1].lo <= p < spans[k - 1].hi
    ensures !InSpans(spans[..k - 1], p)
  {
    var before := spans[..k - 1];
    forall i | 0 <= i < |before| ensures !(before[i].lo <= p < before[i].hi) {
      assert before[i] == spans[i];
    }
  }

  lemma NextNumber(t: Table, c: ClusterId, spans: seq<Interval>, k: nat, ttl: real, now: real)
    requires Inv(t) && c in t.clusters && 0 < k <= |spans|
    ensures var before := Install(t, c, spans[..k - 1], ttl, now);
            && before.lastNumber == t.lastNumber + k - 1 && before.cfg.numBlocks != 0 && c in before.clusters
            && NewLease(before, c, spans[k - 1], before.lastNumber + 1, ttl, now).id !in before.leases
            && NewLease(before, c, spans[k - 1], before.lastNumber + 1, ttl, now)
               == NewLease(t, c, spans[k - 1], t.lastNumber + k, ttl, now)
  {
    hide *;
    NumbersIssued(t);
    InstallLeases(t, c, spans, k - 1, ttl, now);
    var before := Install(t, c, spans[..k - 1], ttl, now);
    InstalledNumbers(t, before, NewLeases(t, c, spans[..k - 1], ttl, now), t.lastNumber + k - 1);
    NextIsNew(t, before, c, spans[k - 1], ttl, now);
  }

  lemma InstalledNumbers(t: Table, before: Table, granted: seq<Lease>, last: int)
    requires Holding(t, before, granted, last) && t.lastNumber <= last
    requires forall id :: id in t.leases ==> NumberOf(id) <= t.lastNumber
    ensures forall id :: id in before.leases ==> NumberOf(id) <= last
  {
  }

  lemma NextIsNew(t: Table, before: Table, c: ClusterId, s: Interval, ttl: real, now: real)
    requires before.epoch == t.epoch && forall id :: id in before.leases ==> NumberOf(id) <= before.lastNumber
    ensures NewLease(before, c, s, before.lastNumber + 1, ttl, now).id !in before.leases
    ensures NewLease(before, c, s, before.lastNumber + 1, ttl, now) == NewLease(t, c, s, before.lastNumber + 1, ttl, now)
  {
  }

  /** A grant that cut no lease short came from the pool. */
  lemma NotStolen(t: Table, a: AcquireCall, spans: seq<Interval>, t1: Table, g: Grant, t': Table)
    requires Inv(t) && a.cluster in t.clusters && Serves(t, a, spans, t1, g, t') && StealFree(t, t') && spans != []
    ensures t1 == t && FromPool(t, spans)
  {
    var want := GrantSize(t, a.cluster, a.blocks, a.clock);
    var ttl := GrantedTtl(t.cfg, t.clusters[a.cluster], a.ttl);
    assert Allots(t, a.cluster, want, a.maxSpans, spans, t1) && t1.cfg == t.cfg && a.cluster in t1.clusters;
    assert t' == Install(t1, a.cluster, spans, ttl, a.now);
    hide *;
    NumbersIssued(t);
    var cut, v := PoolOrCut(t, a.cluster, want, a.maxSpans, spans, t1);
    if cut {
      StolenEndShows(t, t1, a, spans, ttl, t', v);
    }
  }

  lemma PoolOrCut(t: Table, c: ClusterId, want: int, maxSpans: int, spans: seq<Interval>, t1: Table)
    returns (cut: bool, v: LeaseId)
    requires Inv(t) && c in t.clusters && Allots(t, c, want, maxSpans, spans, t1) && spans != []
    ensures !cut ==> t1 == t && FromPool(t, spans)
    ensures cut ==> t1 == t.(leases := t1.leases) && t1.leases.Keys == t.leases.Keys
                    && v in t.leases && t1.leases[v].end < t.leases[v].end
  {
    var pool := FreeBlocks(t.state);
    cut := pool == {} || want <= 0 || maxSpans <= 0;
    v := Foreign("", 0);
    if cut {
      var victims :| StoleFrom(t, c, want, victims, spans, t1);
      v := victims[0];
      StealTrims(t, c, want, victims, spans, t1);
    }
  }

  lemma StolenEndShows(t: Table, t1: Table, a: AcquireCall, spans: seq<Interval>, ttl: real, t': Table, v: LeaseId)
    requires a.cluster in t1.clusters && t1.cfg.numBlocks != 0 && 0 <= t1.lastNumber
    requires forall id :: id in t1.leases ==> NumberOf(id) <= t1.lastNumber
    requires t' == Install(t1, a.cluster, spans, ttl, a.now)
    requires v in t.leases && v in t1.leases && t1.leases[v].end < t.leases[v].end
    ensures !StealFree(t, t')
  {
    assert spans[..|spans|] == spans;
    InstallLeases(t1, a.cluster, spans, |spans|, ttl, a.now);
  }

  lemma ServesAgrees(t: Table, a: AcquireCall, spans: seq<Interval>, t1: Table, g: Grant, t': Table, r: Table, floor: real)
    requires Inv(t) && Inv(r) && Agrees(t, r) && a.cluster in t.clusters
    requires Serves(t, a, spans, t1, g, t') && StealFree(t, t')
    ensures forall e :: e in GrantEntries(a, g) ==> Replayable(e, |r.state|)
    ensures Agrees(t', ReplayOne(r, GrantEntries(a, g), floor))
  {
    var ttl := GrantedTtl(t.cfg, t.clusters[a.cluster], a.ttl);
    if spans == [] {
      AllotKeeps(t, a.cluster, GrantSize(t, a.cluster, a.blocks, a.clock), a.maxSpans, spans, t1);
    } else {
      NotStolen(t, a, spans, t1, g, t');
      assert t' == Install(t, a.cluster, spans, ttl, a.now) && t.cfg.numBlocks != 0;
      assert g.leases == NewLeases(t, a.cluster, spans, ttl, a.now) && |g.leases| == |spans|;
      hide *;
      PoolGrantAgrees(t, a, spans, ttl, r, floor);
    }
  }

  lemma PoolGrantAgrees(t: Table, a: AcquireCall, spans: seq<Interval>, ttl: real, r: Table, floor: real)
    requires Inv(t) && Inv(r) && Agrees(t, r) && a.cluster in t.clusters && FromPool(t, spans)
    ensures var g := Grant(Granted, t.epoch, NewLeases(t, a.cluster, spans, ttl, a.now));
            && (forall e :: e in GrantEntries(a, g) ==> Replayable(e, |r.state|))
            && Agrees(Install(t, a.cluster, spans, ttl, a.now), ReplayOne(r, GrantEntries(a, g), floor))
  {
    var granted := NewLeases(t, a.cluster, spans, ttl, a.now);
    var r1 := Announce(r, a.cluster, a.now);
    assert |granted| == |spans| && spans[..|spans|] == spans && granted[..|spans|] == granted;
    NewLeasesAreBlank(t, a.cluster, spans, ttl, a.now);
    ReplayedRegisterAgrees(t, r, a.cluster, "", 0, "", true, a.now);
    assert Agrees(t, r1) && |r1.state| == |r.state| && r1.state == t.state;
    hide Inv, InvPending, Install, NewLeases, Agrees, FromPool, Announce, ReplayGrant;
    PoolRecordable(t, a.cluster, spans, ttl, a.now);
    InstallAgrees(t, r1, a.cluster, spans, |spans|, ttl, a.now, floor);
    if spans == [] {
      assert Install(t, a.cluster, spans, ttl, a.now) == t by { NothingInstalled(t, a.cluster, ttl, a.now); }
    }
  }

  /** The entries of one call, at most one, replayed. */
  ghost function ReplayOne(r: Table, entries: seq<Entry>, floor: real): Table
    requires forall e :: e in entries ==> Replayable(e, |r.state|)
  {
    if entries == [] then r else Replay(r, entries[0], floor)
  }

  lemma AcquireAgrees(t: Table, a: AcquireCall, g: Grant, t': Table, r: Table, floor: real)
    requires Inv(t) && Inv(r) && Agrees(t, r) && Acquires(t, a, g, t')
    requires Quiet(t, CallAcquire(a), t')
    ensures forall e :: e in GrantEntries(a, g) ==> Replayable(e, |r.state|)
    ensures Agrees(t', ReplayOne(r, GrantEntries(a, g), floor))
  {
    hide *;
    var ready := Prepared(t, a);
    QuietAcquire(t, a, t');
    PreparedKeeps(t, a);
    PreparedAgrees(t, a, r);
    var served, spans, t1 := Answer(t, a, g, t');
    if served {
      RolledKeeps(ready);
      ServesState(Rolled(ready), a, spans, t1, g, t');
      RolledStands(ready);
      StillStealFree(t, a, t');
      ServesAgrees(ready, a, spans, t1, g, t', r, floor);
    } else {
      NoEntries(a, g, r, floor);
    }
  }

  lemma QuietAcquire(t: Table, a: AcquireCall, t': Table)
    requires Quiet(t, CallAcquire(a), t')
    ensures t'.epoch == t.epoch && StealFree(t, t') && Expired(t, a.now) == {}
  {
  }

  lemma PreparedAgrees(t: Table, a: AcquireCall, r: Table)
    requires Agrees(t, r) && Expired(t, a.now) == {}
    ensures Agrees(Prepared(t, a), r) && Prepared(t, a).leases == t.leases && Prepared(t, a).epoch == t.epoch
  {
    hide Reclaim, Agrees;
    ReclaimNothing(t, true);
    RecordAgrees(t, r, a.cluster, Prepared(t, a).clusters[a.cluster]);
  }

  lemma StillStealFree(t: Table, a: AcquireCall, t': Table)
    requires StealFree(t, t') && Prepared(t, a).leases == t.leases
    ensures StealFree(Prepared(t, a), t')
  {
    hide Prepared;
  }

  lemma NoEntries(a: AcquireCall, g: Grant, r: Table, floor: real)
    requires g.leases == []
    ensures GrantEntries(a, g) == [] && ReplayOne(r, [], floor) == r
  {
  }

  // --- whole runs -------------------------------------------------------------

  ghost predicate AllQuiet(trace: seq<Table>, calls: seq<Call>) {
    forall i :: 0 <= i < |calls| && i + 1 < |trace| ==> Quiet(trace[i], calls[i], trace[i + 1])
  }

  /** One quiet call keeps the recovered table in step with the live one. */
  lemma CallAgrees(t: Table, call: Call, t': Table, entries: seq<Entry>, r: Table, floor: real)
    requires Inv(t) && Inv(r) && Agrees(t, r) && Records(t, call, t', entries) && Quiet(t, call, t')
    ensures |entries| <= 1 && forall e :: e in entries ==> Replayable(e, |r.state|)
    ensures Agrees(t', ReplayOne(r, entries, floor))
  {
    RecordsIsNext(t, call, t', entries);
    if call.CallAcquire? {
      hide *;
      var g := AcquireRecords(t, call.request, t', entries);
      AcquireAgrees(t, call.request, g, t', r, floor);
    } else {
      OtherCallAgrees(t, call, t', entries, r, floor);
    }
  }

  lemma OtherCallAgrees(t: Table, call: Call, t': Table, entries: seq<Entry>, r: Table, floor: real)
    requires Inv(t) && Inv(r) && Agrees(t, r) && Records(t, call, t', entries) && Quiet(t, call, t') && !call.CallAcquire?
    ensures forall e :: e in entries ==> Replayable(e, |r.state|)
    ensures Agrees(t', ReplayOne(r, entries, floor))
  {
    hide Inv, InvPending, Register, Heartbeat, Commit, Release, Reap, Agrees, ReleaseTargets, StealFree, Expired, ReleaseRefused;
    match call
    case CallRegister(c, digest, ranks, incarnation, check, now) =>
      RegisterAgrees(t, r, c, digest, ranks, incarnation, check, now);
      if entries != [] {
        ReplayedRegisterAgrees(t', r, c, digest, entries[0].ranks, entries[0].incarnation, false, now);
      }
    case CallHeartbeat(c, progress, macroStep, rtt, ttl, now) => HeartbeatAgrees(t, r, c, progress, macroStep, rtt, ttl, now);
    case CallCommit(c, id, through, now) =>
      if entries != [] {
        CommitOk(t, c, id, through, now);
        CommitAgrees(t, r, c, id, through, now);
      }
    case CallRelease(c, target, incarnation, counted) => ReleaseAgreesExactly(t, r, c, target, incarnation, counted);
    case CallReap(now) => NothingReaped(t, now);
    case CallAdvance => NotAdvanced(t, r);
  }

  lemma CommitOk(t: Table, c: ClusterId, id: LeaseId, through: int, now: real)
    requires Commit(t, c, id, through, now).Ok?
    ensures id in t.leases && t.leases[id].cluster == c
  {
  }

  lemma ReleaseAgrees(t: Table, r: Table, c: ClusterId, target: Option<LeaseId>, incarnation: string)
    requires Agrees(t, r) && !ReleaseRefused(t, c, target, incarnation)
    ensures Agrees(Release(t, c, target, incarnation, true), Release(r, c, target, "", true))
  {
    SameTargets(t, r, c, target, incarnation);
    ReclaimAgrees(t, r, ReleaseTargets(t, c, target, incarnation), true);
  }

  /** A release keeps the copy in agreement exactly when it is replayed alike. */
  lemma ReleaseAgreesExactly(t: Table, r: Table, c: ClusterId, target: Option<LeaseId>, incarnation: string, counted: bool)
    requires Inv(t) && Agrees(t, r)
    ensures Agrees(Release(t, c, target, incarnation, counted), Release(r, c, target, "", true))
            <==> ReplaysAlike(t, c, target, incarnation, counted)
  {
    hide Inv, InvPending, Agrees, Release;
    if ReleaseRefused(t, c, target, incarnation) {
      RefusedAgrees(t, r, c, target, incarnation, counted);
    } else if counted {
      ReleaseAgrees(t, r, c, target, incarnation);
    } else {
      UncountedAgrees(t, r, c, target, incarnation);
    }
  }

  lemma RefusedAgrees(t: Table, r: Table, c: ClusterId, target: Option<LeaseId>, incarnation: string, counted: bool)
    requires Agrees(t, r) && ReleaseRefused(t, c, target, incarnation)
    ensures Agrees(Release(t, c, target, incarnation, counted), Release(r, c, target, "", true)) <==> LeasesOf(t, c) == {}
  {
    ReclaimNothing(t, counted);
    assert Release(t, c, target, incarnation, counted) == t;
    LeasesAgree(t, r, c);
    assert Release(r, c, target, "", true) == Reclaim(r, LeasesOf(t, c), true);
    if LeasesOf(t, c) == {} {
      ReclaimNothing(r, true);
    } else {
      var id :| id in LeasesOf(t, c);
      assert id in t.leases && id !in Reclaim(r, LeasesOf(t, c), true).leases;
    }
  }

  lemma LeasesAgree(t: Table, r: Table, c: ClusterId)
    requires Agrees(t, r)
    ensures LeasesOf(t, c) == LeasesOf(r, c)
  {
    forall id | id in t.leases ensures t.leases[id].cluster == r.leases[id].cluster {
      assert SameLease(t.leases[id], r.leases[id]);
    }
  }

  lemma UncountedAgrees(t: Table, r: Table, c: ClusterId, target: Option<LeaseId>, incarnation: string)
    requires Inv(t) && Agrees(t, r) && !ReleaseRefused(t, c, target, incarnation)
    ensures Agrees(Release(t, c, target, incarnation, false), Release(r, c, target, "", true))
            <==> ReleaseTargets(t, c, target, incarnation) == {}
  {
    var ids := ReleaseTargets(t, c, target, incarnation);
    SameTargets(t, r, c, target, incarnation);
    assert Release(t, c, target, incarnation, false) == Reclaim(t, ids, false);
    assert Release(r, c, target, "", true) == Reclaim(r, ids, true);
    if ids == {} {
      ReclaimNothing(t, false);
      ReclaimNothing(r, true);
    } else {
      var id :| id in ids;
      HoldsSomething(t, id);
      var p := t.leases[id].committedEnd;
      assert CoveredBy(t.leases, ids, p);
      SameHeld(t, r, ids);
      assert p in HeldBlocks(r, ids);
      BlamedDiffers(t.attempts, HeldBlocks(r, ids), p);
    }
  }

  lemma HoldsSomething(t: Table, id: LeaseId)
    requires Inv(t) && id in t.leases
    ensures 0 <= t.leases[id].committedEnd < |t.state| && Holds(t.leases[id], t.leases[id].committedEnd)
  {
    assert LeaseOk(t.leases[id], id, t.epoch, |t.state|, t.clusters.Keys, t.lastNumber);
  }

  lemma BlamedDiffers(attempts: map<int, int>, hit: set<int>, p: int)
    requires p in hit
    ensures Blamed(attempts, hit) != attempts
  {
    assert p in Blamed(attempts, hit) && Blamed(attempts, hit)[p] == AttemptsOf(attempts, p) + 1;
  }

  lemma NothingReaped(t: Table, now: real)
    requires Expired(t, now) == {}
    ensures Reap(t, now) == t && HeldBlocks(t, Expired(t, now)) == {}
  {
    NoneReclaimed(t, true);
  }

  lemma NotAdvanced(t: Table, r: Table)
    requires Agrees(t, r) && Advance(t).epoch == t.epoch
    ensures Advance(t) == t && Advance(r) == r
  {
  }

  /** Replaying the whole log of a quiet run onto a table that agreed with where it began rebuilds the
      table that never crashed: states, attempts, counters, lease spans and commit watermarks, and
      what every cluster is credited with. */
  lemma {:induction false} ReplayIsExact(trace: seq<Table>, calls: seq<Call>, records: seq<seq<Entry>>, k: nat, base: Table,
                                         floors: nat -> real)
    requires IsRecordedRun(trace, calls, records) && Inv(trace[0]) && AllQuiet(trace, calls) && k <= |calls|
    requires Inv(base) && Agrees(trace[0], base)
    ensures AllReplayable(Logged(records, k), |base.state|)
    ensures var r := ReplayAll(base, Logged(records, k), floors); Inv(r) && Agrees(trace[k], r)
  {
    hide *;
    RecordedLengths(trace, calls, records);
    LogNext(records, k);
    if k == 0 {
      NothingLogged(base, floors);
    } else {
      ReplayIsExact(trace, calls, records, k - 1, base, floors);
      QuietStep(trace, calls, records, k - 1);
      var r := ReplayAll(base, Logged(records, k - 1), floors);
      CallAgrees(trace[k - 1], calls[k - 1], trace[k], records[k - 1], r, floors(|Logged(records, k - 1)|));
      ReplayMore(base, Logged(records, k - 1), records[k - 1], floors);
    }
  }

  /** From the snapshot. */
  lemma RecoveryIsExact(trace: seq<Table>, calls: seq<Call>, records: seq<seq<Entry>>, k: nat, grace: real,
                        floors: nat -> real)
    requires IsRecordedRun(trace, calls, records) && Inv(trace[0]) && AllQuiet(trace, calls) && k <= |calls|
    ensures AllReplayable(Logged(records, k), |Reopened(trace[0], grace).state|)
    ensures var r := ReplayAll(Reopened(trace[0], grace), Logged(records, k), floors); Inv(r) && Agrees(trace[k], r)
  {
    hide *;
    RecordedLengths(trace, calls, records);
    ReopenedKeeps(trace[0], grace);
    ReopenedAgrees(trace[0], grace);
    ReplayIsExact(trace, calls, records, k, Reopened(trace[0], grace), floors);
  }

  lemma NothingLogged(t: Table, floors: nat -> real)
    ensures AllReplayable([], |t.state|) && ReplayAll(t, [], floors) == t
  {
  }

  lemma QuietStep(trace: seq<Table>, calls: seq<Call>, records: seq<seq<Entry>>, i: nat)
    requires IsRecordedRun(trace, calls, records) && Inv(trace[0]) && AllQuiet(trace, calls) && i < |calls|
    ensures |trace| == |calls| + 1 == |records| + 1
    ensures Inv(trace[i]) && Records(trace[i], calls[i], trace[i + 1], records[i]) && Quiet(trace[i], calls[i], trace[i + 1])
  {
    RecordedRunIsRun(trace, calls, records);
    hide Inv, Records, Next, Quiet;
    RunIsSound(trace, calls, i);
  }

  lemma ReopenedAgrees(t: Table, grace: real)
    requires Inv(t)
    ensures Agrees(t, Reopened(t, grace))
  {
  }

  lemma ReplayMore(t: Table, journal: seq<Entry>, more: seq<Entry>, floors: nat -> real)
    requires AllReplayable(journal, |t.state|) && |more| <= 1
    requires var r := ReplayAll(t, journal, floors); Inv(r) && forall e :: e in more ==> Replayable(e, |r.state|)
    ensures AllReplayable(journal + more, |t.state|)
    ensures ReplayAll(t, journal + more, floors) == ReplayOne(ReplayAll(t, journal, floors), more, floors(|journal|))
    ensures Inv(ReplayAll(t, journal + more, floors))
  {
    if more == [] {
      assert journal + more == journal;
    } else {
      assert (journal + more)[..|journal|] == journal && (journal + more)[|journal|] == more[0];
      ReplayKeeps(ReplayAll(t, journal, floors), more[0], floors(|journal|));
    }
  }

  // --- the same log twice -----------------------------------------------------

  /** The clock has passed every reap in the log; heartbeats are never logged. */
  predicate Passed(journal: seq<Entry>, clock: real) {
    forall e :: e in journal ==> !e.HeartbeatEntry? && (e.ReapEntry? ==> e.now <= clock)
  }

  /** Loaded and replayed at clock readings, plus grace, that are later than the log. */
  ghost predicate LateEnough(journal: seq<Entry>, grace: real, floors: nat -> real) {
    Passed(journal, grace) && forall n: nat :: Passed(journal, floors(n))
  }

  /** No reap in the log finds anything expired. */
  ghost predicate Outlives(t: Table, journal: seq<Entry>) {
    forall id, e :: id in t.leases && e in journal && e.ReapEntry? ==> e.now <= t.leases[id].deadline
  }

  lemma NoneExpired(t: Table, journal: seq<Entry>, e: Entry)
    requires Outlives(t, journal) && e in journal && e.ReapEntry?
    ensures Expired(t, e.now) == {} && Reap(t, e.now) == t
  {
    assert Expired(t, e.now) == {};
    ReclaimNothing(t, true);
  }

  lemma {:induction false} GrantOutlives(t: Table, leases: seq<Lease>, floor: real, journal: seq<Entry>)
    requires forall i :: 0 <= i < |leases| ==> Recordable(leases[i], |t.state|)
    requires Outlives(t, journal) && Passed(journal, floor)
    ensures Outlives(ReplayGrant(t, leases, floor), journal)
  {
    if leases != [] {
      GrantOutlives(t, leases[..|leases| - 1], floor, journal);
    }
  }

  /** Re-installed leases are given the clock reading at least, and nothing else is given less. */
  lemma OutlivesOn(t: Table, e: Entry, floor: real, journal: seq<Entry>)
    requires Inv(t) && Replayable(e, |t.state|) && e in journal && Outlives(t, journal) && Passed(journal, floor)
    ensures Outlives(Replay(t, e, floor), journal)
  {
    if e.ReapEntry? {
      NoneExpired(t, journal, e);
    } else if e.AcquireEntry? {
      AnnounceKeeps(t, e.cluster, e.now);
      hide Inv, InvPending, Announce;
      forall i | 0 <= i < |e.leases| ensures Recordable(e.leases[i], |t.state|) {
        assert e.leases[i] in e.leases;
      }
      GrantOutlives(Announce(t, e.cluster, e.now), e.leases, floor, journal);
    } else {
      hide Inv, InvPending, HeldBlocks, Returned, Poisoned, Blamed, Filled;
    }
  }

  lemma ReplayedLeaseAgrees(t: Table, r: Table, l: Lease, f1: real, f2: real)
    requires Agrees(t, r) && Recordable(l, |t.state|)
    ensures Agrees(ReplayLease(t, l, f1), ReplayLease(r, l, f2))
  {
    var lo := FirstFree(t.state, l.start, l.end);
    var hi := FreeRunEnd(t.state, lo, l.end);
    var a, b := Reinstated(l, lo, hi, f1), Reinstated(l, lo, hi, f2);
    assert SameLease(a, b);
  }

  lemma {:induction false} ReplayedGrantAgrees(t: Table, r: Table, leases: seq<Lease>, k: nat, f1: real, f2: real)
    requires Agrees(t, r) && AllRecordable(leases, |t.state|) && |t.state| == |r.state| && k <= |leases|
    ensures AllRecordable(leases[..k], |t.state|)
    ensures Agrees(ReplayGrant(t, leases[..k], f1), ReplayGrant(r, leases[..k], f2))
  {
    hide *;
    if k == 0 {
      assert leases[..0] == [];
      NothingGranted(t, f1);
      NothingGranted(r, f2);
    } else {
      ReplayedGrantAgrees(t, r, leases, k - 1, f1, f2);
      ReplayGrantNext(t, leases, k, f1);
      ReplayGrantNext(r, leases, k, f2);
      LeaseRecordable(leases, k - 1, |t.state|);
      ReplayedLeaseAgrees(ReplayGrant(t, leases[..k - 1], f1), ReplayGrant(r, leases[..k - 1], f2), leases[k - 1], f1, f2);
    }
  }

  lemma LeaseRecordable(leases: seq<Lease>, i: nat, blocks: int)
    requires AllRecordable(leases, blocks) && i < |leases|
    ensures Recordable(leases[i], blocks)
  {
  }

  lemma AdvanceAgrees(t: Table, r: Table)
    requires Agrees(t, r)
    ensures Agrees(Advance(t), Advance(r))
  {
    var a, b := Rewound(t.clusters), Rewound(r.clusters);
    forall c ensures CreditOf(a, c) == CreditOf(b, c) {
      assert CreditOf(t.clusters, c) == CreditOf(r.clusters, c);
    }
  }

  lemma AnyCommitAgrees(t: Table, r: Table, c: ClusterId, id: LeaseId, through: int, now: real)
    requires Inv(t) && Inv(r) && Agrees(t, r)
    ensures Agrees(OrSame(Commit(t, c, id, through, now), t), OrSame(Commit(r, c, id, through, now), r))
  {
    hide Inv, InvPending;
    if id in t.leases {
      assert SameLease(t.leases[id], r.leases[id]);
      if t.leases[id].cluster == c {
        CommitAgrees(t, r, c, id, through, now);
      }
    }
  }

  /** One entry, replayed at two clock readings onto tables that agree. */
  lemma EntryAgrees(t: Table, r: Table, e: Entry, f1: real, f2: real)
    requires Inv(t) && Inv(r) && Agrees(t, r) && Replayable(e, |t.state|) && !e.HeartbeatEntry?
    requires e.ReapEntry? ==> Reap(t, e.now) == t && Reap(r, e.now) == r
    ensures Replayable(e, |r.state|) && Agrees(Replay(t, e, f1), Replay(r, e, f2))
  {
    hide Inv, InvPending, Register, Commit, Release, Reap, Advance, Agrees, ReplayGrant;
    assert |t.state| == |r.state| by { SameSize(t, r); }
    match e
    case RegisterEntry(c, digest, ranks, incarnation, now) =>
      RegisterAgrees(t, r, c, digest, ranks, incarnation, false, now);
      ReplayedRegisterAgrees(Replay(t, e, f1), r, c, digest, ranks, incarnation, false, now);
    case AcquireEntry(c, leases, now) =>
      RegisterAgrees(t, r, c, "", 0, "", true, now);
      ReplayedRegisterAgrees(Announce(t, c, now), r, c, "", 0, "", true, now);
      forall i | 0 <= i < |leases| ensures Recordable(leases[i], |t.state|) {
        assert leases[i] in leases;
      }
      assert leases[..|leases|] == leases;
      ReplayedGrantAgrees(Announce(t, c, now), Announce(r, c, now), leases, |leases|, f1, f2);
    case CommitEntry(c, id, through, now) => AnyCommitAgrees(t, r, c, id, through, now);
    case ReleaseEntry(c, target, now) => ReleaseAgrees(t, r, c, target, "");
    case ReapEntry(now) =>
    case AdvanceEntry => AdvanceAgrees(t, r);
  }

  lemma SameSize(t: Table, r: Table)
    requires Agrees(t, r)
    ensures |t.state| == |r.state|
  {
  }

  /** Part of a log, replayed at two times, both later than the log, onto tables that agree. */
  lemma {:induction false} ReplaysAgree(t: Table, r: Table, journal: seq<Entry>, log: seq<Entry>, f1: nat -> real,
                                        f2: nat -> real)
    requires Inv(t) && Inv(r) && Agrees(t, r) && AllReplayable(journal, |t.state|)
    requires Outlives(t, log) && Outlives(r, log) && forall e :: e in journal ==> e in log
    requires forall n: nat :: Passed(log, f1(n)) && Passed(log, f2(n))
    ensures AllReplayable(journal, |r.state|)
    ensures Inv(ReplayAll(t, journal, f1)) && Inv(ReplayAll(r, journal, f2))
    ensures Outlives(ReplayAll(t, journal, f1), log) && Outlives(ReplayAll(r, journal, f2), log)
    ensures Agrees(ReplayAll(t, journal, f1), ReplayAll(r, journal, f2))
    decreases |journal|
  {
    hide *;
    SameSize(t, r);
    if journal == [] {
      NothingLogged(t, f1);
      NothingLogged(r, f2);
    } else {
      var n, e := |journal| - 1, journal[|journal| - 1];
      LastEntry(t, journal, f1);
      LastEntry(r, journal, f2);
      ReplaysAgree(t, r, journal[..n], log, f1, f2);
      var t1, r1 := ReplayAll(t, journal[..n], f1), ReplayAll(r, journal[..n], f2);
      NotAHeartbeat(log, f1(n), e);
      if e.ReapEntry? {
        NoneExpired(t1, log, e);
        NoneExpired(r1, log, e);
      }
      EntryAgrees(t1, r1, e, f1(n), f2(n));
      OutlivesOn(t1, e, f1(n), log);
      OutlivesOn(r1, e, f2(n), log);
      ReplayAllSound(t, journal, f1);
      ReplayAllSound(r, journal, f2);
    }
  }

  lemma NotAHeartbeat(journal: seq<Entry>, clock: real, e: Entry)
    requires Passed(journal, clock) && e in journal
    ensures !e.HeartbeatEntry?
  {
  }

  lemma LastEntry(t: Table, journal: seq<Entry>, floors: nat -> real)
    requires journal != [] && AllReplayable(journal, |t.state|)
    ensures var n := |journal| - 1;
            && AllReplayable(journal[..n], |t.state|) && Replayable(journal[n], |t.state|)
            && ReplayAll(t, journal, floors) == Replay(ReplayAll(t, journal[..n], floors), journal[n], floors(n))
  {
    hide Replay;
  }

  function Later(floors: nat -> real, k: nat): nat -> real {
    (n: nat) => floors(n + k)
  }

  /** Replaying one log after another, the clock read on. */
  lemma {:induction false} ReplayOn(t: Table, a: seq<Entry>, b: seq<Entry>, floors: nat -> real)
    requires AllReplayable(a, |t.state|) && AllReplayable(b, |t.state|)
    ensures AllReplayable(a + b, |t.state|)
    ensures ReplayAll(t, a + b, floors) == ReplayAll(ReplayAll(t, a, floors), b, Later(floors, |a|))
    decreases |b|
  {
    hide Replay;
    if b == [] {
      assert a + b == a;
    } else {
      var n := |b| - 1;
      ReplayOn(t, a, b[..n], floors);
      assert (a + b)[..|a + b| - 1] == a + b[..n] && (a + b)[|a + b| - 1] == b[n];
    }
  }
}
