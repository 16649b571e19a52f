/** What loading does with a log: all of it since a snapshot, in order. */
module InOrderReplay {
  import opened Wrappers
  import opened LeaseModel
  import opened LeaseInvariant
  import opened LeaseRuns
  import opened Arithmetic
  import opened DrainSafety
  import opened Snapshots
  import opened Journals
  import opened Recovery
  import opened HarmlessSteals
  import opened ExactRecovery

  // --- the log since a moment ---------------------------------------------------

  /** The entries of calls j to k. */
  ghost function Between(records: seq<seq<Entry>>, j: nat, k: nat): seq<Entry>
    requires k <= |records|
  {
    if k <= j then [] else Between(records, j, k - 1) + records[k - 1]
  }

  lemma {:induction false} BetweenIsLogged(records: seq<seq<Entry>>, j: nat, k: nat, n: nat)
    requires k <= n <= |records|
    ensures Selection(Between(records, j, k), Logged(records, n))
    decreases n
  {
    hide Between;
    LogNext(records, n);
    if k < n {
      BetweenIsLogged(records, j, k, n - 1);
    } else {
      BetweenNext(records, j, k);
      if j < k {
        BetweenIsLogged(records, j, k - 1, n - 1);
      }
    }
  }

  lemma BetweenNext(records: seq<seq<Entry>>, j: nat, k: nat)
    requires k <= |records|
    ensures k <= j ==> Between(records, j, k) == []
    ensures j < k ==> Between(records, j, k) == Between(records, j, k - 1) + records[k - 1]
  {
  }

  lemma {:induction false} BetweenJoins(records: seq<seq<Entry>>, j: nat, m: nat, k: nat)
    requires j <= m <= k <= |records|
    ensures Between(records, j, k) == Between(records, j, m) + Between(records, m, k)
    decreases k
  {
    hide Between;
    BetweenNext(records, j, k);
    BetweenNext(records, m, k);
    if m < k {
      BetweenJoins(records, j, m, k - 1);
      assert Between(records, j, k) == Between(records, j, m) + Between(records, m, k - 1) + records[k - 1];
    }
  }

  lemma {:induction false} BetweenHolds(records: seq<seq<Entry>>, j: nat, m: nat, k: nat, e: Entry)
    requires j <= m < k <= |records| && e in records[m]
    ensures e in Between(records, j, k)
    decreases k
  {
    if m < k - 1 {
      BetweenHolds(records, j, m, k - 1, e);
    }
  }

  /** A release that names the lease, or everything of its cluster. */
  predicate GivesBack(e: Entry, c: ClusterId, id: LeaseId) {
    e.ReleaseEntry? && e.cluster == c && (e.target.None? || e.target == Some(id))
  }

  // --- a lease whose cut was not logged -----------------------------------------

  /** The replayed lease still reaches as far as it did, or what is below its watermark is committed. */
  ghost predicate Standing(r: Table, c: ClusterId, id: LeaseId, end: int, p: int) {
    || p in Where(r.state, Committed)
    || (id in r.leases && r.leases[id].cluster == c && r.leases[id].end == end && r.leases[id].committedEnd <= p < end)
  }

  lemma {:induction false} GrantKeepsLease(t: Table, leases: seq<Lease>, floor: real, id: LeaseId)
    requires forall i :: 0 <= i < |leases| ==> Recordable(leases[i], |t.state|)
    requires id in t.leases
    ensures var r := ReplayGrant(t, leases, floor); id in r.leases && r.leases[id] == t.leases[id]
  {
    if leases != [] {
      GrantKeepsLease(t, leases[..|leases| - 1], floor, id);
    }
  }

  lemma CommitStands(t: Table, e: Entry, c: ClusterId, id: LeaseId, end: int, p: int)
    requires Inv(t) && e.CommitEntry? && Standing(t, c, id, end, p) && p !in Where(t.state, Committed)
    ensures Standing(OrSame(Commit(t, e.cluster, e.lease, e.through, e.now), t), c, id, end, p)
  {
    var t' := OrSame(Commit(t, e.cluster, e.lease, e.through, e.now), t);
    if e.lease in t.leases && t.leases[e.lease].cluster == e.cluster {
      CommitShape(t, e.cluster, e.lease, e.through, e.now);
      hide Inv, InvPending, Commit;
      var l := t.leases[e.lease];
      var to := ClampThrough(l, e.through);
      assert t'.state == Filled(t.state, l.committedEnd, to, Committed) && t'.leases == AfterCommit(t.leases, e.lease, to);
    }
  }

  lemma EntryStands(t: Table, e: Entry, floor: real, c: ClusterId, id: LeaseId, end: int, p: int, log: seq<Entry>)
    requires Inv(t) && Replayable(e, |t.state|) && Standing(t, c, id, end, p)
    requires e in log && Outlives(t, log) && Passed(log, floor) && !GivesBack(e, c, id)
    requires e.AdvanceEntry? ==> !CanAdvance(t)
    ensures Standing(Replay(t, e, floor), c, id, end, p)
  {
    hide *;
    if p in Where(t.state, Committed) {
      ReplayKeeps(t, e, floor);
      CommittedStands(t, e, floor, c, id, end, p);
    } else {
      match e
      case RegisterEntry(_, _, _, _, _) => RegisterStands(t, e, floor, c, id, end, p);
      case AcquireEntry(_, _, _) => GrantStands(t, e, floor, c, id, end, p);
      case CommitEntry(_, _, _, _) =>
        CommitStands(t, e, c, id, end, p);
        ReplayedCommit(t, e, floor);
      case ReleaseEntry(_, _, _) => ReleaseStands(t, e, floor, c, id, end, p);
      case HeartbeatEntry(_, _, _, _) => NotAHeartbeat(log, floor, e);
      case ReapEntry(_) => NoneExpired(t, log, e); ReplayedReap(t, e, floor);
      case AdvanceEntry => ReplayedAdvance(t, e, floor);
    }
  }

  lemma CommittedStands(t: Table, e: Entry, floor: real, c: ClusterId, id: LeaseId, end: int, p: int)
    requires Replayable(e, |t.state|) && p in Where(t.state, Committed)
    requires var r := Replay(t, e, floor);
             r.epoch == t.epoch ==> Where(t.state, Committed) <= Where(r.state, Committed)
    requires Replay(t, e, floor).epoch != t.epoch ==> e.AdvanceEntry? && CanAdvance(t)
    requires e.AdvanceEntry? ==> !CanAdvance(t)
    ensures Standing(Replay(t, e, floor), c, id, end, p)
  {
    hide Replay, Where;
  }

  lemma RegisterStands(t: Table, e: Entry, floor: real, c: ClusterId, id: LeaseId, end: int, p: int)
    requires e.RegisterEntry? && Standing(t, c, id, end, p)
    ensures Standing(Replay(t, e, floor), c, id, end, p)
  {
    hide Where;
  }

  lemma GrantStands(t: Table, e: Entry, floor: real, c: ClusterId, id: LeaseId, end: int, p: int)
    requires Inv(t) && e.AcquireEntry? && Replayable(e, |t.state|) && Standing(t, c, id, end, p) && p !in Where(t.state, Committed)
    ensures Standing(Replay(t, e, floor), c, id, end, p)
  {
    AnnounceKeeps(t, e.cluster, e.now);
    hide Inv, InvPending, Where, Announce, ReplayGrant;
    forall i | 0 <= i < |e.leases| ensures Recordable(e.leases[i], |t.state|) {
      assert e.leases[i] in e.leases;
    }
    GrantKeepsLease(Announce(t, e.cluster, e.now), e.leases, floor, id);
  }

  lemma ReleaseStands(t: Table, e: Entry, floor: real, c: ClusterId, id: LeaseId, end: int, p: int)
    requires e.ReleaseEntry? && Standing(t, c, id, end, p) && p !in Where(t.state, Committed) && !GivesBack(e, c, id)
    ensures Standing(Replay(t, e, floor), c, id, end, p)
  {
    hide HeldBlocks, Returned, Poisoned, Blamed, Where;
    assert id !in ReleaseTargets(t, e.cluster, e.target, "");
  }

  lemma ReplayedCommit(t: Table, e: Entry, floor: real)
    requires e.CommitEntry?
    ensures Replay(t, e, floor) == OrSame(Commit(t, e.cluster, e.lease, e.through, e.now), t)
  {
    hide Commit;
  }

  lemma ReplayedReap(t: Table, e: Entry, floor: real)
    requires e.ReapEntry? && Reap(t, e.now) == t
    ensures Replay(t, e, floor) == t
  {
    hide Reap;
  }

  lemma ReplayedAdvance(t: Table, e: Entry, floor: real)
    requires e.AdvanceEntry? && !CanAdvance(t)
    ensures Replay(t, e, floor) == t
  {
  }

  /** Nothing that a log written since can hold takes the lease away before its time. */
  lemma {:induction false} ReplayStands(t: Table, journal: seq<Entry>, floors: nat -> real, c: ClusterId, id: LeaseId,
                                        end: int, p: int, log: seq<Entry>)
    requires Inv(t) && AllReplayable(journal, |t.state|) && Standing(t, c, id, end, p)
    requires Selection(journal, log) && Outlives(t, log) && forall n: nat :: Passed(log, floors(n))
    requires CanAdvance(t) ==> AdvanceEntry !in journal
    requires forall e :: e in journal ==> !GivesBack(e, c, id)
    ensures var r := ReplayAll(t, journal, floors);
            Inv(r) && Standing(r, c, id, end, p) && r.epoch == t.epoch && r.cfg == t.cfg
    ensures Outlives(ReplayAll(t, journal, floors), log)
    decreases |journal|
  {
    hide *;
    if journal == [] {
      NothingLogged(t, floors);
    } else {
      var n, e := |journal| - 1, journal[|journal| - 1];
      Shorter(journal, log);
      LastEntry(t, journal, floors);
      ReplayStands(t, journal[..n], floors, c, id, end, p, log);
      var r := ReplayAll(t, journal[..n], floors);
      NoAdvance(t, r, journal, e);
      EntryStands(r, e, floors(n), c, id, end, p, log);
      OutlivesOn(r, e, floors(n), log);
      ReplayKeeps(r, e, floors(n));
    }
  }

  lemma Shorter(journal: seq<Entry>, log: seq<Entry>)
    requires journal != [] && Selection(journal, log)
    ensures Selection(journal[..|journal| - 1], log) && journal[|journal| - 1] in log
    ensures forall e :: e in journal[..|journal| - 1] ==> e in journal
  {
    assert journal[|journal| - 1] in journal;
  }

  lemma NoAdvance(t: Table, r: Table, journal: seq<Entry>, e: Entry)
    requires CanAdvance(t) ==> AdvanceEntry !in journal
    requires r.epoch == t.epoch && r.cfg == t.cfg && e in journal
    ensures e.AdvanceEntry? ==> !CanAdvance(r)
  {
  }

  // --- loading a run --------------------------------------------------------------

  ghost predicate RunOfOneEpoch(trace: seq<Table>, calls: seq<Call>, records: seq<seq<Entry>>, k: nat) {
    IsRecordedRun(trace, calls, records) && Inv(trace[0]) && OneEpoch(trace) && k <= |calls| < |trace| && k <= |records|
  }

  /** The log since a moment, fit for the snapshot of that moment. */
  lemma Loadable(trace: seq<Table>, calls: seq<Call>, records: seq<seq<Entry>>, j: nat, k: nat, grace: real, floors: nat -> real)
    requires RunOfOneEpoch(trace, calls, records, k) && j <= k && LateEnough(Between(records, j, k), grace, floors)
    ensures var base, log := Reopened(trace[j], grace), Between(records, j, k);
            && Inv(trace[j]) && Inv(base) && AllReplayable(log, |base.state|) && (CanAdvance(base) ==> AdvanceEntry !in log)
            && Outlives(base, log) && forall n: nat :: Passed(log, floors(n))
  {
    hide *;
    RunLengths(trace, calls, records, k);
    LoadableLog(trace, calls, records, j, k);
    ReopenedKeeps(trace[j], grace);
    ReopenedOutlives(trace[j], Between(records, j, k), grace, floors);
  }

  lemma RunLengths(trace: seq<Table>, calls: seq<Call>, records: seq<seq<Entry>>, k: nat)
    requires RunOfOneEpoch(trace, calls, records, k)
    ensures k <= |calls| < |trace| && k <= |records|
  {
    hide IsRecordedRun, Inv, OneEpoch;
  }

  lemma ReopenedOutlives(t: Table, log: seq<Entry>, grace: real, floors: nat -> real)
    requires Inv(t) && LateEnough(log, grace, floors)
    ensures var base := Reopened(t, grace);
            && |base.state| == |t.state| && (CanAdvance(base) <==> CanAdvance(t))
            && Outlives(base, log) && forall n: nat :: Passed(log, floors(n))
  {
    ReopenedKeeps(t, grace);
    hide Inv, InvPending;
  }

  lemma LoadableLog(trace: seq<Table>, calls: seq<Call>, records: seq<seq<Entry>>, j: nat, k: nat)
    requires RunOfOneEpoch(trace, calls, records, k) && j <= k
    ensures var log := Between(records, j, k);
            Inv(trace[j]) && AllReplayable(log, |trace[j].state|) && (CanAdvance(trace[j]) ==> AdvanceEntry !in log)
  {
    RecordedLengths(trace, calls, records);
    LogIsReplayable(trace, calls, records, j);
    LogIsReplayable(trace, calls, records, k);
    RecordedRunIsRun(trace, calls, records);
    RunIsSound(trace, calls, j);
    BetweenIsLogged(records, j, k, k);
    hide Inv, InvPending, IsRecordedRun, OneEpoch, Logged, Between, Replayable;
    forall i | 0 <= i < |Between(records, j, k)| ensures Replayable(Between(records, j, k)[i], |trace[0].state|) {
      assert Between(records, j, k)[i] in Logged(records, k);
    }
  }

  /** A commit that was clamped to a cut, of a lease that nobody gave back before, and part of the cut
      never committed otherwise: loading the snapshot from before the cut and the log since commits it. */
  lemma HarmIsLoaded(trace: seq<Table>, calls: seq<Call>, records: seq<seq<Entry>>, j: nat, i: nat, k: nat, p: int,
                     grace: real, floors: nat -> real)
    requires RunOfOneEpoch(trace, calls, records, k) && j <= i < k && LateEnough(Between(records, j, k), grace, floors)
    requires Accepted(trace[i], calls[i]) && calls[i].lease in trace[j].leases
    requires trace[i].leases[calls[i].lease].end <= p < Min(calls[i].through, trace[j].leases[calls[i].lease].end)
    requires forall e :: e in Between(records, j, i) ==> !GivesBack(e, calls[i].cluster, calls[i].lease)
    ensures var base, log := Reopened(trace[j], grace), Between(records, j, k);
            && AllReplayable(log, |base.state|)
            && p in Where(ReplayAll(base, log, floors).state, Committed)
  {
    assert calls[i].CallCommit? && calls[i].lease in trace[i].leases;
    assert IsRecordedRun(trace, calls, records) && Inv(trace[0]);
    hide *;
    var base, log := Reopened(trace[j], grace), Between(records, j, k);
    var c, id, through := calls[i].cluster, calls[i].lease, calls[i].through;
    Loadable(trace, calls, records, j, k, grace, floors);
    RecordedRunIsRun(trace, calls, records);
    LeaseShrinks(trace, calls, j, i, id);
    RunIsSound(trace, calls, i);
    StandsAtFirst(trace[j], trace[i], calls[i], grace, p);
    AcceptedRecords(trace, calls, records, i);
    var e := CommitEntry(c, id, through, calls[i].now);
    SplitAt(records, j, i, k, e, log, base);
    LoadedCommit(base, Between(records, j, i), e, Between(records, i + 1, k), floors, trace[j].leases[id].end, p, log);
  }

  lemma StandsAtFirst(earlier: Table, t: Table, call: Call, grace: real, p: int)
    requires Inv(t) && Accepted(t, call) && call.lease in earlier.leases
    requires Evolved(earlier.leases[call.lease], t.leases[call.lease])
    requires t.leases[call.lease].end <= p < earlier.leases[call.lease].end
    ensures Standing(Reopened(earlier, grace), call.cluster, call.lease, earlier.leases[call.lease].end, p)
  {
    assert LeaseOk(t.leases[call.lease], call.lease, t.epoch, |t.state|, t.clusters.Keys, t.lastNumber);
    hide Inv, InvPending, Where;
  }

  lemma SplitAt(records: seq<seq<Entry>>, j: nat, i: nat, k: nat, e: Entry, log: seq<Entry>, base: Table)
    requires j <= i < k <= |records| && records[i] == [e] && log == Between(records, j, k)
    requires AllReplayable(log, |base.state|)
    ensures log == Between(records, j, i) + [e] + Between(records, i + 1, k)
  {
    BetweenJoins(records, j, i, k);
    BetweenJoins(records, i, i + 1, k);
    BetweenNext(records, i, i + 1);
    BetweenNext(records, i, i);
    hide *;
    Regroup(Between(records, j, i), [e], Between(records, i + 1, k));
  }

  lemma Regroup(a: seq<Entry>, b: seq<Entry>, c: seq<Entry>)
    ensures a + ([] + b + c) == a + b + c && a + (b + c) == a + b + c && [] + b == b
  {
  }

  lemma LoadedCommit(base: Table, a: seq<Entry>, e: Entry, b: seq<Entry>, floors: nat -> real, end: int, p: int, log: seq<Entry>)
    requires Inv(base) && log == a + [e] + b && AllReplayable(log, |base.state|) && e.CommitEntry?
    requires CanAdvance(base) ==> AdvanceEntry !in log
    requires Outlives(base, log) && forall n: nat :: Passed(log, floors(n))
    requires Standing(base, e.cluster, e.lease, end, p) && p < e.through
    requires forall x :: x in a ==> !GivesBack(x, e.cluster, e.lease)
    ensures p in Where(ReplayAll(base, log, floors).state, Committed)
  {
    hide *;
    InThree(base, a, e, b);
    ReplayStands(base, a, floors, e.cluster, e.lease, end, p, log);
    var r := ReplayAll(base, a, floors);
    var f := Later(floors, |a|);
    ReplayOn(base, a, [e], floors);
    ReplayAlone(r, e, f);
    var r' := Replay(r, e, f(0));
    ReplayKeeps(r, e, f(0));
    if p !in Where(r.state, Committed) {
      StandingLease(r, e.cluster, e.lease, end, p, e.through);
      CommitFills(r, e, f(0), p);
    }
    ReplayOn(base, a + [e], b, floors);
    SameAdvance(base, r', log, b);
    ReplayAllKeeps(r', b, Later(floors, |a + [e]|));
  }

  lemma SameAdvance(base: Table, r: Table, log: seq<Entry>, b: seq<Entry>)
    requires CanAdvance(base) ==> AdvanceEntry !in log
    requires r.cfg == base.cfg && r.epoch == base.epoch && forall x :: x in b ==> x in log
    ensures CanAdvance(r) ==> AdvanceEntry !in b
  {
  }

  lemma StandingLease(r: Table, c: ClusterId, id: LeaseId, end: int, p: int, through: int)
    requires Standing(r, c, id, end, p) && p !in Where(r.state, Committed) && p < through
    ensures id in r.leases && r.leases[id].cluster == c
    ensures r.leases[id].committedEnd <= p < Min(through, r.leases[id].end)
  {
  }

  lemma InThree(base: Table, a: seq<Entry>, e: Entry, b: seq<Entry>)
    requires AllReplayable(a + [e] + b, |base.state|) && e.CommitEntry?
    requires CanAdvance(base) ==> AdvanceEntry !in a + [e] + b
    ensures AllReplayable(a, |base.state|) && AllReplayable([e], |base.state|) && AllReplayable(b, |base.state|)
    ensures AllReplayable(a + [e], |base.state|) && Replayable(e, |base.state|)
    ensures Selection(a, a + [e] + b) && (forall x :: x in b ==> x in a + [e] + b)
    ensures CanAdvance(base) ==> AdvanceEntry !in a
  {
    var log := a + [e] + b;
    forall i | 0 <= i < |b| ensures Replayable(b[i], |base.state|) {
      assert log[|a| + 1 + i] == b[i];
    }
    forall i | 0 <= i < |a| ensures Replayable(a[i], |base.state|) {
      assert log[i] == a[i];
    }
  }

  // --- exactly which runs load as they were -----------------------------------------

  /** No release is refused to a cluster that holds something. */
  ghost predicate NoneRefused(trace: seq<Table>, calls: seq<Call>, k: nat)
    requires k <= |calls| < |trace|
  {
    forall m :: 0 <= m < k && calls[m].CallRelease? ==> RefusedNothing(trace[m], calls[m])
  }

  ghost predicate RefusedNothing(t: Table, call: Call)
    requires call.CallRelease?
  {
    ReleaseRefused(t, call.cluster, call.target, call.incarnation) ==> LeasesOf(t, call.cluster) == {}
  }

  /** A lease that is there at two moments has been there all the while. */
  lemma {:induction false} HeldThroughout(trace: seq<Table>, calls: seq<Call>, j: nat, m: nat, i: nat, id: LeaseId)
    requires IsRun(trace, calls) && Inv(trace[0]) && j <= m <= i < |trace| && id in trace[j].leases && id in trace[i].leases
    ensures id in trace[m].leases
    decreases i
  {
    hide *;
    RunLength(trace, calls);
    if m < i {
      StepOf(trace, calls, i - 1);
      RunIsSound(trace, calls, i - 1);
      LeaseShrinks(trace, calls, j, i - 1, id);
      NumbersIssued(trace[j]);
      CallMoves(trace[i - 1], calls[i - 1], trace[i]);
      WasHeld(trace[j], trace[i - 1], trace[i], id);
      HeldThroughout(trace, calls, j, m, i - 1, id);
    }
  }

  lemma {:induction false} FromCall(records: seq<seq<Entry>>, j: nat, k: nat, e: Entry) returns (m: nat)
    requires k <= |records| && e in Between(records, j, k)
    ensures j <= m < k && e in records[m]
    decreases k
  {
    if e in records[k - 1] {
      m := k - 1;
    } else {
      m := FromCall(records, j, k - 1, e);
    }
  }

  /** A logged release that names a lease took it, if it was not refused. */
  lemma ReleasedIsGone(t: Table, call: Call, t': Table, entries: seq<Entry>, e: Entry, c: ClusterId, id: LeaseId)
    requires Records(t, call, t', entries) && e in entries && GivesBack(e, c, id)
    requires call.CallRelease? ==> RefusedNothing(t, call)
    requires id in t.leases && t.leases[id].cluster == c
    ensures id !in t'.leases
  {
    hide *;
    OnlyReleases(t, call, t', entries, e, c, id);
    TargetsGo(t, call, t', c, id);
  }

  lemma OnlyReleases(t: Table, call: Call, t': Table, entries: seq<Entry>, e: Entry, c: ClusterId, id: LeaseId)
    requires Records(t, call, t', entries) && e in entries && GivesBack(e, c, id)
    ensures call.CallRelease? && call.cluster == c && (call.target.None? || call.target == Some(id)) && Next(t, call, t')
  {
    hide Next, Acquires, Register, Commit, HeldBlocks;
  }

  lemma TargetsGo(t: Table, call: Call, t': Table, c: ClusterId, id: LeaseId)
    requires call.CallRelease? && call.cluster == c && (call.target.None? || call.target == Some(id)) && Next(t, call, t')
    requires RefusedNothing(t, call) && id in t.leases && t.leases[id].cluster == c
    ensures id !in t'.leases
  {
    hide HeldBlocks, Returned, Poisoned, Blamed;
    assert id in LeasesOf(t, c);
  }

  lemma RecordAt(trace: seq<Table>, calls: seq<Call>, records: seq<seq<Entry>>, i: nat)
    requires IsRecordedRun(trace, calls, records) && i < |calls|
    ensures |trace| == |calls| + 1 == |records| + 1 && Records(trace[i], calls[i], trace[i + 1], records[i])
  {
    hide Records;
  }

  lemma NotRefused(trace: seq<Table>, calls: seq<Call>, k: nat, m: nat)
    requires k <= |calls| < |trace| && NoneRefused(trace, calls, k) && m < k
    ensures calls[m].CallRelease? ==> RefusedNothing(trace[m], calls[m])
  {
    hide RefusedNothing;
  }

  lemma NotGivenBack(trace: seq<Table>, calls: seq<Call>, records: seq<seq<Entry>>, j: nat, i: nat, k: nat, id: LeaseId)
    requires RunOfOneEpoch(trace, calls, records, k) && NoneRefused(trace, calls, k) && j <= i <= k
    requires id in trace[j].leases && id in trace[i].leases
    ensures forall e :: e in Between(records, j, i) ==> !GivesBack(e, trace[i].leases[id].cluster, id)
  {
    hide *;
    RunParts(trace, calls, records, k);
    RecordedRunIsRun(trace, calls, records);
    forall e | e in Between(records, j, i) ensures !GivesBack(e, trace[i].leases[id].cluster, id) {
      var m := FromCall(records, j, i, e);
      RecordAt(trace, calls, records, m);
      NotRefused(trace, calls, k, m);
      HeldThroughout(trace, calls, j, m, i, id);
      HeldThroughout(trace, calls, j, m + 1, i, id);
      LeaseShrinks(trace, calls, m, i, id);
      SameHolder(trace[m].leases[id], trace[i].leases[id]);
      StillThere(trace[m], calls[m], trace[m + 1], records[m], e, id);
    }
  }

  lemma RunParts(trace: seq<Table>, calls: seq<Call>, records: seq<seq<Entry>>, k: nat)
    requires RunOfOneEpoch(trace, calls, records, k)
    ensures IsRecordedRun(trace, calls, records) && k <= |calls| < |trace| && k <= |records| && Inv(trace[0]) && OneEpoch(trace)
  {
    hide IsRecordedRun, Inv, OneEpoch;
  }

  lemma StillThere(t: Table, call: Call, t': Table, entries: seq<Entry>, e: Entry, id: LeaseId)
    requires Records(t, call, t', entries) && e in entries && id in t.leases && id in t'.leases
    requires call.CallRelease? ==> RefusedNothing(t, call)
    ensures !GivesBack(e, t.leases[id].cluster, id)
  {
    hide *;
    if GivesBack(e, t.leases[id].cluster, id) {
      ReleasedIsGone(t, call, t', entries, e, t.leases[id].cluster, id);
    }
  }

  lemma SameHolder(l: Lease, l': Lease)
    requires Evolved(l, l')
    ensures l'.cluster == l.cluster
  {
  }

  lemma {:induction false} NoHeartbeats(trace: seq<Table>, calls: seq<Call>, records: seq<seq<Entry>>, j: nat, k: nat)
    requires IsRecordedRun(trace, calls, records) && k <= |records|
    ensures forall e :: e in Between(records, j, k) ==> !e.HeartbeatEntry?
    decreases k
  {
    hide *;
    RecordedLengths(trace, calls, records);
    BetweenNext(records, j, k);
    if j < k {
      NoHeartbeats(trace, calls, records, j, k - 1);
      RecordAt(trace, calls, records, k - 1);
      NoHeartbeat(trace[k - 1], calls[k - 1], trace[k], records[k - 1]);
    }
  }

  lemma NoHeartbeat(t: Table, call: Call, t': Table, entries: seq<Entry>)
    requires Records(t, call, t', entries)
    ensures forall e :: e in entries ==> !e.HeartbeatEntry?
  {
    hide Next, Acquires, Register, Commit, HeldBlocks;
  }

  lemma {:induction false} LateClock(log: seq<Entry>) returns (clock: real)
    requires forall e :: e in log ==> !e.HeartbeatEntry?
    ensures Passed(log, clock)
  {
    clock := 0.0;
    if log != [] {
      var n := |log| - 1;
      assert log == log[..n] + [log[n]];
      clock := LateClock(log[..n]);
      if log[n].ReapEntry? && log[n].now > clock {
        clock := log[n].now;
      }
    }
  }

  /** Whatever moment the snapshot is of, loading it and the log since, later than the log, brings back
      no commit the run had not made. */
  ghost predicate LoadsWithin(trace: seq<Table>, records: seq<seq<Entry>>, k: nat)
    requires k < |trace| && k <= |records|
  {
    forall j: nat, grace, floors :: j <= k && LateEnough(Between(records, j, k), grace, floors) ==>
      ReplaysWithin(trace[j], Between(records, j, k), grace, floors, Where(trace[k].state, Committed))
  }

  /** While no release is refused to a holder, those are exactly the runs whose cut leases do no harm. */
  lemma LoadsExactly(trace: seq<Table>, calls: seq<Call>, records: seq<seq<Entry>>, k: nat)
    requires RunOfOneEpoch(trace, calls, records, k) && NoneRefused(trace, calls, k)
    ensures LoadsWithin(trace, records, k) <==> Harmless(trace, calls, k)
  {
    assert IsRecordedRun(trace, calls, records) && Inv(trace[0]) && OneEpoch(trace);
    hide RunOfOneEpoch, NoneRefused, IsRecordedRun, Inv, InvPending, OneEpoch, Where, ReplayAll, Reopened, AllReplayable,
         Logged, CutIsDone, Selection, Between, LateEnough;
    if Harmless(trace, calls, k) {
      forall j: nat, grace, floors | j <= k && LateEnough(Between(records, j, k), grace, floors)
        ensures ReplaysWithin(trace[j], Between(records, j, k), grace, floors, Where(trace[k].state, Committed))
      {
        BetweenIsLogged(records, j, k, k);
        RecoveryInventsNothing(trace, calls, records, j, k, Between(records, j, k), grace, floors);
      }
    } else {
      var i, j :| 0 <= i < k && 0 <= j <= k && Accepted(trace[i], calls[i]) && calls[i].lease in trace[j].leases
                  && !CutIsDone(trace[i], calls[i], trace[j], Where(trace[k].state, Committed));
      HarmInOrder(trace, calls, records, j, i, k);
    }
  }

  lemma HarmInOrder(trace: seq<Table>, calls: seq<Call>, records: seq<seq<Entry>>, j: nat, i: nat, k: nat)
    requires RunOfOneEpoch(trace, calls, records, k) && NoneRefused(trace, calls, k) && j <= k && i < k
    requires Accepted(trace[i], calls[i]) && calls[i].lease in trace[j].leases
    requires !CutIsDone(trace[i], calls[i], trace[j], Where(trace[k].state, Committed))
    ensures !LoadsWithin(trace, records, k)
  {
    assert calls[i].CallCommit? && calls[i].lease in trace[i].leases && trace[i].leases[calls[i].lease].cluster == calls[i].cluster;
    assert IsRecordedRun(trace, calls, records) && Inv(trace[0]);
    hide *;
    var id, log := calls[i].lease, Between(records, j, k);
    var p := NotDone(trace[i], calls[i], trace[j], Where(trace[k].state, Committed));
    RecordedRunIsRun(trace, calls, records);
    if i < j {
      LeaseShrinks(trace, calls, i, j, id);
      EvolvedEnd(trace[i].leases[id], trace[j].leases[id], calls[i].through, p);
    } else {
      NotGivenBack(trace, calls, records, j, i, k, id);
      NoHeartbeats(trace, calls, records, j, k);
      var clock := LateClock(log);
      Late(log, clock);
      HarmIsLoaded(trace, calls, records, j, i, k, p, clock, _ => clock);
      LoadedWrong(trace, records, j, k, clock, _ => clock, p);
    }
  }

  lemma Late(log: seq<Entry>, clock: real)
    requires Passed(log, clock)
    ensures LateEnough(log, clock, _ => clock)
  {
    hide Passed;
  }

  lemma LoadedWrong(trace: seq<Table>, records: seq<seq<Entry>>, j: nat, k: nat, grace: real, floors: nat -> real, p: int)
    requires j <= k < |trace| && k <= |records| && LateEnough(Between(records, j, k), grace, floors)
    requires AllReplayable(Between(records, j, k), |Reopened(trace[j], grace).state|)
    requires p in Where(ReplayAll(Reopened(trace[j], grace), Between(records, j, k), floors).state, Committed)
    requires p !in Where(trace[k].state, Committed)
    ensures !LoadsWithin(trace, records, k)
  {
    hide Where, Reopened, ReplayAll, Between, AllReplayable, LateEnough;
    assert !ReplaysWithin(trace[j], Between(records, j, k), grace, floors, Where(trace[k].state, Committed));
  }
}
