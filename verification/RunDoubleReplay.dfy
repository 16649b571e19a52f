/** The log of a run, replayed over the snapshot of its last moment. */
module RunDoubleReplays {
  import opened Wrappers
  import opened Intervals
  import opened LeaseModel
  import opened LeaseInvariant
  import opened LeaseRuns
  import opened DrainSafety
  import opened Snapshots
  import opened Journals
  import opened Recovery
  import opened HarmlessSteals
  import opened ExactRecovery
  import opened InOrderReplay
  import opened DoubleReplays
  import StolenReplay

  // --- ids in the log of a run ----------------------------------------------------

  /** Whatever the log says, it says of ids issued by now. */
  ghost predicate IssuedBy(log: seq<Entry>, lastNumber: int) {
    forall e, id :: e in log && Mentions(e, id) ==> NumberOf(id) <= lastNumber
  }

  lemma GrantIdsApart(t: Table, a: AcquireCall, g: Grant, t': Table)
    requires Acquires(t, a, g, t')
    ensures forall i, j :: 0 <= i < j < |g.leases| ==> g.leases[i].id != g.leases[j].id
  {
    hide *;
    var served, spans, t1 := Answer(t, a, g, t');
    if served {
      ServedIds(Rolled(Prepared(t, a)), a, spans, t1, g, t');
    }
  }

  lemma ServedIds(t: Table, a: AcquireCall, spans: seq<Interval>, t1: Table, g: Grant, t': Table)
    requires a.cluster in t.clusters && t.cfg.numBlocks != 0 && Serves(t, a, spans, t1, g, t')
    ensures forall i, j :: 0 <= i < j < |g.leases| ==> g.leases[i].id != g.leases[j].id
  {
    hide Allots, Install, GrantSize, GrantedTtl;
    if spans != [] {
      var ttl := GrantedTtl(t.cfg, t.clusters[a.cluster], a.ttl);
      forall i | 0 <= i < |g.leases| ensures NumberOf(g.leases[i].id) == t1.lastNumber + 1 + i {
      }
    }
  }

  /** One entry more: a grant of new ids, or a word on a lease that is held. */
  lemma StepIds(t: Table, call: Call, t': Table, entries: seq<Entry>, log: seq<Entry>)
    requires Inv(t) && Inv(t') && Records(t, call, t', entries) && t.lastNumber <= t'.lastNumber
    requires OncePerId(log) && IssuedBy(log, t.lastNumber)
    ensures OncePerId(log + entries) && IssuedBy(log + entries, t'.lastNumber)
  {
    RecordsIsNext(t, call, t', entries);
    hide *;
    NumbersIssued(t);
    NumbersIssued(t');
    if call.CallAcquire? {
      var g := AcquireRecords(t, call.request, t', entries);
      GrantIdsApart(t, call.request, g, t');
      AcquireMoves(t, call.request, g, t');
      GrantIds(t, call.request, g, t', log);
    } else if call.CallCommit? {
      CommitRecords(t, call, t', entries);
      CommitIds(t, call, t', entries, log);
    } else {
      OtherRecords(t, call, t', entries);
      QuietIds(log, entries, t.lastNumber, t'.lastNumber);
    }
  }

  lemma GrantIds(t: Table, a: AcquireCall, g: Grant, t': Table, log: seq<Entry>)
    requires OncePerId(log) && IssuedBy(log, t.lastNumber) && t.lastNumber <= t'.lastNumber
    requires forall i, j :: 0 <= i < j < |g.leases| ==> g.leases[i].id != g.leases[j].id
    requires forall l :: l in g.leases ==> l.id in t'.leases && t.lastNumber < NumberOf(l.id)
    requires forall id :: id in t'.leases ==> NumberOf(id) <= t'.lastNumber
    ensures OncePerId(log + GrantEntries(a, g)) && IssuedBy(log + GrantEntries(a, g), t'.lastNumber)
  {
    if g.leases != [] {
      var e := AcquireEntry(a.cluster, g.leases, a.now);
      assert GrantEntries(a, g) == [e];
      forall i | 0 <= i < |g.leases| ensures t.lastNumber < NumberOf(g.leases[i].id) <= t'.lastNumber {
        assert g.leases[i] in g.leases;
      }
      AppendGrant(log, e, t.lastNumber);
      AppendIssued(log, e, t.lastNumber, t'.lastNumber);
    } else {
      assert log + GrantEntries(a, g) == log;
    }
  }

  lemma AppendGrant(log: seq<Entry>, e: Entry, lastNumber: int)
    requires OncePerId(log) && IssuedBy(log, lastNumber) && e.AcquireEntry?
    requires forall i :: 0 <= i < |e.leases| ==> lastNumber < NumberOf(e.leases[i].id)
    requires forall i, j :: 0 <= i < j < |e.leases| ==> e.leases[i].id != e.leases[j].id
    ensures OncePerId(log + [e])
  {
    var longer := log + [e];
    forall n, i | 0 <= n < |longer| && longer[n].AcquireEntry? && 0 <= i < |longer[n].leases|
      ensures forall m :: 0 <= m < n ==> !Mentions(longer[m], longer[n].leases[i].id)
      ensures forall j :: 0 <= j < i ==> longer[n].leases[j].id != longer[n].leases[i].id
    {
      if n < |log| {
        assert longer[n] == log[n];
        forall m | 0 <= m < n ensures !Mentions(longer[m], longer[n].leases[i].id) { assert longer[m] == log[m]; }
      } else {
        forall m | 0 <= m < n ensures !Mentions(longer[m], longer[n].leases[i].id) {
          assert longer[m] == log[m] && log[m] in log;
        }
      }
    }
  }

  lemma AppendIssued(log: seq<Entry>, e: Entry, lastNumber: int, lastNumber': int)
    requires IssuedBy(log, lastNumber) && lastNumber <= lastNumber'
    requires forall id :: Mentions(e, id) ==> NumberOf(id) <= lastNumber'
    ensures IssuedBy(log + [e], lastNumber')
  {
    hide Mentions;
  }

  lemma AppendOther(log: seq<Entry>, e: Entry)
    requires OncePerId(log) && !e.AcquireEntry?
    ensures OncePerId(log + [e])
  {
    var longer := log + [e];
    forall n, i | 0 <= n < |longer| && longer[n].AcquireEntry? && 0 <= i < |longer[n].leases|
      ensures forall m :: 0 <= m < n ==> !Mentions(longer[m], longer[n].leases[i].id)
      ensures forall j :: 0 <= j < i ==> longer[n].leases[j].id != longer[n].leases[i].id
    {
      assert longer[n] == log[n];
      forall m | 0 <= m < n ensures !Mentions(longer[m], longer[n].leases[i].id) { assert longer[m] == log[m]; }
    }
  }

  lemma CommitIds(t: Table, call: Call, t': Table, entries: seq<Entry>, log: seq<Entry>)
    requires OncePerId(log) && IssuedBy(log, t.lastNumber) && t.lastNumber <= t'.lastNumber && call.CallCommit?
    requires entries == if Commit(t, call.cluster, call.lease, call.through, call.now).Err? then []
                        else [CommitEntry(call.cluster, call.lease, call.through, call.now)]
    requires forall id :: id in t.leases ==> NumberOf(id) <= t.lastNumber
    ensures OncePerId(log + entries) && IssuedBy(log + entries, t'.lastNumber)
  {
    if entries == [] {
      assert log + entries == log;
    } else {
      AppendOther(log, entries[0]);
      AppendIssued(log, entries[0], t.lastNumber, t'.lastNumber);
    }
  }

  lemma {:induction false} QuietIds(log: seq<Entry>, entries: seq<Entry>, lastNumber: int, lastNumber': int)
    requires OncePerId(log) && IssuedBy(log, lastNumber) && lastNumber <= lastNumber'
    requires forall e :: e in entries ==> !e.CommitEntry? && !e.AcquireEntry?
    ensures OncePerId(log + entries) && IssuedBy(log + entries, lastNumber')
  {
    if entries == [] {
      assert log + entries == log;
    } else {
      var n := |entries| - 1;
      assert entries[n] in entries && forall e :: e in entries[..n] ==> e in entries;
      QuietIds(log, entries[..n], lastNumber, lastNumber');
      AppendOther(log + entries[..n], entries[n]);
      AppendIssued(log + entries[..n], entries[n], lastNumber', lastNumber');
      assert log + entries[..n] + [entries[n]] == log + entries;
    }
  }

  lemma {:induction false} LoggedOnce(trace: seq<Table>, calls: seq<Call>, records: seq<seq<Entry>>, k: nat)
    requires IsRecordedRun(trace, calls, records) && Inv(trace[0]) && k <= |calls|
    ensures |trace| == |calls| + 1 == |records| + 1
    ensures OncePerId(Logged(records, k)) && IssuedBy(Logged(records, k), trace[k].lastNumber)
  {
    hide *;
    RecordedLengths(trace, calls, records);
    LogNext(records, k);
    if k == 0 {
      NothingSaid(trace[0].lastNumber);
    } else {
      LoggedOnce(trace, calls, records, k - 1);
      RecordedRunIsRun(trace, calls, records);
      RunIsSound(trace, calls, k - 1);
      RunIsSound(trace, calls, k);
      StepOf(trace, calls, k - 1);
      CallMoves(trace[k - 1], calls[k - 1], trace[k]);
      MoreIssued(trace[k - 1], trace[k]);
      RecordAt(trace, calls, records, k - 1);
      StepIds(trace[k - 1], calls[k - 1], trace[k], records[k - 1], Logged(records, k - 1));
    }
  }

  lemma NothingSaid(lastNumber: int)
    ensures OncePerId([]) && IssuedBy([], lastNumber)
  {
  }

  lemma MoreIssued(t: Table, t': Table)
    requires NewIds(t, t')
    ensures t.lastNumber <= t'.lastNumber
  {
  }

  // --- watermarks in the log of a run ------------------------------------------------

  lemma {:induction false} FromLog(records: seq<seq<Entry>>, k: nat, e: Entry) returns (m: nat)
    requires k <= |records| && e in Logged(records, k)
    ensures m < k && e in records[m]
  {
    if e in records[k - 1] {
      m := k - 1;
    } else {
      m := FromLog(records, k - 1, e);
    }
  }

  /** A lease that is still there after a commit is committed as far as was asked. */
  lemma CommittedAsAsked(t: Table, call: Call, t': Table)
    requires Inv(t) && Next(t, call, t') && Accepted(t, call) && call.lease in t'.leases
    ensures call.through <= t'.leases[call.lease].committedEnd
  {
    CommitShape(t, call.cluster, call.lease, call.through, call.now);
    hide Inv, InvPending, Commit;
  }

  lemma CommitAccepted(t: Table, call: Call, t': Table, entries: seq<Entry>, e: Entry)
    requires Records(t, call, t', entries) && e in entries && e.CommitEntry?
    ensures Accepted(t, call) && e == CommitEntry(call.cluster, call.lease, call.through, call.now)
  {
    hide HeldBlocks, Register, Next, Acquires;
  }

  lemma LogCaughtUp(trace: seq<Table>, calls: seq<Call>, records: seq<seq<Entry>>, k: nat)
    requires IsRecordedRun(trace, calls, records) && Inv(trace[0]) && k <= |calls| < |trace| && k <= |records|
    ensures CaughtUp(trace[k], Logged(records, k))
  {
    RecordedRunIsRun(trace, calls, records);
    forall e | e in Logged(records, k) && e.CommitEntry? && e.lease in trace[k].leases
               && trace[k].leases[e.lease].cluster == e.cluster
      ensures e.through <= trace[k].leases[e.lease].committedEnd
    {
      var m := FromLog(records, k, e);
      hide *;
      RecordAt(trace, calls, records, m);
      CommitAccepted(trace[m], calls[m], trace[m + 1], records[m], e);
      AcceptedHolds(trace[m], calls[m], e);
      RunIsSound(trace, calls, m);
      StepOf(trace, calls, m);
      HeldThroughout(trace, calls, m, m + 1, k, e.lease);
      CommittedAsAsked(trace[m], calls[m], trace[m + 1]);
      LeaseShrinks(trace, calls, m + 1, k, e.lease);
      MarkKept(trace[m + 1].leases[e.lease], trace[k].leases[e.lease]);
    }
  }

  lemma AcceptedHolds(t: Table, call: Call, e: Entry)
    requires Accepted(t, call) && e == CommitEntry(call.cluster, call.lease, call.through, call.now)
    ensures e.lease == call.lease && e.lease in t.leases && e.through == call.through
  {
  }

  lemma MarkKept(l: Lease, l': Lease)
    requires Evolved(l, l')
    ensures l.committedEnd <= l'.committedEnd
  {
  }

  // --- exactly when nothing is added ---------------------------------------------------

  lemma ReopenedCaughtUp(t: Table, log: seq<Entry>, grace: real)
    requires CaughtUp(t, log)
    ensures CaughtUp(Reopened(t, grace), log)
  {
  }

  /** The snapshot of a run's last moment contains its log. */
  lemma RunContained(trace: seq<Table>, calls: seq<Call>, records: seq<seq<Entry>>, k: nat, grace: real, floors: nat -> real)
    requires RunOfOneEpoch(trace, calls, records, k) && LateEnough(Logged(records, k), grace, floors)
    requires forall e :: e in Logged(records, k) ==> !e.ReleaseEntry?
    ensures Contained(Reopened(trace[k], grace), Logged(records, k), floors)
  {
    assert IsRecordedRun(trace, calls, records) && Inv(trace[0]) && OneEpoch(trace) && k <= |calls| < |trace| && k <= |records|;
    hide *;
    var log := Logged(records, k);
    RecordedLengths(trace, calls, records);
    LogIsReplayable(trace, calls, records, k);
    RecordedRunIsRun(trace, calls, records);
    RunIsSound(trace, calls, k);
    LoggedOnce(trace, calls, records, k);
    LogCaughtUp(trace, calls, records, k);
    ReopenedCaughtUp(trace[k], log, grace);
    ReopenedKeeps(trace[k], grace);
    ContainedIf(trace[0], trace[k], log, grace, floors);
  }

  lemma ContainedIf(t0: Table, t: Table, log: seq<Entry>, grace: real, floors: nat -> real)
    requires Inv(Reopened(t, grace)) && LogOk(log, t0) && OncePerId(log) && CaughtUp(Reopened(t, grace), log)
    requires t.cfg == t0.cfg && t.epoch == t0.epoch && |t.state| == |t0.state|
    requires LateEnough(log, grace, floors) && forall e :: e in log ==> !e.ReleaseEntry?
    ensures Contained(Reopened(t, grace), log, floors)
  {
    var base := Reopened(t, grace);
    PassedOutlives(t, log, grace);
    forall i | 0 <= i < |log| ensures Replayable(log[i], |base.state|) {
      assert log[i] in log;
    }
    hide Inv, InvPending, Passed, OncePerId, CaughtUp, Outlives, Replayable;
  }

  lemma PassedOutlives(t: Table, log: seq<Entry>, grace: real)
    requires Passed(log, grace)
    ensures Outlives(Reopened(t, grace), log)
  {
  }

  /** A run whose log holds no release, killed between its snapshot and the truncation: its commits come
      back unchanged exactly when no grant that the snapshot no longer holds finds a free position, in
      its turn, that a logged commit of it goes past. */
  lemma RunDoubleReplayExactly(trace: seq<Table>, calls: seq<Call>, records: seq<seq<Entry>>, k: nat, grace: real,
                               floors: nat -> real)
    requires RunOfOneEpoch(trace, calls, records, k) && LateEnough(Logged(records, k), grace, floors)
    requires forall e :: e in Logged(records, k) ==> !e.ReleaseEntry?
    ensures var base, log := Reopened(trace[k], grace), Logged(records, k);
            && AllReplayable(log, |base.state|) && AllRecordable(Grants(log), |base.state|)
            && (Where(ReplayAll(base, log, floors).state, Committed) == Where(trace[k].state, Committed) <==>
                !Spoiled(base, log))
  {
    assert k < |trace| && k <= |records|;
    hide *;
    RunContained(trace, calls, records, k, grace, floors);
    DoubleReplayExactly(Reopened(trace[k], grace), Logged(records, k), floors);
    SameStates(trace[k], grace);
  }

  lemma SameStates(t: Table, grace: real)
    ensures Reopened(t, grace).state == t.state
  {
  }

  /** With releases in the log: as long as none names a lease of the snapshot, nothing loose means nothing
      added. */
  lemma RunNothingLoose(trace: seq<Table>, calls: seq<Call>, records: seq<seq<Entry>>, k: nat, grace: real, floors: nat -> real)
    requires RunOfOneEpoch(trace, calls, records, k) && LateEnough(Logged(records, k), grace, floors)
    requires forall e, id :: e in Logged(records, k) && id in trace[k].leases ==> !GivesBack(e, trace[k].leases[id].cluster, id)
    requires !AnyLoose(Reopened(trace[k], grace), Logged(records, k))
    ensures var base, log := Reopened(trace[k], grace), Logged(records, k);
            && AllReplayable(log, |base.state|)
            && Where(ReplayAll(base, log, floors).state, Committed) == Where(trace[k].state, Committed)
  {
    assert IsRecordedRun(trace, calls, records) && Inv(trace[0]) && OneEpoch(trace) && k <= |calls| < |trace| && k <= |records|;
    hide *;
    var log := Logged(records, k);
    RecordedLengths(trace, calls, records);
    LogIsReplayable(trace, calls, records, k);
    RecordedRunIsRun(trace, calls, records);
    RunIsSound(trace, calls, k);
    LogCaughtUp(trace, calls, records, k);
    ReopenedCaughtUp(trace[k], log, grace);
    ReopenedKeeps(trace[k], grace);
    FollowedIf(trace[0], trace[k], log, grace, floors);
    NothingLooseAddsNothing(Reopened(trace[k], grace), log, floors);
    SameStates(trace[k], grace);
  }

  lemma FollowedIf(t0: Table, t: Table, log: seq<Entry>, grace: real, floors: nat -> real)
    requires Inv(Reopened(t, grace)) && LogOk(log, t0) && CaughtUp(Reopened(t, grace), log) && LateEnough(log, grace, floors)
    requires t.cfg == t0.cfg && t.epoch == t0.epoch && |t.state| == |t0.state|
    requires forall e, id :: e in log && id in t.leases ==> !GivesBack(e, t.leases[id].cluster, id)
    ensures Followed(Reopened(t, grace), log, floors)
  {
    var base := Reopened(t, grace);
    PassedOutlives(t, log, grace);
    forall i | 0 <= i < |log| ensures Replayable(log[i], |base.state|) {
      assert log[i] in log;
    }
    assert forall id :: id in base.leases ==> base.leases[id].cluster == t.leases[id].cluster;
    hide Inv, InvPending, Passed, CaughtUp, Outlives, Replayable, GivesBack;
  }

  // --- a double replay that does harm ---------------------------------------------------

  const GIVE_BACK := ReleaseEntry("B", Some(StolenReplay.ID_B), 0.0)

  /** After the steal and the clamped commit, B gives its lease back: blocks 2 and 3 are free. */
  ghost function GivenBack(): Table {
    Release(StolenReplay.LiveEnd(), "B", Some(StolenReplay.ID_B), "", true)
  }

  lemma LiveEndIs()
    ensures var t := StolenReplay.LiveEnd();
            && t.state == [Committed, Committed, Leased, Leased] && t.leases == map[StolenReplay.ID_B := StolenReplay.LEASE_B]
            && t.epoch == 0 && t.attempts == map[] && t.cfg == StolenReplay.SETTINGS
  {
    var t := StolenReplay.AfterB();
    assert Filled(t.state, 0, 2, Committed) == [Committed, Committed, Leased, Leased];
    assert t.leases - {StolenReplay.ID_A} == map[StolenReplay.ID_B := StolenReplay.LEASE_B];
  }

  lemma GivenBackIs()
    ensures var t := GivenBack();
            t.state == [Committed, Committed, Unassigned, Unassigned] && t.leases == map[] && t.epoch == 0
  {
    LiveEndIs();
    var t, ids := StolenReplay.LiveEnd(), {StolenReplay.ID_B};
    assert LeasesOf(t, "B") * ids == ids;
    hide StolenReplay.LiveEnd;
    forall p ensures p in HeldBlocks(t, ids) <==> p == 2 || p == 3 {
      if p == 2 || p == 3 { assert StolenReplay.ID_B in ids && Holds(t.leases[StolenReplay.ID_B], p); }
    }
    assert HeldBlocks(t, ids) == {2, 3};
    assert Poisoned(t.cfg, t.attempts, {2, 3}) == {};
    assert Returned(t.state, {2, 3}, {}) == [Committed, Committed, Unassigned, Unassigned];
    assert t.leases - ids == map[];
  }

  /** A holds the two positions that had been cut off its lease. */
  ghost predicate HoldsTheCut(t: Table) {
    && t.state == [Committed, Committed, Leased, Leased] && t.epoch == 0
    && StolenReplay.ID_A in t.leases && t.leases.Keys == {StolenReplay.ID_A}
    && t.leases[StolenReplay.ID_A].cluster == "A" && t.leases[StolenReplay.ID_A].committedEnd == 2
    && t.leases[StolenReplay.ID_A].end == 4
  }

  lemma RegainA(t: Table, floor: real)
    requires t.state == [Committed, Committed, Unassigned, Unassigned] && t.epoch == 0 && t.leases == map[]
    ensures Replayable(StolenReplay.LOG[0], 4) && HoldsTheCut(Replay(t, StolenReplay.LOG[0], floor))
  {
    var t1 := Announce(t, "A", 0.0);
    assert t1.state == t.state && t1.leases == t.leases;
    assert [StolenReplay.LEASE_A][..0] == [];
    assert ReplayGrant(t1, [StolenReplay.LEASE_A], floor) == ReplayLease(t1, StolenReplay.LEASE_A, floor);
    assert FirstFree(t1.state, 1, 4) == 2 && FirstFree(t1.state, 0, 4) == 2;
    assert FreeRunEnd(t1.state, 3, 4) == 4 && FreeRunEnd(t1.state, 2, 4) == 4;
    assert Filled(t1.state, 2, 4, Leased) == [Committed, Committed, Leased, Leased];
  }

  lemma NoneForB(t: Table, floor: real)
    requires HoldsTheCut(t)
    ensures Replayable(StolenReplay.LOG[1], 4) && HoldsTheCut(Replay(t, StolenReplay.LOG[1], floor))
  {
    var t1 := Announce(t, "B", 0.0);
    assert t1.state == t.state && t1.leases == t.leases;
    assert [StolenReplay.LEASE_B][..0] == [];
    assert ReplayGrant(t1, [StolenReplay.LEASE_B], floor) == ReplayLease(t1, StolenReplay.LEASE_B, floor);
    assert FirstFree(t1.state, 3, 4) == 4 && FirstFree(t1.state, 2, 4) == 4;
  }

  lemma CommitTheCut(t: Table, floor: real)
    requires HoldsTheCut(t)
    ensures Replayable(StolenReplay.LOG[2], 4)
    ensures var r := Replay(t, StolenReplay.LOG[2], floor);
            r.state == [Committed, Committed, Committed, Committed] && r.leases == map[]
  {
    assert Filled(t.state, 2, 4, Committed) == [Committed, Committed, Committed, Committed];
    assert t.leases - {StolenReplay.ID_A} == map[];
  }

  lemma NothingOfB(t: Table, floor: real)
    requires t.leases == map[]
    ensures Replayable(GIVE_BACK, 4) && Replay(t, GIVE_BACK, floor).state == t.state
  {
    assert LeasesOf(t, "B") == {};
    ReclaimNothing(t, true);
    hide Reclaim;
  }

  lemma ReplayFour(t: Table, floors: nat -> real)
    requires t.state == [Committed, Committed, Unassigned, Unassigned] && t.epoch == 0 && t.leases == map[]
    ensures var log := StolenReplay.LOG + [GIVE_BACK];
            AllReplayable(log, 4) && Where(ReplayAll(t, log, floors).state, Committed) == {0, 1, 2, 3}
  {
    hide *;
    var log := StolenReplay.LOG;
    StolenReplay.LogHasThree();
    RegainA(t, floors(0));
    var t1 := Replay(t, log[0], floors(0));
    NoneForB(t1, floors(1));
    var t2 := Replay(t1, log[1], floors(1));
    CommitTheCut(t2, floors(2));
    StolenReplay.ReplayInTurn(t, log[0], log[1], log[2], floors);
    var t3 := ReplayAll(t, log, floors);
    NothingOfB(t3, Later(floors, 3)(0));
    ReplayAlone(t3, GIVE_BACK, Later(floors, 3));
    ReplayableAlone(GIVE_BACK);
    ReplayOn(t, log, [GIVE_BACK], floors);
    AllFour(ReplayAll(t, log + [GIVE_BACK], floors));
  }

  lemma ReplayableAlone(e: Entry)
    requires Replayable(e, 4)
    ensures AllReplayable([e], 4)
  {
  }

  lemma AllFour(t: Table)
    requires t.state == [Committed, Committed, Committed, Committed]
    ensures Where(t.state, Committed) == {0, 1, 2, 3}
  {
  }

  lemma FirstTwo(t: Table)
    requires t.state == [Committed, Committed, Unassigned, Unassigned]
    ensures Where(t.state, Committed) == {0, 1}
  {
  }

  lemma GiveBackRecords()
    ensures Records(StolenReplay.LiveEnd(), CallRelease("B", Some(StolenReplay.ID_B), "", true), GivenBack(), [GIVE_BACK])
  {
    hide Release, StolenReplay.LiveEnd;
  }

  /** A steal, a clamped commit, a release; the snapshot is written and the log not yet truncated. Replayed
      over that snapshot, the log commits the two blocks that the commit had been clamped by. */
  lemma DoubleReplayInvents(grace: real, floors: nat -> real)
    returns (trace: seq<Table>, calls: seq<Call>, records: seq<seq<Entry>>)
    ensures |trace| == 5 && |calls| == |records| == 4 && trace[0] == StolenReplay.Start() && Inv(trace[0])
    ensures IsRecordedRun(trace, calls, records) && OneEpoch(trace)
    ensures Where(trace[4].state, Committed) == {0, 1}
    ensures var base, log := Reopened(trace[4], grace), Logged(records, 4);
            && AllReplayable(log, |base.state|)
            && Where(ReplayAll(base, log, floors).state, Committed) == {0, 1, 2, 3}
  {
    hide *;
    StolenReplay.LogHasThree();
    StolenReplay.GrantRecords();
    StolenReplay.LiveCommits();
    GiveBackRecords();
    GivenBackIs();
    LiveEndIs();
    StolenReplay.StartIsSound(grace);
    var log := StolenReplay.LOG;
    trace := [StolenReplay.Start(), StolenReplay.AfterA(), StolenReplay.AfterB(), StolenReplay.LiveEnd(), GivenBack()];
    calls := [CallAcquire(StolenReplay.ASK_A), CallAcquire(StolenReplay.ASK_B), CallCommit("A", StolenReplay.ID_A, 4, 0.0),
              CallRelease("B", Some(StolenReplay.ID_B), "", true)];
    records := [[log[0]], [log[1]], [log[2]], [GIVE_BACK]];
    FourCalls(trace, calls, records);
    LogOfFour(records);
    assert Logged(records, 4) == log + [GIVE_BACK];
    SameEpochThroughout(trace);
    FirstTwo(GivenBack());
    ReopenedEmpty(GivenBack(), grace);
    ReplayFour(Reopened(GivenBack(), grace), floors);
  }

  lemma FourCalls(trace: seq<Table>, calls: seq<Call>, records: seq<seq<Entry>>)
    requires |trace| == 5 && |calls| == |records| == 4
    requires Records(trace[0], calls[0], trace[1], records[0]) && Records(trace[1], calls[1], trace[2], records[1])
    requires Records(trace[2], calls[2], trace[3], records[2]) && Records(trace[3], calls[3], trace[4], records[3])
    ensures IsRecordedRun(trace, calls, records)
  {
    hide Records;
  }

  lemma LogOfFour(records: seq<seq<Entry>>)
    requires |records| == 4
    ensures Logged(records, 4) == records[0] + records[1] + records[2] + records[3]
  {
    assert Logged(records, 1) == [] + records[0];
    assert Logged(records, 3) == Logged(records, 2) + records[2];
  }

  lemma SameEpochThroughout(trace: seq<Table>)
    requires trace == [StolenReplay.Start(), StolenReplay.AfterA(), StolenReplay.AfterB(), StolenReplay.LiveEnd(), GivenBack()]
    requires StolenReplay.LiveEnd().epoch == 0 && GivenBack().epoch == 0
    ensures OneEpoch(trace)
  {
    hide StolenReplay.LiveEnd, GivenBack;
    assert StolenReplay.Start().epoch == 0 && StolenReplay.AfterA().epoch == 0 && StolenReplay.AfterB().epoch == 0;
    forall i | 0 <= i < |trace| - 1 ensures trace[i + 1].epoch == trace[i].epoch {
      assert i == 0 || i == 1 || i == 2 || i == 3;
    }
  }

  lemma ReopenedEmpty(t: Table, grace: real)
    requires t.leases == map[]
    ensures Reopened(t, grace).state == t.state && Reopened(t, grace).leases == map[] && Reopened(t, grace).epoch == t.epoch
  {
    assert ExtendAll(t.leases, grace).Keys == {};
  }
}
