/** What recovery makes of a change of epoch: an explicit one is replayed as often as it is in the log,
    and one that an acquire brings about leaves no entry at all. */
module EpochRecovery {
  import opened LeaseModel
  import opened LeaseInvariant
  import opened AcquireInvariant
  import opened LeaseRuns
  import opened DrainSafety
  import opened Snapshots
  import opened Journals
  import opened Recovery
  import opened ExactRecovery
  import opened HarmlessSteals
  import opened TornLogs

  // --- an advance that was asked for --------------------------------------------

  lemma EpochMoves(t: Table, e: Entry, floor: real)
    requires Inv(t) && Replayable(e, |t.state|)
    ensures var r := Replay(t, e, floor);
            Inv(r) && r.cfg == t.cfg && r.epoch == t.epoch + (if e.AdvanceEntry? && CanAdvance(t) then 1 else 0)
  {
    ReplayKeeps(t, e, floor);
    hide Inv, InvPending;
  }

  /** A log takes a table out of its epoch exactly when an advance is in it and one is still to be had:
      so a log replayed over a snapshot that contains its advance goes one epoch too far. */
  lemma {:induction false} SameEpochExactly(t: Table, journal: seq<Entry>, floors: nat -> real)
    requires Inv(t) && AllReplayable(journal, |t.state|)
    ensures var r := ReplayAll(t, journal, floors);
            && Inv(r) && r.cfg == t.cfg && t.epoch <= r.epoch
            && (r.epoch == t.epoch <==> !CanAdvance(t) || AdvanceEntry !in journal)
  {
    hide Inv, InvPending, Replay, AllReplayable, ReplayAll;
    if journal == [] {
      NothingLogged(t, floors);
    } else {
      var n := |journal| - 1;
      LastEntry(t, journal, floors);
      SameEpochExactly(t, journal[..n], floors);
      EpochMoves(ReplayAll(t, journal[..n], floors), journal[n], floors(n));
      assert AdvanceEntry in journal <==> AdvanceEntry in journal[..n] || journal[n] == AdvanceEntry;
    }
  }

  // --- an advance that nobody asked for -----------------------------------------

  /** Written in another epoch, by calls that did not advance it. */
  predicate OfAnother(e: Entry, epoch: int) {
    !e.AdvanceEntry? && (e.AcquireEntry? ==> forall l :: l in e.leases ==> l.epoch != epoch)
  }

  ghost predicate Untouched(t: Table, r: Table) {
    r.state == t.state && r.leases == map[] && r.epoch == t.epoch && r.committed == t.committed
  }

  lemma {:induction false} GrantOfAnother(t: Table, leases: seq<Lease>, floor: real)
    requires forall i :: 0 <= i < |leases| ==> Recordable(leases[i], |t.state|) && leases[i].epoch != t.epoch
    ensures ReplayGrant(t, leases, floor) == t
  {
    if leases != [] {
      GrantOfAnother(t, leases[..|leases| - 1], floor);
    }
  }

  lemma EntryOfAnother(t: Table, e: Entry, floor: real)
    requires t.leases == map[] && Replayable(e, |t.state|) && OfAnother(e, t.epoch)
    ensures Untouched(t, Replay(t, e, floor))
  {
    match e
    case RegisterEntry(_, _, _, _, _) =>
    case AcquireEntry(c, leases, now) =>
      var t1 := Announce(t, c, now);
      assert t1.state == t.state && t1.leases == map[] && t1.epoch == t.epoch && t1.committed == t.committed;
      forall i | 0 <= i < |leases| ensures Recordable(leases[i], |t1.state|) && leases[i].epoch != t1.epoch {
        assert leases[i] in leases;
      }
      GrantOfAnother(t1, leases, floor);
    case CommitEntry(_, _, _, _) =>
    case ReleaseEntry(c, target, now) => NothingToGive(t, ReleaseTargets(t, c, target, ""), true);
    case HeartbeatEntry(c, progress, ttl, now) => NothingToGive(t, Expired(t, now), true);
    case ReapEntry(now) => NothingToGive(t, Expired(t, now), true);
  }

  lemma NothingToGive(t: Table, ids: set<LeaseId>, counted: bool)
    requires t.leases == map[]
    ensures Untouched(t, Reclaim(t, ids, counted)) && Reclaim(t, ids, counted).clusters == t.clusters
  {
    assert HeldBlocks(t, ids) == {};
    assert Returned(t.state, {}, {}) == t.state;
  }

  lemma {:induction false} LogOfAnother(t: Table, journal: seq<Entry>, floors: nat -> real)
    requires t.leases == map[] && AllReplayable(journal, |t.state|)
    requires forall i :: 0 <= i < |journal| ==> OfAnother(journal[i], t.epoch)
    ensures Untouched(t, ReplayAll(t, journal, floors))
  {
    hide Replay, ReplayAll, AllReplayable, OfAnother;
    if journal == [] {
      NothingLogged(t, floors);
    } else {
      var n := |journal| - 1;
      LastEntry(t, journal, floors);
      LogOfAnother(t, journal[..n], floors);
      EntryOfAnother(ReplayAll(t, journal[..n], floors), journal[n], floors(n));
    }
  }

  /** The grant that rolls a finished epoch over is of the next epoch. */
  lemma RollingGrant(t: Table, a: AcquireCall, g: Grant, t': Table)
    requires Inv(t) && Finished(t) && Acquires(t, a, g, t') && t'.epoch != t.epoch
    ensures forall l :: l in g.leases ==> l.epoch == t'.epoch
    ensures forall e :: e in GrantEntries(a, g) ==> OfAnother(e, t.epoch)
  {
    hide *;
    AcquireKeeps(t, a, g, t');
    AcquireMoves(t, a, g, t');
    OwnEpoch(t', g.leases);
    EntriesOf(a, g, t.epoch, t'.epoch);
  }

  lemma OwnEpoch(t: Table, leases: seq<Lease>)
    requires Inv(t) && forall l :: l in leases ==> l.id in t.leases && t.leases[l.id] == l
    ensures forall l :: l in leases ==> l.epoch == t.epoch
  {
    forall l | l in leases ensures l.epoch == t.epoch {
      assert LeaseOk(t.leases[l.id], l.id, t.epoch, |t.state|, t.clusters.Keys, t.lastNumber);
    }
  }

  lemma EntriesOf(a: AcquireCall, g: Grant, epoch: int, epoch': int)
    requires epoch != epoch' && forall l :: l in g.leases ==> l.epoch == epoch'
    ensures forall e :: e in GrantEntries(a, g) ==> OfAnother(e, epoch)
  {
  }

  /** A run of one epoch that nobody advances logs nothing of any other. */
  lemma {:induction false} RunIsOfAnother(trace: seq<Table>, calls: seq<Call>, records: seq<seq<Entry>>, k: nat, epoch: int)
    requires IsRecordedRun(trace, calls, records) && Inv(trace[0]) && OneEpoch(trace) && k <= |calls|
    requires trace[0].epoch != epoch && forall i :: 0 <= i < k ==> !calls[i].CallAdvance?
    ensures |trace| == |calls| + 1 == |records| + 1 && trace[k].epoch == trace[0].epoch && Inv(trace[k])
    ensures forall e :: e in Logged(records, k) ==> OfAnother(e, epoch)
  {
    hide *;
    RecordedLengths(trace, calls, records);
    LogNext(records, k);
    if k > 0 {
      RunIsOfAnother(trace, calls, records, k - 1, epoch);
      RunStep(trace, calls, records, k - 1);
      NextKeeps(trace[k - 1], calls[k - 1], trace[k]);
      StepIsOfAnother(trace[k - 1], calls[k - 1], trace[k], records[k - 1], epoch);
    }
  }

  lemma StepIsOfAnother(t: Table, call: Call, t': Table, entries: seq<Entry>, epoch: int)
    requires Inv(t) && Inv(t') && Records(t, call, t', entries) && t'.epoch != epoch && !call.CallAdvance?
    ensures forall e :: e in entries ==> OfAnother(e, epoch)
  {
    if call.CallAcquire? {
      hide *;
      var g := AcquireRecords(t, call.request, t', entries);
      AcquireMoves(t, call.request, g, t');
      OwnEpoch(t', g.leases);
      EntriesOf(call.request, g, epoch, t'.epoch);
    } else {
      hide Inv, InvPending, Next, Register, Commit, HeldBlocks;
    }
  }

  /** Killed in an epoch that began with an acquire and had no snapshot yet: the table comes back in the
      old epoch, finished, with nothing of what the new one granted or committed. */
  lemma RolloverIsLost(t: Table, a: AcquireCall, g: Grant, trace: seq<Table>, calls: seq<Call>, records: seq<seq<Entry>>,
                       k: nat, grace: real, floors: nat -> real)
    requires IsRecordedRun(trace, calls, records) && OneEpoch(trace) && k <= |calls|
    requires Inv(t) && Finished(t) && Acquires(t, a, g, trace[0]) && trace[0].epoch != t.epoch
    requires forall i :: 0 <= i < k ==> !calls[i].CallAdvance?
    ensures |trace| == |calls| + 1 == |records| + 1
    ensures var base, log := Reopened(t, grace), GrantEntries(a, g) + Logged(records, k);
            && AllReplayable(log, |base.state|)
            && Untouched(t, ReplayAll(base, log, floors)) && !Agrees(trace[k], ReplayAll(base, log, floors))
  {
    hide *;
    RecordedLengths(trace, calls, records);
    AcquireKeeps(t, a, g, trace[0]);
    RunIsOfAnother(trace, calls, records, k, t.epoch);
    RollingGrant(t, a, g, trace[0]);
    RolloverReplayable(t, a, g, trace, calls, records, k);
    FinishedReopens(t, grace);
    var base, log := Reopened(t, grace), GrantEntries(a, g) + Logged(records, k);
    forall i | 0 <= i < |log| ensures OfAnother(log[i], base.epoch) {
      assert log[i] in GrantEntries(a, g) || log[i] in Logged(records, k);
    }
    LogOfAnother(base, log, floors);
    UntouchedStays(t, base, ReplayAll(base, log, floors), trace[k]);
  }

  lemma RolloverReplayable(t: Table, a: AcquireCall, g: Grant, trace: seq<Table>, calls: seq<Call>, records: seq<seq<Entry>>,
                           k: nat)
    requires IsRecordedRun(trace, calls, records) && OneEpoch(trace) && k <= |calls| && k <= |records|
    requires Inv(t) && Acquires(t, a, g, trace[0]) && Inv(trace[0])
    ensures AllReplayable(GrantEntries(a, g) + Logged(records, k), |t.state|)
  {
    hide *;
    RecordedLengths(trace, calls, records);
    AcquireIsNext(t, a, g, trace[0]);
    NextShape(t, CallAcquire(a), trace[0]);
    LogIsReplayable(trace, calls, records, k);
    GrantReplayable(t, a, g, trace[0]);
    BothReplayable(GrantEntries(a, g), Logged(records, k), t, trace[0]);
  }

  lemma AcquireIsNext(t: Table, a: AcquireCall, g: Grant, t': Table)
    requires Acquires(t, a, g, t')
    ensures Next(t, CallAcquire(a), t')
  {
  }

  lemma BothReplayable(a: seq<Entry>, b: seq<Entry>, t: Table, t': Table)
    requires LogOk(a, t) && LogOk(b, t') && |t'.state| == |t.state|
    ensures AllReplayable(a + b, |t.state|)
  {
    hide Replayable;
    forall i | 0 <= i < |a + b| ensures Replayable((a + b)[i], |t.state|) {
      assert (a + b)[i] in a || (a + b)[i] in b;
    }
  }

  lemma FinishedReopens(t: Table, grace: real)
    requires Finished(t)
    ensures var base := Reopened(t, grace);
            base.leases == map[] && base.state == t.state && base.epoch == t.epoch && base.committed == t.committed
  {
    assert ExtendAll(t.leases, grace).Keys == {};
  }

  lemma UntouchedStays(t: Table, base: Table, r: Table, live: Table)
    requires Untouched(base, r) && base.state == t.state && base.epoch == t.epoch && base.committed == t.committed
    requires live.epoch != t.epoch
    ensures Untouched(t, r) && !Agrees(live, r)
  {
    hide SameLeases, SameCredits;
  }

  /** Killed between a snapshot and the truncation, in an epoch that an advance on record had begun, with
      another to be had: the log over the snapshot begins that next epoch, and every commit is gone. */
  lemma AdvanceIsRepeated(t: Table, trace: seq<Table>, calls: seq<Call>, records: seq<seq<Entry>>, k: nat, grace: real,
                          floors: nat -> real)
    requires IsRecordedRun(trace, calls, records) && OneEpoch(trace) && k <= |calls|
    requires Inv(t) && CanAdvance(t) && trace[0] == Advance(t) && CanAdvance(trace[0])
    requires forall i :: 0 <= i < k ==> !calls[i].CallAdvance?
    ensures |trace| == |calls| + 1 == |records| + 1
    ensures var base, log := Reopened(trace[k], grace), [AdvanceEntry] + Logged(records, k);
            && AllReplayable(log, |base.state|)
            && var r := ReplayAll(base, log, floors);
               r.epoch == trace[k].epoch + 1 && Where(r.state, Committed) == {} && r.leases == map[]
  {
    hide *;
    RecordedLengths(trace, calls, records);
    AdvanceKeeps(t);
    RunIsOfAnother(trace, calls, records, k, trace[0].epoch + 1);
    LogIsReplayable(trace, calls, records, k);
    var base, log := Reopened(trace[k], grace), Logged(records, k);
    ReopenedKeeps(trace[k], grace);
    AdvancedBase(trace[0], trace[k], grace, log);
    ReplayAlone(base, AdvanceEntry, floors);
    ReplayOn(base, [AdvanceEntry], log, floors);
    var blank := Replay(base, AdvanceEntry, floors(0));
    LogOfAnother(blank, log, Later(floors, 1));
    StillFresh(blank, ReplayAll(blank, log, Later(floors, 1)));
  }

  lemma AdvancedBase(t0: Table, t: Table, grace: real, log: seq<Entry>)
    requires CanAdvance(t0) && t.cfg == t0.cfg && t.epoch == t0.epoch && |t.state| == |t0.state| && LogOk(log, t0)
    requires forall e :: e in log ==> OfAnother(e, t0.epoch + 1)
    ensures var base := Reopened(t, grace);
            && Replayable(AdvanceEntry, |base.state|) && AllReplayable(log, |base.state|)
            && forall floor :: var blank := Replay(base, AdvanceEntry, floor);
               && blank.leases == map[] && blank.epoch == t.epoch + 1 && |blank.state| == |base.state|
               && Where(blank.state, Committed) == {} && forall i :: 0 <= i < |log| ==> OfAnother(log[i], blank.epoch)
  {
    forall i | 0 <= i < |log| ensures Replayable(log[i], |t.state|) && OfAnother(log[i], t0.epoch + 1) {
      assert log[i] in log;
    }
    hide Replayable, OfAnother;
  }

  lemma StillFresh(t: Table, r: Table)
    requires Untouched(t, r) && Where(t.state, Committed) == {}
    ensures Where(r.state, Committed) == {} && r.leases == map[] && r.epoch == t.epoch
  {
  }

  // --- at an input ----------------------------------------------------------------------

  /** One block, three epochs. */
  const ONE_BLOCK := Config(1, "", 3, 3, 1, 1, 1.0, true, 1, 30.0)

  /** The first epoch of it, finished by A. */
  function FullTable(): Table {
    NewTable(ONE_BLOCK, 0).(state := [Committed], committed := 1,
                            clusters := map["A" := NewRecord(0.0).(blocksCommitted := 1)])
  }

  lemma FullIsSound()
    ensures Inv(FullTable()) && Finished(FullTable()) && CanAdvance(FullTable()) && FullTable().epoch == 0
    ensures FullTable().cfg == ONE_BLOCK
  {
    var t := FullTable();
    assert Where(t.state, Committed) == {0} && Where(t.state, Quarantined) == {};
    SumUpdate(map[], "A", NewRecord(0.0).(blocksCommitted := 1));
    assert t.clusters == map[]["A" := NewRecord(0.0).(blocksCommitted := 1)];
  }

  /** An acquire rolls a finished epoch over and is granted something. */
  lemma RolledServed(t: Table) returns (g: Grant, t': Table)
    requires Inv(t) && Finished(t) && CanAdvance(t) && t.cfg.maxBlocks >= 1
    ensures Acquires(t, NEWCOMER, g, t') && t'.epoch == t.epoch + 1 && g.leases != []
  {
    var ready := Prepared(t, NEWCOMER);
    PreparedKeeps(t, NEWCOMER);
    NewcomerPrepared(t);
    RolledKeeps(ready);
    RolledIsFree(ready);
    assert Finished(ready) && CanAdvance(ready);
    assert Rolled(ready).epoch == t.epoch + 1;
    hide Inv, InvPending, Prepared, FreeBlocks, Finished, CanAdvance, Serves;
    t', g := ServeNewcomer(Rolled(ready));
    hide Rolled;
  }

  lemma RolledIsFree(t: Table)
    requires Inv(t) && Finished(t) && CanAdvance(t)
    ensures FreeBlocks(Rolled(t).state) != {} && Rolled(t).epoch == t.epoch + 1
  {
    assert 0 in FreeBlocks(Rolled(t).state);
  }

  /** A grant leaves a lease to commit. */
  lemma GrantedHolds(t: Table, a: AcquireCall, g: Grant, t': Table) returns (id: LeaseId)
    requires Inv(t) && Acquires(t, a, g, t') && g.leases != []
    ensures id in t'.leases && Inv(t')
  {
    hide *;
    AcquireKeeps(t, a, g, t');
    AcquireMoves(t, a, g, t');
    assert g.leases[0] in g.leases;
    id := g.leases[0].id;
  }

  /** With one block a commit commits it. */
  lemma OneCommitted(t: Table, t': Table)
    requires Inv(t') && t'.cfg == ONE_BLOCK && !(Where(t'.state, Committed) <= Where(t.state, Committed))
    ensures Where(t'.state, Committed) == {0}
  {
  }

  /** The block is committed in the first epoch; an acquire begins the second and its block is committed
      too; after a kill the table is back in the first. */
  lemma LostEpoch(grace: real, floors: nat -> real)
    returns (g: Grant, trace: seq<Table>, calls: seq<Call>, records: seq<seq<Entry>>)
    ensures |trace| == 2 && |calls| == |records| == 1 && IsRecordedRun(trace, calls, records)
    ensures Acquires(FullTable(), NEWCOMER, g, trace[0]) && trace[0].epoch == 1
    ensures trace[1].epoch == 1 && Where(trace[1].state, Committed) == {0}
    ensures var base, log := Reopened(FullTable(), grace), GrantEntries(NEWCOMER, g) + Logged(records, 1);
            && AllReplayable(log, |base.state|) && Untouched(FullTable(), ReplayAll(base, log, floors))
  {
    hide *;
    var t := FullTable();
    FullIsSound();
    SettingsOf();
    var t1;
    g, t1 := RolledServed(t);
    var id := GrantedHolds(t, NEWCOMER, g, t1);
    var call, t2, e := CommitAhead(t1, id);
    trace, calls, records := [t1, t2], [call], [[e]];
    OneCallRun(t1, call, t2, e);
    QuietSame(t1, call, t2);
    AcquireIsNext(t, NEWCOMER, g, t1);
    NextShape(t, CallAcquire(NEWCOMER), t1);
    RecordsIsNext(t1, call, t2, [e]);
    NextShape(t1, call, t2);
    NextKeeps(t1, call, t2);
    OneCommitted(t1, t2);
    RolloverIsLost(t, NEWCOMER, g, trace, calls, records, 1, grace, floors);
  }

  lemma SettingsOf()
    ensures ONE_BLOCK.maxBlocks == 1 && ConfigOk(ONE_BLOCK)
  {
  }

  lemma QuietSame(t: Table, call: Call, t': Table)
    requires Quiet(t, call, t')
    ensures t'.epoch == t.epoch && OneEpoch([t, t'])
  {
    hide StealFree, ReplaysAlike;
  }

  /** The first epoch is advanced, and the block committed in the second; the snapshot is written and the log
      not yet truncated: replayed over it, the log begins the third epoch, and nothing is committed. */
  lemma AdvancedTwice(grace: real, floors: nat -> real)
    returns (trace: seq<Table>, calls: seq<Call>, records: seq<seq<Entry>>)
    ensures |trace| == 4 && |calls| == |records| == 3 && IsRecordedRun(trace, calls, records)
    ensures trace[0] == NewTable(ONE_BLOCK, 0) && calls[0] == CallAdvance
    ensures trace[3].epoch == 1 && Where(trace[3].state, Committed) == {0}
    ensures var base, log := Reopened(trace[3], grace), Logged(records, 3);
            && AllReplayable(log, |base.state|)
            && var r := ReplayAll(base, log, floors); r.epoch == 2 && Where(r.state, Committed) == {}
  {
    hide *;
    SettingsOf();
    var t := NewTable(ONE_BLOCK, 0);
    NewTableIsSound(ONE_BLOCK, 0);
    var t1 := Advance(t);
    AdvanceKeeps(t);
    FirstAdvance();
    var t2, e2 := GrantAhead(t1);
    var g := AcquireRecords(t1, NEWCOMER, t2, [e2]);
    EntryHasLeases(NEWCOMER, g, e2);
    var id := GrantedHolds(t1, NEWCOMER, g, t2);
    var call, t3, e3 := CommitAhead(t2, id);
    QuietSame(t1, CallAcquire(NEWCOMER), t2);
    QuietSame(t2, call, t3);
    var tail, tailCalls, tailRecords := [t1, t2, t3], [CallAcquire(NEWCOMER), call], [[e2], [e3]];
    trace, calls, records := [t, t1, t2, t3], [CallAdvance, CallAcquire(NEWCOMER), call], [[AdvanceEntry], [e2], [e3]];
    AdvanceRecorded(t);
    RunOfThree(trace, calls, records);
    RunOfTwo(tail, tailCalls, tailRecords);
    LogsOf(records, tailRecords);
    AdvanceIsRepeated(t, tail, tailCalls, tailRecords, 2, grace, floors);
    RecordsIsNext(t1, CallAcquire(NEWCOMER), t2, [e2]);
    NextShape(t1, CallAcquire(NEWCOMER), t2);
    RecordsIsNext(t2, call, t3, [e3]);
    NextShape(t2, call, t3);
    NextKeeps(t2, call, t3);
    OneCommitted(t2, t3);
  }

  lemma FirstAdvance()
    ensures var t := NewTable(ONE_BLOCK, 0);
            && CanAdvance(t) && Advance(t).cfg == ONE_BLOCK && Advance(t).epoch == 1 && Advance(t).leases == map[]
            && !Finished(Advance(t)) && CanAdvance(Advance(t))
  {
  }

  lemma EntryHasLeases(a: AcquireCall, g: Grant, e: Entry)
    requires [e] == GrantEntries(a, g)
    ensures g.leases != []
  {
  }

  lemma AdvanceRecorded(t: Table)
    ensures Records(t, CallAdvance, Advance(t), [AdvanceEntry])
  {
    hide Advance;
  }

  lemma RunOfThree(trace: seq<Table>, calls: seq<Call>, records: seq<seq<Entry>>)
    requires |trace| == 4 && |calls| == |records| == 3
    requires Records(trace[0], calls[0], trace[1], records[0]) && Records(trace[1], calls[1], trace[2], records[1])
    requires Records(trace[2], calls[2], trace[3], records[2])
    ensures IsRecordedRun(trace, calls, records)
  {
    hide Records;
  }

  lemma RunOfTwo(trace: seq<Table>, calls: seq<Call>, records: seq<seq<Entry>>)
    requires |trace| == 3 && |calls| == |records| == 2
    requires Records(trace[0], calls[0], trace[1], records[0]) && Records(trace[1], calls[1], trace[2], records[1])
    requires trace[1].epoch == trace[0].epoch && trace[2].epoch == trace[1].epoch
    ensures IsRecordedRun(trace, calls, records) && OneEpoch(trace)
  {
    hide Records;
  }

  lemma LogsOf(records: seq<seq<Entry>>, tail: seq<seq<Entry>>)
    requires |records| == 3 && |tail| == 2 && records[0] == [AdvanceEntry] && records[1] == tail[0] && records[2] == tail[1]
    ensures Logged(records, 3) == [AdvanceEntry] + Logged(tail, 2)
  {
    assert Logged(records, 1) == [] + records[0] && Logged(tail, 1) == [] + tail[0];
    assert Logged(records, 2) == Logged(records, 1) + records[1];
  }
}
