/** A coordinator that came back once and is killed again before its first snapshot: the log it goes on
    appending to is the one its predecessor left. */
module TornLogs {
  import opened Wrappers
  import opened Intervals
  import opened LeaseModel
  import opened LeaseInvariant
  import opened AcquireInvariant
  import opened LeaseSteps
  import opened LeaseRuns
  import opened DrainSafety
  import opened Snapshots
  import opened Journals
  import opened Recovery
  import opened ExactRecovery
  import opened JournalFiles
  import opened Coordinators
  import StolenReplay

  // --- a well-ended log is enough ----------------------------------------------

  lemma {:induction false} LoadedAlike(listed: seq<Lease>, f1: real, f2: real)
    ensures SameLeases(LoadLeases(listed, f1), LoadLeases(listed, f2))
  {
    if listed != [] {
      LoadedAlike(listed[..|listed| - 1], f1, f2);
    }
  }

  /** A file restored at two times. */
  lemma RestoredAlike(s: Snapshot, f1: real, f2: real)
    requires SoundFile(s) && Restored(s, f1).Some?
    ensures Restored(s, f2).Some? && Inv(Restored(s, f1).value) && Inv(Restored(s, f2).value)
    ensures Agrees(Restored(s, f1).value, Restored(s, f2).value)
  {
    hide Inv, Decode, LoadLeases;
    LoadedAlike(s.leases, f1, f2);
  }

  lemma {:induction false} LoadedOutlives(listed: seq<Lease>, floor: real)
    ensures forall id :: id in LoadLeases(listed, floor) ==> floor <= LoadLeases(listed, floor)[id].deadline
  {
    if listed != [] {
      LoadedOutlives(listed[..|listed| - 1], floor);
    }
  }

  /** Every lease of a restored table has the grace at least. */
  lemma RestoredOutlives(s: Snapshot, floor: real, journal: seq<Entry>)
    requires Restored(s, floor).Some? && Passed(journal, floor)
    ensures Outlives(Restored(s, floor).value, journal)
  {
    LoadedOutlives(s.leases, floor);
  }

  /** The file, and the log that lay beside it, give the same table again, later on. */
  lemma StartRecovered(s: Snapshot, found: LogFile, floor: real, start: Table, grace: real, floors: nat -> real)
    requires Grounded(s, found, true, floor, start)
    requires Passed(Readable(found), floor) && LateEnough(Readable(found), grace, floors)
    ensures Restored(s, grace).Some? && AllReplayable(Readable(found), |Restored(s, grace).value.state|)
    ensures var mid := ReplayAll(Restored(s, grace).value, Readable(found), floors);
            Inv(start) && Inv(mid) && Agrees(start, mid)
  {
    hide Inv, Restored, Agrees, Readable, SoundFile, Passed, Outlives;
    RestoredAlike(s, floor, grace);
    RestoredOutlives(s, floor, Readable(found));
    RestoredOutlives(s, grace, Readable(found));
    ReplaysAgree(Restored(s, floor).value, Restored(s, grace).value, Readable(found), Readable(found), Always(floor), floors);
  }

  ghost predicate Recovers(s: Snapshot, file: LogFile, grace: real, floors: nat -> real, t: Table) {
    && Restored(s, grace).Some?
    && AllReplayable(Readable(file), |Restored(s, grace).value.state|)
    && Agrees(t, ReplayAll(Restored(s, grace).value, Readable(file), floors))
  }

  /** A run that began with what snapshot and log gave, and whose entries can all be read. */
  lemma RunRecovered(s: Snapshot, past: seq<Entry>, trace: seq<Table>, calls: seq<Call>, records: seq<seq<Entry>>,
                     file: LogFile, grace: real, floors: nat -> real)
    requires IsRecordedRun(trace, calls, records) && Inv(trace[0]) && AllQuiet(trace, calls) && |calls| <= |records|
    requires Restored(s, grace).Some? && AllReplayable(past, |Restored(s, grace).value.state|)
    requires var mid := ReplayAll(Restored(s, grace).value, past, floors); Inv(mid) && Agrees(trace[0], mid)
    requires Readable(file) == past + Logged(records, |calls|)
    ensures |calls| < |trace| && Recovers(s, file, grace, floors, trace[|calls|])
  {
    hide *;
    RecordedLengths(trace, calls, records);
    var base, log := Restored(s, grace).value, Logged(records, |calls|);
    ReplayIsExact(trace, calls, records, |calls|, ReplayAll(base, past, floors), Later(floors, |past|));
    ReplayOn(base, past, log, floors);
    assert Recovers(s, file, grace, floors, trace[|calls|]) by { RecoversMeans(s, file, grace, floors, trace[|calls|]); }
  }

  lemma RecoversMeans(s: Snapshot, file: LogFile, grace: real, floors: nat -> real, t: Table)
    ensures Recovers(s, file, grace, floors, t) <==>
            && Restored(s, grace).Some?
            && AllReplayable(Readable(file), |Restored(s, grace).value.state|)
            && Agrees(t, ReplayAll(Restored(s, grace).value, Readable(file), floors))
  {
    hide Restored, Readable, Agrees, ReplayAll, AllReplayable;
  }

  // --- and necessary ------------------------------------------------------------

  /** What a table has that no later one of its epoch loses. */
  ghost predicate Behind(r: Table, t: Table) {
    r.lastNumber <= t.lastNumber && (r.epoch == t.epoch ==> Where(r.state, Committed) <= Where(t.state, Committed))
  }

  ghost predicate Ahead(t: Table, t': Table) {
    t'.epoch == t.epoch && (t.lastNumber < t'.lastNumber || !(Where(t'.state, Committed) <= Where(t.state, Committed)))
  }

  lemma BehindDisagrees(r: Table, t: Table, t': Table)
    requires Behind(r, t) && Ahead(t, t')
    ensures !Agrees(t', r)
  {
  }

  lemma {:induction false} GrantNumbers(t: Table, leases: seq<Lease>, floor: real)
    requires forall i :: 0 <= i < |leases| ==> Recordable(leases[i], |t.state|)
    ensures t.lastNumber <= ReplayGrant(t, leases, floor).lastNumber
  {
    if leases != [] {
      GrantNumbers(t, leases[..|leases| - 1], floor);
    }
  }

  lemma AnnounceNumbers(t: Table, c: ClusterId, now: real)
    ensures Announce(t, c, now).lastNumber == t.lastNumber && |Announce(t, c, now).state| == |t.state|
  {
  }

  /** No entry takes back a number or, within the epoch, a commit. */
  lemma ReplayBehind(t: Table, e: Entry, floor: real)
    requires Inv(t) && Replayable(e, |t.state|)
    ensures Behind(t, Replay(t, e, floor))
  {
    hide Inv, InvPending, Where, Announce, Moves;
    ReplayKeeps(t, e, floor);
    if e.AcquireEntry? {
      AnnounceNumbers(t, e.cluster, e.now);
      forall i | 0 <= i < |e.leases| ensures Recordable(e.leases[i], |t.state|) {
        assert e.leases[i] in e.leases;
      }
      GrantNumbers(Announce(t, e.cluster, e.now), e.leases, floor);
    } else {
      ReplayIsCall(t, e, floor);
      hide Replay, Next;
      CallMoves(t, CallOf(e), Replay(t, e, floor));
    }
  }

  /** What a log that is not well ended gives once something has been appended is behind what it gave
      before. */
  lemma ReadBehind(s: Snapshot, found: LogFile, floor: real, start: Table)
    requires Grounded(s, found, true, floor, start) && !WellEnded(found)
    ensures AllReplayable(ReadLines(found.lines), |Restored(s, floor).value.state|)
    ensures Inv(start) && Behind(ReplayAll(Restored(s, floor).value, ReadLines(found.lines), Always(floor)), start)
  {
    var base, seen := Restored(s, floor).value, ReadLines(found.lines);
    assert Inv(base);
    OpenedReads(found);
    hide Inv, InvPending, Restored, Readable, ReadLines, WellEnded, Behind, ReplayAll, AllReplayable;
    ReplayAllSound(base, Readable(found), Always(floor));
    if Readable(found) == seen {
      assert Behind(start, start) by { BehindSelf(start); }
    } else {
      var e := found.tail.entry;
      LastEntry(base, Readable(found), Always(floor));
      assert Readable(found)[..|seen|] == seen && Readable(found)[|seen|] == e;
      ReplayAllSound(base, seen, Always(floor));
      ReplayBehind(ReplayAll(base, seen, Always(floor)), e, floor);
    }
  }

  lemma BehindSelf(t: Table)
    ensures Behind(t, t)
  {
    hide Where;
  }

  // --- a call that would be missed ----------------------------------------------

  /** With a lease held there is a commit to make. */
  lemma CommitAhead(t: Table, id: LeaseId) returns (call: Call, t': Table, e: Entry)
    requires Inv(t) && id in t.leases
    ensures Records(t, call, t', [e]) && Quiet(t, call, t') && Ahead(t, t') && !call.CallAdvance?
    ensures !(Where(t'.state, Committed) <= Where(t.state, Committed))
  {
    var l := t.leases[id];
    call := CallCommit(l.cluster, id, l.end, 0.0);
    t' := OrSame(Commit(t, l.cluster, id, l.end, 0.0), t);
    e := CommitEntry(l.cluster, id, l.end, 0.0);
    assert LeaseOk(l, id, t.epoch, |t.state|, t.clusters.Keys, t.lastNumber);
    CommitShape(t, l.cluster, id, l.end, 0.0);
    hide Inv, InvPending, Commit;
    assert l.committedEnd in Where(t'.state, Committed) && l.committedEnd !in Where(t.state, Committed);
  }

  const NEWCOMER := AcquireCall("A", 1, 0.0, 1, 0.0, 0.0, 0.0, 0.0)

  lemma NewcomerPrepared(t: Table)
    requires t.leases == map[]
    ensures var ready := Prepared(t, NEWCOMER);
            ready.state == t.state && ready.leases == map[] && ready.epoch == t.epoch && ready.lastNumber == t.lastNumber
            && ready.committed == t.committed && ready.quarantined == t.quarantined
  {
    assert Expired(t, 0.0) == {};
    NoneReclaimed(t, true);
    hide Reclaim;
  }

  /** With nothing held and a block free there is a grant to make. */
  lemma GrantAhead(t: Table) returns (t': Table, e: Entry)
    requires Inv(t) && t.leases == map[] && !Finished(t) && t.cfg.maxBlocks >= 1
    ensures Records(t, CallAcquire(NEWCOMER), t', [e]) && Quiet(t, CallAcquire(NEWCOMER), t') && Ahead(t, t')
  {
    var ready := Prepared(t, NEWCOMER);
    PreparedKeeps(t, NEWCOMER);
    NewcomerPrepared(t);
    NothingHeld(t);
    assert Expired(t, 0.0) == {};
    assert !Finished(ready);
    hide Inv, InvPending, Prepared, FreeBlocks;
    var g;
    t', g := ServeNewcomer(ready);
    ServedNewcomer(t, g, t');
    e := AcquireEntry("A", g.leases, 0.0);
  }

  lemma ServeNewcomer(t: Table) returns (t': Table, g: Grant)
    requires Inv(t) && "A" in t.clusters && FreeBlocks(t.state) != {} && t.cfg.maxBlocks >= 1
    ensures t.cfg.numBlocks != 0 && exists spans, t1 :: Serves(t, NEWCOMER, spans, t1, g, t')
    ensures t'.epoch == t.epoch && t.lastNumber < t'.lastNumber && g.leases != []
  {
    var want := GrantSize(t, "A", 1, 0.0);
    GrantIsPositive(t, "A", 1, 0.0);
    NumbersIssued(t);
    hide Inv, InvPending, FreeBlocks, GrantSize;
    var s := SpanNear(FreeBlocks(t.state), t.clusters["A"].cursor, want);
    var ttl := GrantedTtl(t.cfg, t.clusters["A"], 0.0);
    t' := Install(t, "A", [s], ttl, 0.0);
    g := Grant(Granted, t.epoch, NewLeases(t, "A", [s], ttl, 0.0));
    assert |g.leases| == 1;
    hide Install, NewLeases, TakenNear, GrantedTtl;
    assert Serves(t, NEWCOMER, [s], t, g, t');
  }

  lemma ServedNewcomer(t: Table, g: Grant, t': Table)
    requires t.leases == map[] && t'.epoch == t.epoch && t.lastNumber < t'.lastNumber && g.leases != []
    requires "A" in Prepared(t, NEWCOMER).clusters && Prepared(t, NEWCOMER).cfg.numBlocks != 0
    requires !Finished(Prepared(t, NEWCOMER))
    requires exists spans, t1 :: Serves(Prepared(t, NEWCOMER), NEWCOMER, spans, t1, g, t')
    ensures Records(t, CallAcquire(NEWCOMER), t', [AcquireEntry("A", g.leases, 0.0)])
    ensures Quiet(t, CallAcquire(NEWCOMER), t') && Ahead(t, t')
  {
    assert Expired(t, 0.0) == {};
    hide Prepared, Serves, Finished, Where;
    assert Rolled(Prepared(t, NEWCOMER)) == Prepared(t, NEWCOMER) by { RolledStays(Prepared(t, NEWCOMER)); }
    assert Acquires(t, NEWCOMER, g, t');
  }

  lemma RolledStays(t: Table)
    requires !Finished(t)
    ensures Rolled(t) == t
  {
  }

  lemma SomethingToLose(t: Table) returns (call: Call, t': Table, e: Entry)
    requires Inv(t) && !Finished(t) && t.cfg.maxBlocks >= 1
    ensures Records(t, call, t', [e]) && Quiet(t, call, t') && Ahead(t, t')
  {
    if t.leases != map[] {
      var id :| id in t.leases;
      hide *;
      call, t', e := CommitAhead(t, id);
    } else {
      hide *;
      call := CallAcquire(NEWCOMER);
      t', e := GrantAhead(t);
    }
  }

  // --- exactly when nothing is lost ---------------------------------------------

  /** Whatever the reloaded coordinator serves, quietly, and wherever and whenever the next kill falls. */
  ghost predicate LosesNothing(s: Snapshot, found: LogFile, start: Table) {
    forall trace, calls, records, file, grace, floors ::
      IsRecordedRun(trace, calls, records) && trace[0] == start && AllQuiet(trace, calls)
      && Left(AppendAll(found, Logged(records, |calls|)), file) && LateEnough(Readable(found), grace, floors) ==>
        Recovers(s, file, grace, floors, trace[|calls|])
  }

  lemma OneCallRun(t: Table, call: Call, t': Table, e: Entry)
    requires Records(t, call, t', [e]) && Quiet(t, call, t')
    ensures IsRecordedRun([t, t'], [call], [[e]]) && AllQuiet([t, t'], [call]) && Logged([[e]], 1) == [e]
  {
    hide Records, Quiet;
    assert Logged([[e]], 0) == [];
  }

  /** The next entry appended to a log that is not well ended is lost at the next kill. */
  lemma NextIsLost(s: Snapshot, found: LogFile, floor: real, start: Table, call: Call, t': Table, e: Entry)
    requires Grounded(s, found, true, floor, start) && !WellEnded(found) && Passed(Readable(found), floor)
    requires Records(start, call, t', [e]) && Quiet(start, call, t') && Ahead(start, t')
    ensures !LosesNothing(s, found, start)
  {
    var trace, calls, records, file := [start, t'], [call], [[e]], AppendAll(found, [e]);
    hide Grounded, Records, Quiet, Ahead, Recovers, AppendAll, WellEnded, Inv, InvPending, Restored, Behind, Agrees, IsRecordedRun,
         AllQuiet, Readable, ReadLines, AllReplayable, ReplayAll, Logged, Passed;
    OneCallRun(start, call, t', e);
    ReadBehind(s, found, floor, start);
    TornReads(found, [e], file);
    RecoversMeans(s, file, floor, Always(floor), t');
    if Recovers(s, file, floor, Always(floor), t') {
      BehindDisagrees(ReplayAll(Restored(s, floor).value, ReadLines(found.lines), Always(floor)), start, t');
    }
    assert LateEnough(Readable(found), floor, Always(floor));
    assert trace[0] == start && trace[|calls|] == t' && Logged(records, |calls|) == [e];
  }

  lemma NothingLost(s: Snapshot, found: LogFile, floor: real, start: Table, trace: seq<Table>, calls: seq<Call>,
                    records: seq<seq<Entry>>, file: LogFile, grace: real, floors: nat -> real)
    requires Grounded(s, found, true, floor, start) && WellEnded(found)
    requires Passed(Readable(found), floor) && LateEnough(Readable(found), grace, floors)
    requires IsRecordedRun(trace, calls, records) && trace[0] == start && AllQuiet(trace, calls) && |calls| <= |records|
    requires Left(AppendAll(found, Logged(records, |calls|)), file)
    ensures |calls| < |trace| && Recovers(s, file, grace, floors, trace[|calls|])
  {
    hide *;
    StartRecovered(s, found, floor, start, grace, floors);
    WellEndedReads(found, Logged(records, |calls|), file);
    RunRecovered(s, Readable(found), trace, calls, records, file, grace, floors);
  }

  /** Loaded with an epoch still to finish, the coordinator may serve anything, quietly, and be killed
      again without loss exactly when the log it was loaded with was well ended. The clock is taken not to
      go back behind the reaps on record. */
  lemma LosesNothingExactly(s: Snapshot, found: LogFile, floor: real, start: Table)
    requires Grounded(s, found, true, floor, start) && Passed(Readable(found), floor)
    requires !Finished(start) && start.cfg.maxBlocks >= 1
    ensures LosesNothing(s, found, start) <==> WellEnded(found)
  {
    hide Grounded, Recovers, AppendAll, WellEnded, Inv, InvPending, Finished, Records, AllQuiet, Readable, Logged, Left, LateEnough;
    if WellEnded(found) {
      forall trace, calls, records, file, grace, floors |
        IsRecordedRun(trace, calls, records) && trace[0] == start && AllQuiet(trace, calls)
        && Left(AppendAll(found, Logged(records, |calls|)), file) && LateEnough(Readable(found), grace, floors)
        ensures Recovers(s, file, grace, floors, trace[|calls|])
      {
        NothingLost(s, found, floor, start, trace, calls, records, file, grace, floors);
      }
    } else {
      ReadBehind(s, found, floor, start);
      var call, t', e := SomethingToLose(start);
      NextIsLost(s, found, floor, start, call, t', e);
    }
  }

  // --- a commit that is lost ----------------------------------------------------

  /** Half an entry, and no line before it. */
  const TORN := LogFile([], Fragment)

  function AfterCommit4(): Table {
    StolenReplay.AfterA().(state := [Committed, Committed, Committed, Committed], committed := 4, leases := map[],
                           clusters := map["A" := Credited(NewRecord(0.0), 4, 0.0)])
  }

  lemma StartReloads(s: Snapshot, floor: real)
    requires IsSnapshot(StolenReplay.Start(), s)
    ensures Restored(s, floor) == Some(StolenReplay.Start()) && Inv(StolenReplay.Start())
    ensures Grounded(s, TORN, true, floor, StolenReplay.Start()) && Readable(TORN) == []
  {
    var t := StolenReplay.Start();
    NewTableIsSound(StolenReplay.SETTINGS, 0);
    SavedIsSound(t, s);
    assert Reopened(t, floor) == t;
    hide SoundFile, Inv, InvPending;
  }

  lemma GrantOfAll()
    ensures Records(StolenReplay.Start(), CallAcquire(StolenReplay.ASK_A), StolenReplay.AfterA(), [StolenReplay.LOG[0]])
    ensures Quiet(StolenReplay.Start(), CallAcquire(StolenReplay.ASK_A), StolenReplay.AfterA())
    ensures Inv(StolenReplay.Start()) && Inv(StolenReplay.AfterA())
  {
    hide *;
    StolenReplay.GrantRecords();
    StolenReplay.FirstGrant();
    NewTableIsSound(StolenReplay.SETTINGS, 0) by { StartMeans(); }
    StartMeans();
    AcquireKeeps(StolenReplay.Start(), StolenReplay.ASK_A, Grant(Granted, 0, [StolenReplay.LEASE_A]), StolenReplay.AfterA());
  }

  lemma StartMeans()
    ensures ConfigOk(StolenReplay.SETTINGS) && StolenReplay.SETTINGS.numBlocks >= 0
    ensures StolenReplay.Start() == NewTable(StolenReplay.SETTINGS, 0)
    ensures Quiet(StolenReplay.Start(), CallAcquire(StolenReplay.ASK_A), StolenReplay.AfterA())
  {
    assert Expired(StolenReplay.Start(), 0.0) == {};
  }

  lemma CommitOfAll()
    requires Inv(StolenReplay.AfterA())
    ensures Records(StolenReplay.AfterA(), CallCommit("A", StolenReplay.ID_A, 4, 0.0), AfterCommit4(), [StolenReplay.LOG[2]])
    ensures Quiet(StolenReplay.AfterA(), CallCommit("A", StolenReplay.ID_A, 4, 0.0), AfterCommit4())
    ensures Where(AfterCommit4().state, Committed) == {0, 1, 2, 3}
  {
    hide Inv, InvPending, Where;
    var t := StolenReplay.AfterA();
    assert Filled(t.state, 0, 4, Committed) == [Committed, Committed, Committed, Committed];
    assert t.leases - {StolenReplay.ID_A} == map[];
    assert t.clusters["A" := Credited(NewRecord(0.0), 4, 0.0)] == AfterCommit4().clusters;
    assert t.clusters["A"] == NewRecord(0.0) && StolenReplay.LEASE_A == t.leases[StolenReplay.ID_A];
    assert Commit(t, "A", StolenReplay.ID_A, 4, 0.0) == Ok(AfterCommit4());
    AllCommitted();
  }

  lemma AllCommitted()
    ensures Where(AfterCommit4().state, Committed) == {0, 1, 2, 3}
  {
  }

  /** Half an entry is left by the first kill; then all four blocks are granted and committed, and the
      second kill leaves nothing torn. No commit comes back. */
  lemma LostCommit(s: Snapshot, floor: real, grace: real, floors: nat -> real)
    returns (trace: seq<Table>, calls: seq<Call>, records: seq<seq<Entry>>)
    requires IsSnapshot(StolenReplay.Start(), s)
    ensures |trace| == 3 && |calls| == |records| == 2 && Grounded(s, TORN, true, floor, trace[0])
    ensures IsRecordedRun(trace, calls, records) && AllQuiet(trace, calls)
    ensures Where(trace[2].state, Committed) == {0, 1, 2, 3}
    ensures var file := AppendAll(TORN, Logged(records, 2));
            && file.tail.Ended? && Readable(file) == [] && Restored(s, grace).Some?
            && Where(ReplayAll(Restored(s, grace).value, Readable(file), floors).state, Committed) == {}
  {
    hide *;
    StolenReplay.LogHasThree();
    StartReloads(s, floor);
    StartReloads(s, grace);
    GrantOfAll();
    CommitOfAll();
    trace := [StolenReplay.Start(), StolenReplay.AfterA(), AfterCommit4()];
    calls := [CallAcquire(StolenReplay.ASK_A), CallCommit("A", StolenReplay.ID_A, 4, 0.0)];
    var e1, e2 := StolenReplay.LOG[0], StolenReplay.LOG[2];
    records := [[e1], [e2]];
    TwoCalls(trace, calls, records);
    TornIsNot();
    TornReads(TORN, Logged(records, 2), AppendAll(TORN, Logged(records, 2)));
    AppendedIsLost(TORN, Logged(records, 2));
    NothingLogged(StolenReplay.Start(), floors);
    NothingCommitted();
  }

  lemma TwoCalls(trace: seq<Table>, calls: seq<Call>, records: seq<seq<Entry>>)
    requires |trace| == 3 && |calls| == |records| == 2 && |records[0]| == 1
    requires Records(trace[0], calls[0], trace[1], records[0]) && Quiet(trace[0], calls[0], trace[1])
    requires Records(trace[1], calls[1], trace[2], records[1]) && Quiet(trace[1], calls[1], trace[2])
    ensures IsRecordedRun(trace, calls, records) && AllQuiet(trace, calls) && Logged(records, 2) != []
  {
    hide Records, Quiet;
    assert Logged(records, 1) == [] + records[0];
  }

  lemma TornIsNot()
    ensures !WellEnded(TORN) && ReadLines(TORN.lines) == [] && forall file, log :: file == log ==> Left(log, file)
  {
  }

  lemma NothingCommitted()
    ensures Where(StolenReplay.Start().state, Committed) == {}
  {
  }
}
