/** The coordinator's own files, at any moment it may be killed, whether or not it was itself brought
    back from such files. */
module CrashRecovery {
  import opened Wrappers
  import opened LeaseModel
  import opened LeaseInvariant
  import opened LeaseRuns
  import opened Snapshots
  import opened Journals
  import opened Recovery
  import opened HarmlessSteals
  import opened ExactRecovery
  import opened JournalFiles
  import opened Coordinators
  import opened TornLogs
  import opened InOrderReplay
  import opened DoubleReplays
  import opened RunDoubleReplays

  /** What the log file holds after a kill: all of it, with part of the next entry, or short of its
      last newline. */
  ghost predicate KilledWith(c: Coordinator, file: LogFile)
    reads c
  {
    Left(c.log, file)
  }

  /** It has something to come back from. */
  ghost predicate OnDisk(c: Coordinator)
    reads c, c.table, c.table.state, c.table.free
  {
    c.Valid() && c.durable && c.snapshotFile.Some?
  }

  lemma Ground(c: Coordinator)
    requires OnDisk(c)
    ensures var h, s := c.history, c.snapshotFile.value;
            && |h.trace| == |h.calls| + 1 == |h.records| + 1 && IsRecordedRun(h.trace, h.calls, h.records)
            && Inv(h.trace[0]) && h.trace[|h.calls|] == c.table.Model()
            && Grounded(s, c.found, c.reloaded, c.floor, h.trace[0]) && c.log == AppendAll(c.found, Logged(h.records, |h.calls|))
  {
    hide Inv, Records;
  }

  /** The file of a coordinator rebuilds a sound table, whatever the grace. */
  lemma FileIsSound(c: Coordinator, grace: real)
    requires OnDisk(c)
    ensures var s := c.snapshotFile.value;
            && SoundFile(s) && Restored(s, grace).Some? && Inv(Restored(s, grace).value)
            && |Restored(s, grace).value.state| == s.cfg.numBlocks && Unexpected(s, None, "") == None
  {
    Ground(c);
    hide *;
    GroundedFile(c.snapshotFile.value, c.found, c.reloaded, c.floor, c.history.trace[0], grace);
  }

  lemma GroundedFile(s: Snapshot, found: LogFile, reloaded: bool, floor: real, start: Table, grace: real)
    requires Inv(start) && Grounded(s, found, reloaded, floor, start)
    ensures SoundFile(s) && Restored(s, grace).Some? && Inv(Restored(s, grace).value)
    ensures |Restored(s, grace).value.state| == s.cfg.numBlocks && Unexpected(s, None, "") == None
  {
    hide Inv, Restored, AllReplayable, Readable, ReplayAll, SoundFile, Anchored;
    if !reloaded {
      SavedIsSound(start, s);
    }
    SoundFileRestores(s, floor);
    SoundFileRestores(s, grace);
  }

  /** A snapshot of its own leaves nothing of the log it found. */
  lemma OwnSnapshot(c: Coordinator)
    requires OnDisk(c) && !c.reloaded
    ensures WellEnded(c.found) && Readable(c.found) == [] && forall clock :: Passed(Readable(c.found), clock)
  {
    Ground(c);
    assert c.found == NEW_LOG;
    hide *;
    NewLogIsEmpty();
  }

  lemma NewLogIsEmpty()
    ensures WellEnded(NEW_LOG) && Readable(NEW_LOG) == [] && forall clock :: Passed(Readable(NEW_LOG), clock)
  {
  }

  // --- nothing is lost ----------------------------------------------------------

  /** Where the history began comes back. */
  lemma StartAgrees(c: Coordinator, grace: real, floors: nat -> real)
    requires OnDisk(c) && (c.reloaded ==> Passed(Readable(c.found), c.floor)) && LateEnough(Readable(c.found), grace, floors)
    ensures var s := c.snapshotFile.value;
            && Restored(s, grace).Some? && AllReplayable(Readable(c.found), |Restored(s, grace).value.state|)
            && c.history.trace != []
            && var mid := ReplayAll(Restored(s, grace).value, Readable(c.found), floors);
               Inv(c.history.trace[0]) && Inv(mid) && Agrees(c.history.trace[0], mid)
  {
    Ground(c);
    var s, start := c.snapshotFile.value, c.history.trace[0];
    if c.reloaded {
      hide *;
      StartRecovered(s, c.found, c.floor, start, grace, floors);
    } else {
      OwnSnapshot(c);
      assert Anchored(start, s);
      hide *;
      SavedIsSound(start, s);
      ReopenedKeeps(start, grace);
      ReopenedAgrees(start, grace);
      NothingLogged(Reopened(start, grace), floors);
    }
  }

  /** No expiry, no steal, every release replayed alike: the coordinator that comes back agrees
      with the one that was killed, if the log was well ended when that one opened it or it has
      written a snapshot since. */
  lemma CrashLosesNothing(c: Coordinator, file: LogFile, grace: real, floors: nat -> real)
    requires OnDisk(c) && KilledWith(c, file) && AllQuiet(c.history.trace, c.history.calls)
    requires c.reloaded ==> WellEnded(c.found) && Passed(Readable(c.found), c.floor)
    requires LateEnough(Readable(c.found), grace, floors)
    ensures Recovers(c.snapshotFile.value, file, grace, floors, c.table.Model())
    ensures |c.history.calls| <= |c.history.records| && Readable(file) == Readable(c.found) + LogOf(c.history)
  {
    var h := c.history;
    Ground(c);
    if !c.reloaded { OwnSnapshot(c); }
    assert Left(c.log, file);
    assert LogOf(h) == Logged(h.records, |h.calls|);
    hide *;
    StartAgrees(c, grace, floors);
    WellEndedReads(c.found, Logged(h.records, |h.calls|), file);
    RunRecovered(c.snapshotFile.value, Readable(c.found), h.trace, h.calls, h.records, file, grace, floors);
  }

  /** A quiet run logs no reap. */
  lemma {:induction false} QuietLogReapsNothing(trace: seq<Table>, calls: seq<Call>, records: seq<seq<Entry>>, k: nat,
                                                clock: real)
    requires IsRecordedRun(trace, calls, records) && Inv(trace[0]) && AllQuiet(trace, calls) && k <= |calls|
    ensures k <= |records| && Passed(Logged(records, k), clock)
  {
    hide *;
    RecordedLengths(trace, calls, records);
    LogNext(records, k);
    if k == 0 {
      NonePassed(clock);
    } else {
      QuietLogReapsNothing(trace, calls, records, k - 1, clock);
      QuietStep(trace, calls, records, k - 1);
      QuietEntries(trace[k - 1], calls[k - 1], trace[k], records[k - 1], clock);
      JoinPassed(Logged(records, k - 1), records[k - 1], clock);
    }
  }

  lemma NonePassed(clock: real)
    ensures Passed([], clock)
  {
  }

  lemma JoinPassed(a: seq<Entry>, b: seq<Entry>, clock: real)
    requires Passed(a, clock) && Passed(b, clock)
    ensures Passed(a + b, clock)
  {
  }

  lemma QuietEntries(t: Table, call: Call, t': Table, entries: seq<Entry>, clock: real)
    requires Records(t, call, t', entries) && Quiet(t, call, t')
    ensures Passed(entries, clock)
  {
    hide Next, Register, Commit, Acquires, StealFree, ReplaysAlike;
    if call.CallReap? {
      assert HeldBlocks(t, {}) == {};
    }
  }

  /** Bring the killed coordinator back, later than anything it had found reaped: its file can be loaded,
      and the table agrees with the one that was lost. What the kill left of the log decides whether the
      next kill is as harmless. */
  method Reload(ghost c: Coordinator, s: Snapshot, file: LogFile, floor: real, interval: real, verify: bool)
    returns (c': Coordinator)
    requires OnDisk(c) && c.snapshotFile == Some(s) && KilledWith(c, file) && AllQuiet(c.history.trace, c.history.calls)
    requires c.reloaded ==> WellEnded(c.found) && Passed(Readable(c.found), c.floor)
    requires Passed(Readable(c.found), floor)
    ensures OnDisk(c') && fresh(c') && c'.Resumed(Some(s), file, floor)
    ensures Agrees(c.table.Model(), c'.table.Model())
    ensures Passed(Readable(c'.found), c'.floor) && (WellEnded(c'.found) <==> file.tail.Ended?)
  {
    hide *;
    FileIsSound(c, floor);
    AlwaysLate(Readable(c.found), floor);
    CrashLosesNothing(c, file, floor, Always(floor));
    RecoversMeans(s, file, floor, Always(floor), c.table.Model());
    FileLeft(c, file, floor);
    var r := Coordinator.Load(Some(s), file, None, "", floor, interval, verify);
    c' := r.value.value;
    ResumedOnDisk(c', s, file, floor);
  }

  lemma AlwaysLate(journal: seq<Entry>, floor: real)
    requires Passed(journal, floor)
    ensures LateEnough(journal, floor, Always(floor))
  {
    hide Passed;
  }

  lemma ResumedOnDisk(c: Coordinator, s: Snapshot, file: LogFile, floor: real)
    requires c.Valid() && c.Resumed(Some(s), file, floor)
    ensures OnDisk(c) && c.found == file && c.floor == floor
  {
  }

  lemma FileLeft(c: Coordinator, file: LogFile, floor: real)
    requires OnDisk(c) && KilledWith(c, file) && AllQuiet(c.history.trace, c.history.calls)
    requires (c.reloaded ==> WellEnded(c.found)) && Passed(Readable(c.found), floor)
    requires |c.history.calls| <= |c.history.records| && Readable(file) == Readable(c.found) + LogOf(c.history)
    ensures Passed(Readable(file), floor) && (WellEnded(file) <==> file.tail.Ended?)
  {
    var h := c.history;
    Ground(c);
    if !c.reloaded { OwnSnapshot(c); }
    assert Left(c.log, file);
    hide IsRecordedRun, Inv, AllQuiet, Readable, AppendAll, Coordinator.Valid, Grounded, Passed;
    QuietLogReapsNothing(h.trace, h.calls, h.records, |h.calls|, floor);
    JoinPassed(Readable(c.found), LogOf(h), floor);
    AppendedReads(c.found, Logged(h.records, |h.calls|));
  }

  // --- nothing is invented ------------------------------------------------------

  ghost predicate HarmlessSoFar(h: History) {
    |h.calls| < |h.trace| && OneEpoch(h.trace) && Harmless(h.trace, h.calls, |h.calls|)
  }

  /** What the log held when the run began is accounted for, and the file it is replayed onto is of the
      same epoch and knows no other leases. */
  ghost predicate Known(s: Snapshot, found: LogFile, seed: Ranges, start: Table) {
    && Accounted(Readable(found), seed, start)
    && forall grace :: Restored(s, grace).Some? ==> Footing(Restored(s, grace).value, [start], 0, seed)
  }

  /** So it is after a snapshot of one's own. */
  lemma OwnIsKnown(c: Coordinator)
    requires OnDisk(c) && !c.reloaded
    ensures c.history.trace != [] && Known(c.snapshotFile.value, c.found, map[], c.history.trace[0])
  {
    Ground(c);
    OwnSnapshot(c);
    var s, start := c.snapshotFile.value, c.history.trace[0];
    assert Anchored(start, s);
    hide Inv, InvPending, Restored, Reopened, Footing, Accounted, Readable, Coordinator.Valid;
    NoPast(start);
    SavedIsSound(start, s);
    forall grace ensures Footing(Restored(s, grace).value, [start], 0, map[]) {
      ReopenedFooting([start], 0, 0, grace);
    }
  }

  /** Anything that can be read after a kill was there when the log was opened or was appended since. */
  lemma LeftReads(found: LogFile, entries: seq<Entry>, file: LogFile)
    requires Left(AppendAll(found, entries), file)
    ensures Selection(Readable(file), Readable(found) + entries)
  {
    if WellEnded(found) {
      WellEndedReads(found, entries, file);
    } else {
      OpenedReads(found);
      if entries != [] {
        TornReads(found, entries, file);
      } else {
        ReadOn(found.lines, [Garbled]);
        if found.lines != [] {
          ReadLast(found.lines);
        }
      }
    }
  }

  lemma FootingOn(r: Table, trace: seq<Table>, k: nat, seed: Ranges)
    requires k < |trace| && Footing(r, [trace[0]], 0, seed)
    requires Where(trace[0].state, Committed) <= Where(trace[k].state, Committed)
    ensures Footing(r, trace, k, seed)
  {
    hide Inv, Where, Within, Narrower;
  }

  /** Expiries and harmless steals allowed: whatever comes back has no commit that had not been made,
      and no fewer than the snapshot. */
  lemma CrashInventsNothing(c: Coordinator, file: LogFile, seed: Ranges, grace: real, floors: nat -> real)
    requires OnDisk(c) && KilledWith(c, file) && HarmlessSoFar(c.history)
    requires Known(c.snapshotFile.value, c.found, seed, c.history.trace[0])
    ensures var base := Restored(c.snapshotFile.value, grace);
            && base.Some? && AllReplayable(Readable(file), |base.value.state|)
            && var r := ReplayAll(base.value, Readable(file), floors);
               Inv(r) && Where(base.value.state, Committed) <= Where(r.state, Committed)
                      <= Where(c.table.Model().state, Committed)
  {
    var h, s := c.history, c.snapshotFile.value;
    Ground(c);
    assert Left(c.log, file);
    FileIsSound(c, grace);
    KnownMeans(s, c.found, seed, h.trace[0], grace);
    HarmlessMeans(h);
    hide *;
    CommittedOverRun(h.trace, h.calls, h.records, 0, |h.calls|);
    FootingOn(Restored(s, grace).value, h.trace, |h.calls|, seed);
    LeftReads(c.found, Logged(h.records, |h.calls|), file);
    ReplayInventsNothing(h.trace, h.calls, h.records, |h.calls|, Readable(c.found), seed, Restored(s, grace).value,
                         Readable(file), floors);
  }

  lemma KnownMeans(s: Snapshot, found: LogFile, seed: Ranges, start: Table, grace: real)
    requires Known(s, found, seed, start) && Restored(s, grace).Some?
    ensures Accounted(Readable(found), seed, start) && Footing(Restored(s, grace).value, [start], 0, seed)
  {
    hide Accounted, Footing;
  }

  lemma HarmlessMeans(h: History)
    requires HarmlessSoFar(h)
    ensures |h.calls| < |h.trace| && OneEpoch(h.trace) && Harmless(h.trace, h.calls, |h.calls|)
  {
  }

  /** Killed between writing a snapshot and truncating the log: the whole log is replayed over a
      table that already contains it, and no commit is lost or made. */
  lemma CrashBeforeTruncation(c: Coordinator, file: LogFile, seed: Ranges, s: Snapshot, grace: real, floors: nat -> real)
    requires OnDisk(c) && KilledWith(c, file) && HarmlessSoFar(c.history) && IsSnapshot(c.table.Model(), s)
    requires c.history.trace != [] && Accounted(Readable(c.found), seed, c.history.trace[0])
    ensures var base := Restored(s, grace);
            && base.Some? && AllReplayable(Readable(file), |base.value.state|)
            && Where(ReplayAll(base.value, Readable(file), floors).state, Committed)
               == Where(c.table.Model().state, Committed)
  {
    var h := c.history;
    Ground(c);
    assert Left(c.log, file);
    hide *;
    HarmlessMeans(h);
    AnchoredNow(c, s);
    LeftReads(c.found, Logged(h.records, |h.calls|), file);
    OverItself(h.trace, h.calls, h.records, Readable(c.found), seed, s, Readable(file), grace, floors);
  }

  /** The log of a run, and what was in it before, over a snapshot of the run's last table. */
  lemma OverItself(trace: seq<Table>, calls: seq<Call>, records: seq<seq<Entry>>, past: seq<Entry>, seed: Ranges, s: Snapshot,
                   journal: seq<Entry>, grace: real, floors: nat -> real)
    requires |trace| == |calls| + 1 == |records| + 1 && IsRecordedRun(trace, calls, records) && Inv(trace[0])
    requires OneEpoch(trace) && Harmless(trace, calls, |calls|) && Accounted(past, seed, trace[0])
    requires Inv(trace[|calls|]) && Anchored(trace[|calls|], s) && Selection(journal, past + Logged(records, |calls|))
    ensures var base := Restored(s, grace);
            && base.Some? && AllReplayable(journal, |base.value.state|)
            && Where(ReplayAll(base.value, journal, floors).state, Committed) == Where(trace[|calls|].state, Committed)
  {
    hide *;
    var k := |calls|;
    SavedIsSound(trace[k], s);
    LogIsReplayable(trace, calls, records, k);
    CommittedOverRun(trace, calls, records, 0, k);
    ReopenedFooting(trace, k, k, grace);
    FootingSeeded(Reopened(trace[k], grace), trace, k, grace, seed);
    ReplayInventsNothing(trace, calls, records, k, past, seed, Reopened(trace[k], grace), journal, floors);
  }

  /** The same kill, without harmlessness: after a snapshot of its own and no release since, the coordinator
      comes back from the next one with exactly its commits if and only if no grant that the table no
      longer holds finds a free position, in its turn, that a logged commit of it goes past. */
  lemma CrashBeforeTruncationExactly(c: Coordinator, file: LogFile, s: Snapshot, grace: real, floors: nat -> real)
    requires OnDisk(c) && !c.reloaded && KilledWith(c, file) && OneEpoch(c.history.trace) && IsSnapshot(c.table.Model(), s)
    requires |c.history.calls| <= |c.history.records| && LateEnough(LogOf(c.history), grace, floors)
    requires forall e :: e in LogOf(c.history) ==> !e.ReleaseEntry?
    ensures var base := Restored(s, grace);
            && base.Some? && AllReplayable(Readable(file), |base.value.state|)
            && AllRecordable(Grants(Readable(file)), |base.value.state|)
            && var r := ReplayAll(base.value, Readable(file), floors);
               Where(r.state, Committed) == Where(c.table.Model().state, Committed) <==> !Spoiled(base.value, Readable(file))
  {
    var h := c.history;
    Ground(c);
    OwnSnapshot(c);
    assert Left(c.log, file) && LogOf(h) == Logged(h.records, |h.calls|);
    assert RunOfOneEpoch(h.trace, h.calls, h.records, |h.calls|);
    hide *;
    AnchoredNow(c, s);
    SavedIsSound(c.table.Model(), s);
    WellEndedReads(c.found, Logged(h.records, |h.calls|), file);
    assert Readable(file) == Logged(h.records, |h.calls|);
    RunDoubleReplayExactly(h.trace, h.calls, h.records, |h.calls|, grace, floors);
  }

  /** With releases since, as long as none names a lease of the snapshot: nothing loose, nothing changed. */
  lemma CrashWithNothingLoose(c: Coordinator, file: LogFile, s: Snapshot, grace: real, floors: nat -> real)
    requires OnDisk(c) && !c.reloaded && KilledWith(c, file) && OneEpoch(c.history.trace) && IsSnapshot(c.table.Model(), s)
    requires |c.history.calls| <= |c.history.records| && LateEnough(LogOf(c.history), grace, floors)
    requires forall e, id :: e in LogOf(c.history) && id in c.table.Model().leases ==>
      !GivesBack(e, c.table.Model().leases[id].cluster, id)
    requires !AnyLoose(Reopened(c.table.Model(), grace), LogOf(c.history))
    ensures var base := Restored(s, grace);
            && base.Some? && AllReplayable(Readable(file), |base.value.state|)
            && Where(ReplayAll(base.value, Readable(file), floors).state, Committed)
               == Where(c.table.Model().state, Committed)
  {
    var h := c.history;
    Ground(c);
    OwnSnapshot(c);
    assert Left(c.log, file) && LogOf(h) == Logged(h.records, |h.calls|);
    assert RunOfOneEpoch(h.trace, h.calls, h.records, |h.calls|);
    hide *;
    AnchoredNow(c, s);
    SavedIsSound(c.table.Model(), s);
    WellEndedReads(c.found, Logged(h.records, |h.calls|), file);
    assert Readable(file) == Logged(h.records, |h.calls|);
    RunNothingLoose(h.trace, h.calls, h.records, |h.calls|, grace, floors);
  }

  lemma AnchoredNow(c: Coordinator, s: Snapshot)
    requires OnDisk(c) && IsSnapshot(c.table.Model(), s)
    ensures Inv(c.table.Model()) && Anchored(c.table.Model(), s)
  {
    hide IsSnapshot, Inv, InvPending, Normalised, FreeBlocks, Grounded, HistoryOk;
  }

  /** The leases of a snapshot of the run are known from the run. */
  lemma FootingSeeded(r: Table, trace: seq<Table>, k: nat, grace: real, seed: Ranges)
    requires k < |trace| && r == Reopened(trace[k], grace) && Footing(r, trace, k, map[])
    ensures Footing(r, trace, k, seed)
  {
    hide Inv, Where, Within;
    assert Narrower(r.leases, trace[k].leases);
  }

  // --- from one life to the next ------------------------------------------------

  lemma {:induction false} QuietIsStealFree(trace: seq<Table>, calls: seq<Call>)
    requires AllQuiet(trace, calls) && |trace| == |calls| + 1
    ensures OneEpoch(trace) && NeverSteals(trace)
  {
    hide StealFree;
    forall i | 0 <= i < |trace| - 1 ensures trace[i + 1].epoch == trace[i].epoch && StealFree(trace[i], trace[i + 1]) {
      assert Quiet(trace[i], calls[i], trace[i + 1]);
    }
  }

  /** Without steals every lease still has the span it was granted. */
  lemma SpansKept(trace: seq<Table>, calls: seq<Call>, k: nat, ranges: Ranges)
    requires IsRun(trace, calls) && Inv(trace[0]) && NeverSteals(trace) && k < |trace|
    requires Seen(trace[..k + 1], ranges) && Bounded(ranges, trace[k].lastNumber)
    ensures Seeds(ranges, trace[k])
  {
    hide IsRun, Inv, InvPending, NeverSteals;
    forall id | id in ranges && id in trace[k].leases ensures SpanAt(trace[k], id, ranges[id]) {
      assert trace[..k + 1][k] == trace[k];
      assert SeenAt(trace[..k + 1], id, ranges[id]);
      var j :| 0 <= j < |trace[..k + 1]| && SpanAt(trace[..k + 1][j], id, ranges[id]);
      SameEnd(trace, calls, j, k, id);
    }
  }

  /** A table that agrees has the same spans, numbers and commits. */
  lemma AccountedAgain(past: seq<Entry>, seed: Ranges, t: Table, r: Table)
    requires Accounted(past, seed, t) && Agrees(t, r)
    ensures Accounted(past, seed, r)
  {
    forall id | id in seed && id in r.leases ensures SpanAt(r, id, seed[id]) {
      assert SpanAt(t, id, seed[id]) && SameLease(t.leases[id], r.leases[id]);
    }
  }

  lemma FootingAgain(base: Table, trace: seq<Table>, k: nat, seed: Ranges, ranges: Ranges, r: Table)
    requires k < |trace| && Footing(base, [trace[0]], 0, seed) && Agrees(trace[k], r)
    requires Widens(seed, ranges) && Within(trace[0].leases, ranges)
    requires trace[k].cfg == trace[0].cfg && trace[k].epoch == trace[0].epoch && |trace[k].state| == |trace[0].state|
    requires Where(trace[0].state, Committed) <= Where(trace[k].state, Committed)
    ensures Footing(base, [r], 0, ranges)
  {
    hide Inv, Where, SameLeases, SameCredits;
    FootingWithin(base, [trace[0]], 0, seed, ranges);
  }

  /** Everything known of a quiet life's files is known of the next one's: so no chain of quiet lives
      ever brings back a commit that was not made. */
  lemma QuietLifeIsKnown(c: Coordinator, file: LogFile, seed: Ranges, floor: real, c': Coordinator) returns (ranges: Ranges)
    requires OnDisk(c) && KilledWith(c, file) && AllQuiet(c.history.trace, c.history.calls)
    requires c.reloaded ==> WellEnded(c.found) && Passed(Readable(c.found), c.floor)
    requires Passed(Readable(c.found), floor)
    requires Known(c.snapshotFile.value, c.found, seed, c.history.trace[0])
    requires c'.Valid() && c'.Resumed(c.snapshotFile, file, floor) && Agrees(c.table.Model(), c'.table.Model())
    ensures c'.history.trace != [] && Known(c.snapshotFile.value, c'.found, ranges, c'.history.trace[0])
  {
    var h, s, k := c.history, c.snapshotFile.value, |c.history.calls|;
    var start := c'.table.Model();
    Ground(c);
    assert LogOf(h) == Logged(h.records, k);
    assert c'.history.trace == [start] && c'.found == file;
    hide *;
    FileIsSound(c, floor);
    KnownMeans(s, c.found, seed, h.trace[0], floor);
    AlwaysLate(Readable(c.found), floor);
    CrashLosesNothing(c, file, floor, Always(floor));
    QuietIsStealFree(h.trace, h.calls);
    RecordedRunIsRun(h.trace, h.calls, h.records);
    StealFreeIsHarmless(h.trace, h.calls, k);
    AccountedSeeds(Readable(c.found), seed, h.trace[0]);
    ranges := LogIsJustified(h.trace, h.calls, h.records, k, k, seed);
    SpansKept(h.trace, h.calls, k, ranges);
    LogIsReplayable(h.trace, h.calls, h.records, k);
    CommittedOverRun(h.trace, h.calls, h.records, 0, k);
    WholeLog(Readable(c.found), Logged(h.records, k));
    PastJustified(Readable(c.found), seed, h.trace[0], Logged(h.records, k), ranges, Where(h.trace[k].state, Committed), Readable(file));
    NowAccounted(Readable(file), ranges, h.trace[0], h.trace[k]);
    AccountedAgain(Readable(file), ranges, h.trace[k], start);
    forall grace | Restored(s, grace).Some? ensures Footing(Restored(s, grace).value, [start], 0, ranges) {
      KnownMeans(s, c.found, seed, h.trace[0], grace);
      FootingAgain(Restored(s, grace).value, h.trace, k, seed, ranges, start);
    }
    KnownIf(s, file, ranges, start);
  }

  lemma WholeLog(past: seq<Entry>, log: seq<Entry>)
    ensures Selection(past + log, past + log)
  {
  }

  lemma NowAccounted(past: seq<Entry>, seed: Ranges, t: Table, t': Table)
    requires LogOk(past, t) && Seeds(seed, t') && AllJustified(past, seed, Where(t'.state, Committed))
    requires t'.cfg == t.cfg && t'.epoch == t.epoch && |t'.state| == |t.state|
    ensures Accounted(past, seed, t')
  {
    hide Where;
  }

  lemma KnownIf(s: Snapshot, found: LogFile, seed: Ranges, start: Table)
    requires Accounted(Readable(found), seed, start)
    requires forall grace :: Restored(s, grace).Some? ==> Footing(Restored(s, grace).value, [start], 0, seed)
    ensures Known(s, found, seed, start)
  {
    hide Accounted, Footing;
  }
}
