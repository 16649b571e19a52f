/** A lease table with a write-ahead log, snapshots, and a memory of recent grants. */
module Coordinators {
  import opened Wrappers
  import opened FreePool
  import opened LeaseModel
  import opened LeaseInvariant
  import opened LeaseTables
  import opened LeaseRuns
  import opened Snapshots
  import opened Journals
  import opened JournalFiles

  const GRANT_CACHE: nat := 256

  // --- remembered grants ------------------------------------------------------

  datatype Remembered = Remembered(cluster: ClusterId, request: string, grant: Grant)

  function Lookup(grants: seq<Remembered>, c: ClusterId, request: string): Option<Grant> {
    if grants == [] then None
    else if grants[0].cluster == c && grants[0].request == request then Some(grants[0].grant)
    else Lookup(grants[1..], c, request)
  }

  /** The newest entries, oldest first. */
  function Newest(grants: seq<Remembered>): seq<Remembered> {
    if |grants| > GRANT_CACHE then grants[|grants| - GRANT_CACHE..] else grants
  }

  ghost predicate OncePerRequest(grants: seq<Remembered>) {
    forall i, j :: 0 <= i < j < |grants| ==>
      !(grants[i].cluster == grants[j].cluster && grants[i].request == grants[j].request)
  }

  lemma {:induction false} LookupFinds(grants: seq<Remembered>, k: nat)
    requires OncePerRequest(grants) && k < |grants|
    ensures Lookup(grants, grants[k].cluster, grants[k].request) == Some(grants[k].grant)
  {
    if k > 0 {
      LookupFinds(grants[1..], k - 1);
    }
  }

  lemma {:induction false} LookupMisses(grants: seq<Remembered>, c: ClusterId, request: string)
    ensures Lookup(grants, c, request) == None <==>
            forall i :: 0 <= i < |grants| ==> !(grants[i].cluster == c && grants[i].request == request)
  {
    if grants != [] {
      LookupMisses(grants[1..], c, request);
      if Lookup(grants, c, request) == None {
        forall i | 0 <= i < |grants| ensures !(grants[i].cluster == c && grants[i].request == request) {
          if i > 0 { assert grants[i] == grants[1..][i - 1]; }
        }
      } else if !(grants[0].cluster == c && grants[0].request == request) {
        var i :| 0 <= i < |grants[1..]| && grants[1..][i].cluster == c && grants[1..][i].request == request;
        assert grants[i + 1] == grants[1..][i];
      }
    }
  }

  /** A grant is found again as long as fewer than GRANT_CACHE others have been remembered since. */
  lemma RetryFindsGrant(grants: seq<Remembered>, entry: Remembered, since: seq<Remembered>)
    requires OncePerRequest(Newest(grants + [entry] + since)) && |since| < GRANT_CACHE
    ensures Lookup(Newest(grants + [entry] + since), entry.cluster, entry.request) == Some(entry.grant)
  {
    var all := grants + [entry] + since;
    var kept := Newest(all);
    var k := |grants| - (|all| - |kept|);
    assert kept[k] == all[|grants|] == entry;
    LookupFinds(kept, k);
  }

  // --- what has been served since the snapshot --------------------------------

  datatype History = History(trace: seq<Table>, calls: seq<Call>, records: seq<seq<Entry>>)

  ghost predicate HistoryOk(h: History, t: Table) {
    && IsRecordedRun(h.trace, h.calls, h.records) && Inv(h.trace[0])
    && h.trace[|h.calls|] == t
  }

  ghost function Extend(h: History, call: Call, t: Table, entries: seq<Entry>): History {
    History(h.trace + [t], h.calls + [call], h.records + [entries])
  }

  ghost function LogOf(h: History): seq<Entry>
    requires |h.calls| <= |h.records|
  {
    Logged(h.records, |h.calls|)
  }

  lemma {:induction false} LoggedPrefix(records: seq<seq<Entry>>, more: seq<seq<Entry>>, k: nat)
    requires k <= |records|
    ensures Logged(records + more, k) == Logged(records, k)
  {
    if k > 0 {
      LoggedPrefix(records, more, k - 1);
    }
  }

  lemma HistoryExtends(h: History, t: Table, call: Call, t': Table, entries: seq<Entry>)
    requires HistoryOk(h, t) && Records(t, call, t', entries)
    ensures var h' := Extend(h, call, t', entries);
            && HistoryOk(h', t') && |h'.calls| <= |h'.records| && |h.calls| <= |h.records|
            && LogOf(h') == LogOf(h) + entries
            && |h.trace| > 0 && |h'.trace| > 0 && h'.trace[0] == h.trace[0]
  {
    hide Records, Inv;
    LoggedPrefix(h.records, [entries], |h.calls|);
    var h' := Extend(h, call, t', entries);
    forall i | 0 <= i < |h'.calls| ensures Records(h'.trace[i], h'.calls[i], h'.trace[i + 1], h'.records[i]) {
      if i < |h.calls| { assert Records(h.trace[i], h.calls[i], h.trace[i + 1], h.records[i]); }
    }
  }

  ghost function Begin(t: Table): History {
    History([t], [], [])
  }

  /** The run since the snapshot begins with the table it describes. */
  ghost predicate Anchored(t: Table, s: Snapshot) {
    IsSnapshot(t, s) && t.cfg == Normalised(t.cfg)
  }

  lemma Begun(t: Table)
    requires Inv(t)
    ensures HistoryOk(Begin(t), t) && LogOf(Begin(t)) == []
  {
  }

  // --- every call is recorded as it should be ---------------------------------

  lemma RegisterRecords(t: Table, c: ClusterId, digest: string, ranks: int, incarnation: string, now: real, t': Table)
    requires t' == OrSame(LeaseModel.Register(t, c, digest, ranks, incarnation, true, now), t)
    ensures c in t'.clusters || LeaseModel.Register(t, c, digest, ranks, incarnation, true, now).Err?
    ensures Records(t, CallRegister(c, digest, ranks, incarnation, true, now), t',
                    if LeaseModel.Register(t, c, digest, ranks, incarnation, true, now).Err? then []
                    else [RegisterEntry(c, digest, t'.clusters[c].ranks, t'.clusters[c].incarnation, now)])
  {
  }

  lemma RegisterFrame(t: Table, c: ClusterId, digest: string, ranks: int, incarnation: string, check: bool, now: real)
    ensures var r := LeaseModel.Register(t, c, digest, ranks, incarnation, check, now);
            r.Ok? ==> r.value == t.(clusters := r.value.clusters)
  {
  }

  /** A recorded grant about to be re-installed, its cluster on record. */
  ghost predicate Granting(t: Table, e: Entry) {
    && e.AcquireEntry? && Inv(t) && e.cluster in t.clusters
    && forall i :: 0 <= i < |e.leases| ==> Recordable(e.leases[i], |t.state|) && e.leases[i].cluster == e.cluster
  }

  lemma NothingReplayed(t: Table, e: Entry, floor: real)
    requires e.AcquireEntry? && Replayable(e, |t.state|) && Inv(t) && e.cluster in t.clusters
    ensures Granting(t, e) && ReplayGrant(t, e.leases[..0], floor) == t
  {
    forall i | 0 <= i < |e.leases| ensures Recordable(e.leases[i], |t.state|) && e.leases[i].cluster == e.cluster {
      assert e.leases[i] in e.leases;
    }
  }

  lemma NextReplayed(t: Table, e: Entry, k: nat, floor: real)
    requires Granting(t, e) && k < |e.leases|
    ensures Recordable(e.leases[k], |t.state|)
    ensures var before := ReplayGrant(t, e.leases[..k], floor);
            && ReplayGrant(t, e.leases[..k + 1], floor) == ReplayLease(before, e.leases[k], floor)
            && Inv(ReplayGrant(t, e.leases[..k + 1], floor))
  {
    assert e.leases[..k + 1][..k] == e.leases[..k];
    hide Inv, ReplayLease;
    ReplayGrantKeeps(t, e.leases[..k + 1], floor);
  }

  datatype LoadError = WrongBlocks | WrongDigest | NotCovered

  /** A file that rebuilds a sound table, if it rebuilds one at all, whatever the grace. */
  ghost predicate SoundFile(s: Snapshot) {
    forall floor :: Restored(s, floor).Some? ==> Inv(Restored(s, floor).value)
  }

  /** Such is any file a sound table was saved to. */
  lemma SavedIsSound(t: Table, s: Snapshot)
    requires Inv(t) && Anchored(t, s)
    ensures SoundFile(s) && forall floor :: Restored(s, floor) == Some(Reopened(t, floor))
  {
    hide Inv, InvPending, Restored, Reopened;
    forall floor ensures Restored(s, floor) == Some(Reopened(t, floor)) && Inv(Reopened(t, floor)) {
      RestoreUndoesSnapshot(t, s, floor);
      ReopenedKeeps(t, floor);
    }
  }

  /** Where a history began: with the table the file describes, or with what the file and the log
      that lay beside it gave when they were loaded. */
  ghost predicate Grounded(file: Snapshot, found: LogFile, reloaded: bool, floor: real, start: Table) {
    if reloaded then
      && SoundFile(file) && Restored(file, floor).Some?
      && AllReplayable(Readable(found), |Restored(file, floor).value.state|)
      && start == ReplayAll(Restored(file, floor).value, Readable(found), Always(floor))
    else found == NEW_LOG && Anchored(start, file)
  }

  function Unexpected(s: Snapshot, expectBlocks: Option<int>, expectDigest: string): Option<LoadError> {
    if expectBlocks.Some? && s.cfg.numBlocks != expectBlocks.value then Some(WrongBlocks)
    else if expectDigest != "" && s.cfg.digest != "" && s.cfg.digest != expectDigest then Some(WrongDigest)
    else if Restored(s, 0.0).None? then Some(NotCovered)
    else None
  }

  /** A snapshot is turned away for another number of blocks than is expected, then for another digest, then
      for runs that do not cover its block space, and for nothing else. */
  lemma TurnedAwayExactly(s: Snapshot, expectBlocks: Option<int>, expectDigest: string)
    ensures var r := Unexpected(s, expectBlocks, expectDigest);
            var blocks := expectBlocks.Some? && expectBlocks.value != s.cfg.numBlocks;
            var digest := expectDigest != "" && s.cfg.digest != "" && expectDigest != s.cfg.digest;
            var covered := s.cfg.numBlocks >= 1 && |Decode(s.runs)| == s.cfg.numBlocks;
            && (r == Some(WrongBlocks) <==> blocks)
            && (r == Some(WrongDigest) <==> !blocks && digest)
            && (r == Some(NotCovered) <==> !blocks && !digest && !covered)
            && (r == None <==> !blocks && !digest && covered)
  {
    hide Decode, LoadLeases;
  }

  lemma SoundFileRestores(s: Snapshot, floor: real)
    requires SoundFile(s)
    ensures Restored(s, floor).None? <==> Restored(s, 0.0).None?
    ensures Restored(s, floor).Some? ==>
      var t := Restored(s, floor).value; Inv(t) && t.cfg == Normalised(t.cfg) && |t.state| == s.cfg.numBlocks
  {
    hide Inv, InvPending, Decode;
  }

  /** One clock reading, plus grace, for the whole replay. */
  function Always(floor: real): nat -> real {
    _ => floor
  }

  lemma NoneRead(t: Table, lines: seq<Line>, floors: nat -> real)
    ensures [] + ReadLines(lines[0..]) == ReadLines(lines)
    ensures AllReplayable([], |t.state|) && ReplayAll(t, [], floors) == t
  {
    assert lines[0..] == lines;
  }

  lemma AllRead(lines: seq<Line>)
    ensures ReadLines(lines[|lines|..]) == []
  {
  }

  lemma NextRead(t: Table, lines: seq<Line>, k: nat, done: seq<Entry>, floors: nat -> real)
    requires k < |lines| && done + ReadLines(lines[k..]) == ReadLines(lines)
    requires AllReplayable(ReadLines(lines), |t.state|) && AllReplayable(done, |t.state|)
    ensures lines[k].Garbled? ==> done == ReadLines(lines)
    ensures lines[k].Blank? ==> done + ReadLines(lines[k + 1..]) == ReadLines(lines)
    ensures lines[k].Whole? ==>
      var e, longer := lines[k].entry, done + [lines[k].entry];
      && longer + ReadLines(lines[k + 1..]) == ReadLines(lines)
      && Replayable(e, |t.state|) && AllReplayable(longer, |t.state|)
      && ReplayAll(t, longer, floors) == Replay(ReplayAll(t, done, floors), e, floors(|done|))
  {
    hide Replay, ReplayAll, AllReplayable, Replayable;
    assert lines[k..][1..] == lines[k + 1..];
    if lines[k].Whole? {
      var e, longer := lines[k].entry, done + [lines[k].entry];
      assert longer + ReadLines(lines[k + 1..]) == ReadLines(lines);
      hide ReadLines;
      assert longer == ReadLines(lines)[..|longer|];
      NextInTurn(t, ReadLines(lines), longer, floors);
      assert longer[..|longer| - 1] == done;
    }
  }

  lemma NextInTurn(t: Table, journal: seq<Entry>, longer: seq<Entry>, floors: nat -> real)
    requires longer != [] && |longer| <= |journal| && longer == journal[..|longer|] && AllReplayable(journal, |t.state|)
    ensures var n := |longer| - 1;
            && AllReplayable(longer, |t.state|) && AllReplayable(longer[..n], |t.state|) && Replayable(longer[n], |t.state|)
            && ReplayAll(t, longer, floors) == Replay(ReplayAll(t, longer[..n], floors), longer[n], floors(n))
  {
    hide Replay;
  }

  lemma GrantRecords(t: Table, a: AcquireCall, g: Grant, t': Table)
    requires Acquires(t, a, g, t')
    ensures Records(t, CallAcquire(a), t', GrantEntries(a, g))
  {
    hide Acquires;
  }

  lemma HeartbeatRecords(t: Table, c: ClusterId, progress: map<LeaseId, int>, macroStep: real, rtt: real, ttl: real, now: real)
    ensures Records(t, CallHeartbeat(c, progress, macroStep, rtt, ttl, now),
                    LeaseModel.Heartbeat(t, c, progress, macroStep, rtt, ttl, now), [])
  {
    hide LeaseModel.Heartbeat;
  }

  lemma CommitRecords(t: Table, c: ClusterId, id: LeaseId, through: int, now: real)
    ensures var r := LeaseModel.Commit(t, c, id, through, now);
            Records(t, CallCommit(c, id, through, now), OrSame(r, t), if r.Err? then [] else [CommitEntry(c, id, through, now)])
  {
    hide LeaseModel.Commit;
  }

  lemma ReleaseRecords(t: Table, c: ClusterId, target: Option<LeaseId>, incarnation: string, counted: bool, now: real)
    ensures Records(t, CallRelease(c, target, incarnation, counted),
                    LeaseModel.Release(t, c, target, incarnation, counted), [ReleaseEntry(c, target, now)])
  {
    hide LeaseModel.Release;
  }

  lemma ReapRecords(t: Table, now: real, later: real)
    ensures Records(t, CallReap(now), LeaseModel.Reap(t, now), [])
    ensures |HeldBlocks(t, Expired(t, now))| != 0 ==> Records(t, CallReap(now), LeaseModel.Reap(t, now), [ReapEntry(later)])
  {
    hide LeaseModel.Reap, HeldBlocks, Expired;
  }

  lemma AdvanceRecords(t: Table)
    ensures Records(t, CallAdvance, LeaseModel.Advance(t), [AdvanceEntry])
  {
    hide LeaseModel.Advance;
  }

  lemma TableShape(table: LeaseTable)
    requires table.Valid()
    ensures table.cfg.numBlocks == table.state.Length >= 1
  {
  }

  lemma VerifyPasses(table: LeaseTable)
    requires table.Valid()
    ensures table.state.Length == table.cfg.numBlocks && Verified(table.Model(), table.free.total)
  {
    InvIsVerified(table.Model());
    assert table.free.Contents() == FreeBlocks(table.state[..]);
  }

  class Coordinator {
    const table: LeaseTable
    const durable: bool
    const snapshotInterval: real
    const verifyOnSnapshot: bool
    var grants: seq<Remembered>
    var log: LogFile                     // the file, as appended to
    var snapshotFile: Option<Snapshot>   // the one this process has written or loaded
    var lastSnapshot: real
    ghost var found: LogFile             // the log as it was opened
    ghost var reloaded: bool             // no snapshot written since a load
    ghost var floor: real                // the clock reading of that load, plus grace
    ghost var history: History

    ghost predicate Valid()
      reads this, table, table.state, table.free
    {
      && table.Valid()
      && HistoryOk(history, table.Model())
      && (durable ==> log == AppendAll(found, LogOf(history)))
      && OncePerRequest(grants) && |grants| <= GRANT_CACHE
      && table.cfg == Normalised(table.cfg)
      && (snapshotFile.Some? ==> Grounded(snapshotFile.value, found, reloaded, floor, history.trace[0]))
    }

    /** Opens the log for appending to whatever it already holds. */
    constructor (table: LeaseTable, durable: bool, interval: real, verify: bool, log: LogFile)
      requires table.Valid() && table.cfg == Normalised(table.cfg)
      ensures Valid() && this.table == table && this.durable == durable && history == Begin(table.Model())
      ensures this.log == log && found == log && grants == [] && snapshotFile == None
    {
      hide Inv, InvPending;
      this.table, this.durable, snapshotInterval, verifyOnSnapshot := table, durable, interval, verify;
      grants, this.log, snapshotFile, lastSnapshot := [], log, None, 0.0;
      found, reloaded, floor, history := log, false, 0.0, Begin(table.Model());
    }

    /** The call was served, and the log has what it should have. */
    twostate predicate Served(call: Call, entries: seq<Entry>)
      reads this, table, table.state, table.free
    {
      && Records(old(table.Model()), call, table.Model(), entries)
      && log == AppendAll(old(log), if durable then entries else [])
      && history == Extend(old(history), call, table.Model(), entries)
      && found == old(found) && reloaded == old(reloaded) && floor == old(floor)
      && snapshotFile == old(snapshotFile) && lastSnapshot == old(lastSnapshot)
    }

    method LogOp(e: Entry)
      modifies this`log
      ensures log == AppendAll(old(log), if durable then [e] else [])
    {
      if !durable {
        return;
      }
      AppendOne(log, e);
      log := Append(log, e);
    }

    // --- the calls of the protocol ----------------------------------------------

    method Register(c: ClusterId, digest: string, ranks: int, incarnation: string, now: real)
      returns (refused: Option<Refusal>, ghost entries: seq<Entry>)
      requires Valid()
      modifies this`log, this`history, table`clusters
      ensures Served(CallRegister(c, digest, ranks, incarnation, true, now), entries)
      ensures Valid()
      ensures refused.None? <==> LeaseModel.Register(old(table.Model()), c, digest, ranks, incarnation, true, now).Ok?
    {
      hide Inv, InvPending, HistoryOk, Records, FreeBlocks, Normalised, Anchored, IntervalSet.Valid, LeaseModel.Register, Logged;
      ghost var t := table.Model();
      refused := table.Register(c, digest, ranks, incarnation, true, now);
      RegisterFrame(t, c, digest, ranks, incarnation, true, now);
      RegisterRecords(t, c, digest, ranks, incarnation, now, table.Model());
      entries := [];
      if refused.None? {
        var record := table.clusters[c];
        var e := RegisterEntry(c, digest, record.ranks, record.incarnation, now);
        LogOp(e);
        entries := [e];
      }
      Follow(t, CallRegister(c, digest, ranks, incarnation, true, now), old(log), entries);
    }

    /** Grant a work vector, or repeat the grant already given to the same request. */
    method Acquire(request: string, a: AcquireCall) returns (g: Grant, ghost entries: seq<Entry>)
      requires Valid()
      modifies this`log, this`history, this`grants, table, table.state, table.free
      ensures Valid() && fresh(table.Repr() - old(table.Repr()))
      ensures var known := if request == "" then None else Lookup(old(grants), a.cluster, request);
              if known.Some? then
                g == known.value && grants == old(grants) && log == old(log) && table.Model() == old(table.Model())
              else
                && Acquires(old(table.Model()), a, g, table.Model())
                && Served(CallAcquire(a), entries) && entries == GrantEntries(a, g)
                && grants == if request != "" && g.leases != []
                             then Newest(old(grants) + [Remembered(a.cluster, request, g)]) else old(grants)
    {
      entries := [];
      hide Inv, InvPending, HistoryOk, Records, Acquires, LeaseTable.Pooled, Logged, Newest, OncePerRequest, Normalised, Anchored;
      if request != "" {
        var cached := Lookup(grants, a.cluster, request);
        if cached.Some? {
          return cached.value, [];
        }
      }
      g, entries := AcquireNew(a);
      if request != "" && g.leases != [] {
        Remember(Remembered(a.cluster, request, g));
      }
    }

    method AcquireNew(a: AcquireCall) returns (g: Grant, ghost entries: seq<Entry>)
      requires Valid()
      modifies this`log, this`history, table, table.state, table.free
      ensures Valid() && fresh(table.Repr() - old(table.Repr()))
      ensures Acquires(old(table.Model()), a, g, table.Model())
      ensures Served(CallAcquire(a), entries) && entries == GrantEntries(a, g)
    {
      hide Inv, InvPending, HistoryOk, Records, Acquires, LeaseTable.Pooled, Logged, OncePerRequest, Normalised, Anchored;
      ghost var t := table.Model();
      g := table.Acquire(a);
      GrantRecords(t, a, g, table.Model());
      if g.leases != [] {
        LogOp(AcquireEntry(a.cluster, g.leases, a.now));
      }
      entries := GrantEntries(a, g);
      Follow(t, CallAcquire(a), old(log), entries);
    }

    /** Remember a grant, forgetting the oldest beyond the limit. */
    method Remember(entry: Remembered)
      requires OncePerRequest(grants) && |grants| <= GRANT_CACHE && Lookup(grants, entry.cluster, entry.request) == None
      modifies this`grants
      ensures grants == Newest(old(grants) + [entry]) && OncePerRequest(grants) && |grants| <= GRANT_CACHE
    {
      LookupMisses(grants, entry.cluster, entry.request);
      grants := grants + [entry];
      while |grants| > GRANT_CACHE
        invariant OncePerRequest(grants) && |grants| <= GRANT_CACHE + 1
        invariant Newest(grants) == Newest(old(grants) + [entry])
      {
        grants := grants[1..];
      }
    }

    method Heartbeat(c: ClusterId, progress: map<LeaseId, int>, macroStep: real, rtt: real, ttl: real, now: real)
      returns (renewed: real, views: map<LeaseId, LeaseView>, epochComplete: bool, ghost entries: seq<Entry>)
      requires Valid()
      modifies this`history, table, table.state, table.free
      ensures Served(CallHeartbeat(c, progress, macroStep, rtt, ttl, now), entries)
      ensures Valid()
      ensures views == Views(table.leases, table.epoch, c, progress.Keys)
    {
      hide Inv, InvPending, HistoryOk, Records, LeaseTable.Pooled, Logged, OncePerRequest, Normalised, Anchored, LeaseModel.Heartbeat, Views, GrantedTtl;
      ghost var t := table.Model();
      renewed, views, epochComplete := table.Heartbeat(c, progress, macroStep, rtt, ttl, now);
      entries := [];
      HeartbeatRecords(t, c, progress, macroStep, rtt, ttl, now);
      Follow(t, CallHeartbeat(c, progress, macroStep, rtt, ttl, now), old(log), entries);
    }

    method Commit(c: ClusterId, id: LeaseId, through: int, now: real)
      returns (r: Result<CommitReply, Refusal>, ghost entries: seq<Entry>)
      requires Valid()
      modifies this`log, this`history, table, table.state
      ensures Served(CallCommit(c, id, through, now), entries)
      ensures Valid()
      ensures r.Ok? <==> entries != []
    {
      hide Inv, InvPending, HistoryOk, Records, LeaseTable.Pooled, Logged, OncePerRequest, Normalised, Anchored, LeaseModel.Commit, ReplyTo;
      ghost var t := table.Model();
      r := table.Commit(c, id, through, now);
      entries := [];
      CommitRecords(t, c, id, through, now);
      if r.Ok? {
        LogOp(CommitEntry(c, id, through, now));
        entries := [CommitEntry(c, id, through, now)];
      }
      Follow(t, CallCommit(c, id, through, now), old(log), entries);
    }

    method Release(c: ClusterId, target: Option<LeaseId>, incarnation: string, counted: bool, now: real)
      returns (blocks: int, ghost entries: seq<Entry>)
      requires Valid()
      modifies this`log, this`history, table, table.state, table.free
      ensures Served(CallRelease(c, target, incarnation, counted), entries)
      ensures Valid()
    {
      hide Inv, InvPending, HistoryOk, Records, LeaseTable.Pooled, Logged, OncePerRequest, Normalised, Anchored, LeaseModel.Release, HeldBlocks;
      ghost var t := table.Model();
      blocks := table.Release(c, target, incarnation, counted);
      LogOp(ReleaseEntry(c, target, now));
      entries := [ReleaseEntry(c, target, now)];
      ReleaseRecords(t, c, target, incarnation, counted, now);
      Follow(t, CallRelease(c, target, incarnation, counted), old(log), entries);
    }

    /** Reaps, and leaves no trace in the log. */
    method Status(now: real) returns (ghost entries: seq<Entry>)
      requires Valid()
      modifies this`history, table, table.state, table.free
      ensures Served(CallReap(now), entries) && entries == []
      ensures Valid()
    {
      hide Inv, InvPending, HistoryOk, Records, LeaseTable.Pooled, Logged, OncePerRequest, Normalised, Anchored, LeaseModel.Reap, HeldBlocks;
      ghost var t := table.Model();
      var reclaimed := table.Reap(now);
      entries := [];
      ReapRecords(t, now, now);
      Follow(t, CallReap(now), old(log), entries);
    }

    method Advance() returns (advanced: bool, ghost entries: seq<Entry>)
      requires Valid()
      modifies this`log, this`history, table
      ensures Valid() && fresh(table.Repr() - old(table.Repr()))
      ensures Served(CallAdvance, entries) && advanced == CanAdvance(old(table.Model()))
    {
      hide Inv, InvPending, HistoryOk, Records, LeaseTable.Pooled, Logged, OncePerRequest, Normalised, Anchored, LeaseModel.Advance, CanAdvance;
      TableShape(table);
      ghost var t := table.Model();
      advanced := table.AdvanceEpoch();
      LogOp(AdvanceEntry);
      entries := [AdvanceEntry];
      AdvanceRecords(t);
      Follow(t, CallAdvance, old(log), entries);
    }

    /** Background maintenance: reap what has expired and record that, then snapshot if it is time. */
    method Tick(now: real, later: real, later2: real) returns (ghost entries: seq<Entry>, saved: Option<bool>)
      requires Valid()
      modifies this, table, table.state, table.free
      ensures Valid() && saved.Some?
      ensures Records(old(table.Model()), CallReap(now), table.Model(), entries)
      ensures entries == if |HeldBlocks(old(table.Model()), Expired(old(table.Model()), now))| == 0 then [] else [ReapEntry(later)]
      ensures saved.value <==> durable && later2 - old(lastSnapshot) >= snapshotInterval
      ensures if saved.value then Saved(table.Model())
              else log == AppendAll(old(log), if durable then entries else []) && snapshotFile == old(snapshotFile)
    {
      hide Inv, InvPending, HistoryOk, Records, LeaseTable.Pooled, Logged, OncePerRequest, Normalised, Anchored, LeaseModel.Reap, HeldBlocks;
      ghost var t := table.Model();
      var reclaimed := table.Reap(now);
      entries := [];
      ReapRecords(t, now, later);
      if reclaimed != 0 {
        LogOp(ReapEntry(later));
        entries := [ReapEntry(later)];
      }
      Follow(t, CallReap(now), old(log), entries);
      saved := SaveSnapshot(false, later2);
    }

    // --- durability -------------------------------------------------------------

    /** The files describe the table and nothing more. */
    ghost predicate Saved(t: Table)
      reads this
    {
      && snapshotFile.Some? && IsSnapshot(t, snapshotFile.value)
      && log == found == NEW_LOG && !reloaded && history == Begin(t)
    }

    /** Write the full state and truncate the log, in that order. None stands for a failed check of
        the table, which never happens. */
    method SaveSnapshot(force: bool, now: real) returns (saved: Option<bool>)
      requires Valid()
      modifies this
      ensures Valid() && saved.Some? && grants == old(grants)
      ensures saved.value <==> durable && (force || now - old(lastSnapshot) >= snapshotInterval)
      ensures if saved.value then Saved(table.Model())
              else log == old(log) && snapshotFile == old(snapshotFile) && history == old(history) && found == old(found)
                   && reloaded == old(reloaded) && floor == old(floor)
    {
      hide Inv, InvPending, LeaseTable.Pooled, Logged, OncePerRequest, Normalised, HistoryOk, Verified, IsSnapshot;
      if !durable {
        return Some(false);
      }
      if !force && now - lastSnapshot < snapshotInterval {
        return Some(false);
      }
      if verifyOnSnapshot {
        VerifyPasses(table);
        var counts := table.Verify();
        if counts.None? {
          return None;
        }
      }
      WriteSnapshot();
      TruncateLog();
      Begun(table.Model());
      lastSnapshot := now;
      return Some(true);
    }

    /** A crash after this and before the truncation leaves a log that the snapshot contains. */
    method WriteSnapshot()
      requires Valid()
      modifies this`snapshotFile
      ensures snapshotFile.Some? && IsSnapshot(table.Model(), snapshotFile.value)
    {
      var s := table.Snapshot();
      snapshotFile := Some(s);
    }

    method TruncateLog()
      modifies this`log, this`found, this`reloaded, this`history
      ensures log == found == NEW_LOG && !reloaded && history == Begin(table.Model())
    {
      log := NEW_LOG;
      found, reloaded, history := NEW_LOG, false, Begin(table.Model());
    }

    /** Bring the history up to date. */
    ghost method Follow(t: Table, call: Call, before: LogFile, entries: seq<Entry>)
      requires Inv(t) && HistoryOk(history, t) && Records(t, call, table.Model(), entries)
      requires durable ==> before == AppendAll(found, LogOf(history))
      modifies this`history
      ensures Inv(table.Model()) && HistoryOk(history, table.Model())
      ensures history == Extend(old(history), call, table.Model(), entries)
      ensures |history.calls| <= |history.records| && (durable ==> AppendAll(before, entries) == AppendAll(found, LogOf(history)))
      ensures |old(history).trace| > 0 && |history.trace| > 0 && history.trace[0] == old(history).trace[0]
    {
      hide *;
      RecordsIsNext(t, call, table.Model(), entries);
      NextKeeps(t, call, table.Model());
      HistoryExtends(history, t, call, table.Model(), entries);
      AppendJoin(found, LogOf(history), entries);
      history := Extend(history, call, table.Model(), entries);
    }

    // --- coming back ------------------------------------------------------------

    /** A registration, authorised or to be repeated without asking. */
    method Announce(c: ClusterId, digest: string, ranks: int, incarnation: string, check: bool, now: real)
      requires table.Valid()
      modifies table`clusters
      ensures table.Pooled({})
      ensures table.Model() == OrSame(LeaseModel.Register(old(table.Model()), c, digest, ranks, incarnation, check, now), old(table.Model()))
    {
      hide Inv, InvPending, IntervalSet.Valid, FreeBlocks, LeaseModel.Register;
      ghost var t := table.Model();
      var refused := table.Register(c, digest, ranks, incarnation, check, now);
      RegisterFrame(t, c, digest, ranks, incarnation, check, now);
    }

    method ReplayGrant(e: Entry, floor: real)
      requires table.Valid() && e.AcquireEntry? && Replayable(e, table.state.Length)
      modifies table, table.state, table.free
      ensures table.Pooled({}) && table.Repr() == old(table.Repr())
      ensures table.Model() == Journals.Replay(old(table.Model()), e, floor)
    {
      hide Inv, InvPending, LeaseTable.Pooled, LeaseModel.Register, LeaseModel.ReplayLease, Journals.ReplayGrant;
      ghost var t := table.Model();
      AnnounceKeeps(t, e.cluster, e.now);
      Announce(e.cluster, "", 0, "", true, e.now);
      ghost var t1 := table.Model();
      assert t1 == Journals.Announce(t, e.cluster, e.now);
      var k := 0;
      NothingReplayed(t1, e, floor);
      while k < |e.leases|
        invariant 0 <= k <= |e.leases| && table.Repr() == old(table.Repr()) && table.Valid()
        invariant Granting(t1, e) && table.state.Length == |t1.state|
        invariant table.Model() == Journals.ReplayGrant(t1, e.leases[..k], floor)
      {
        NextReplayed(t1, e, k, floor);
        var installed := table.ReplayLease(e.leases[k], floor);
        k := k + 1;
      }
      assert e.leases[..k] == e.leases;
    }

    /** Re-apply one recorded entry. An entry the table refuses is skipped. */
    method Replay(e: Entry, floor: real)
      requires table.Valid() && Replayable(e, table.state.Length)
      modifies table, table.state, table.free
      ensures table.Valid() && fresh(table.Repr() - old(table.Repr()))
      ensures table.Model() == Journals.Replay(old(table.Model()), e, floor)
    {
      hide Inv, InvPending, LeaseTable.Pooled, Replayable, IntervalSet.Valid, FreeBlocks, LeaseModel.Register, LeaseModel.Commit,
           LeaseModel.Release, LeaseModel.Heartbeat, LeaseModel.Reap, LeaseModel.Advance, HeldBlocks, ReplyTo, Views, GrantedTtl;
      ReplayKeeps(table.Model(), e, floor);
      match e
      case RegisterEntry(c, digest, ranks, incarnation, now) => Announce(c, digest, ranks, incarnation, false, now);
      case AcquireEntry(c, leases, now) => ReplayGrant(e, floor);
      case CommitEntry(c, id, through, now) =>
        var r := table.Commit(c, id, through, now);
      case ReleaseEntry(c, target, now) =>
        var blocks := table.Release(c, target, "", true);
      case HeartbeatEntry(c, progress, ttl, now) =>
        var renewed, views, done := table.Heartbeat(c, progress, 0.0, 0.0, ttl, now);
      case ReapEntry(now) =>
        var reclaimed := table.Reap(now);
      case AdvanceEntry =>
        TableShape(table);
        var advanced := table.AdvanceEpoch();
    }

    /** Rebuild from a snapshot and the readable part of the log; nothing when there is no state. The
        log is left as it is, to be appended to. */
    static method Load(file: Option<Snapshot>, log: LogFile, expectBlocks: Option<int>, expectDigest: string, floor: real,
                       interval: real, verify: bool) returns (r: Result<Option<Coordinator>, LoadError>)
      requires file.Some? ==> SoundFile(file.value) && AllReplayable(Readable(log), file.value.cfg.numBlocks)
      ensures r == Ok(None) <==> file.None?
      ensures file.Some? ==>
        match Unexpected(file.value, expectBlocks, expectDigest)
        case Some(e) => r == Err(e)
        case None =>
          && r.Ok? && r.value.Some? && r.value.value.Valid() && fresh(r.value.value)
          && Restored(file.value, floor).Some?
          && AllReplayable(Readable(log), |Restored(file.value, floor).value.state|)
          && r.value.value.table.Model() == ReplayAll(Restored(file.value, floor).value, Readable(log), Always(floor))
          && r.value.value.Resumed(file, log, floor)
    {
      hide SoundFile, Restored, AllReplayable, ReplayAll, Readable, LeaseTable.Pooled, Inv, InvPending, Normalised;
      if file.None? {
        return Ok(None);
      }
      var s := file.value;
      if expectBlocks.Some? && s.cfg.numBlocks != expectBlocks.value {
        return Err(WrongBlocks);
      }
      if expectDigest != "" && s.cfg.digest != "" && s.cfg.digest != expectDigest {
        return Err(WrongDigest);
      }
      SoundFileRestores(s, floor);
      var restored := LeaseTable.Restore(s, floor);
      if restored.None? {
        return Err(NotCovered);
      }
      var table := restored.value;
      var c := new Coordinator(table, true, interval, verify, log);
      c.ReplayLog(log, floor);
      c.Resume(s, floor);
      return Ok(Some(c));
    }

    /** Replay up to the first line that is no entry. */
    method ReplayLog(log: LogFile, floor: real)
      requires table.Valid() && AllReplayable(Readable(log), table.state.Length)
      modifies table, table.state, table.free
      ensures table.Valid() && fresh(table.Repr() - old(table.Repr()))
      ensures table.Model() == ReplayAll(old(table.Model()), Readable(log), Always(floor))
    {
      hide Inv, InvPending, LeaseTable.Pooled, ReplayAll, ReadLines, Journals.Replay, AllReplayable;
      var lines := Written(log);
      ghost var t, done := table.Model(), [];
      NoneRead(t, lines, Always(floor));
      var k := 0;
      while k < |lines|
        invariant 0 <= k <= |lines| && table.Valid() && fresh(table.Repr() - old(table.Repr()))
        invariant done + ReadLines(lines[k..]) == ReadLines(lines)
        invariant AllReplayable(done, |t.state|) && table.state.Length == |t.state|
        invariant table.Model() == ReplayAll(t, done, Always(floor))
      {
        NextRead(t, lines, k, done, Always(floor));
        if lines[k].Garbled? {
          break;
        }
        if lines[k].Whole? {
          Replay(lines[k].entry, floor);
          done := done + [lines[k].entry];
        }
        k := k + 1;
      }
      if k == |lines| {
        AllRead(lines);
        assert done == ReadLines(lines);
      }
    }

    /** Just loaded: the files are on disk as they were, and the next history begins here. */
    ghost predicate Resumed(file: Option<Snapshot>, log: LogFile, floor: real)
      reads this, table, table.state, table.free
    {
      && durable && this.log == found == log && snapshotFile == file && reloaded && this.floor == floor
      && history == Begin(table.Model()) && grants == []
    }

    method Resume(s: Snapshot, floor: real)
      requires table.Valid() && table.cfg == Normalised(table.cfg) && grants == [] && durable && log == found
      requires Grounded(s, found, true, floor, table.Model())
      modifies this`snapshotFile, this`reloaded, this`floor, this`history
      ensures Valid() && Resumed(Some(s), log, floor)
    {
      hide Inv, InvPending, Grounded, LeaseTable.Pooled, Normalised;
      Begun(table.Model());
      snapshotFile := Some(s);
      reloaded, this.floor, history := true, floor, Begin(table.Model());
    }
  }
}
