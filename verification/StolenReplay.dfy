/** A run that recovery gets wrong: the log records neither that a steal cut a lease short nor that
    a commit was clamped to the cut, and nobody commits what was cut off. */
module StolenReplay {
  import opened Intervals
  import opened LeaseModel
  import opened LeaseInvariant
  import opened LeaseSteps
  import opened LeaseRuns
  import opened Snapshots
  import opened Journals

  const SETTINGS := Config(4, "", 1, 3, 1, 4, 1.0, true, 1, 30.0)
  const ASK_A := AcquireCall("A", 4, 60.0, 1, 0.0, 0.0, 0.0, 0.0)
  const ASK_B := AcquireCall("B", 4, 60.0, 1, 0.0, 0.0, 0.0, 0.0)
  const ID_A := Issued(0, 0, 1)
  const ID_B := Issued(0, 2, 2)
  const LEASE_A := Lease(ID_A, "A", 0, 0, 4, 0, 0, 0.0, 60.0, 60.0)
  const LEASE_B := Lease(ID_B, "B", 0, 2, 4, 2, 2, 0.0, 60.0, 60.0)

  function Start(): Table {
    NewTable(SETTINGS, 0)
  }

  function AfterA(): Table {
    Start().(state := [Leased, Leased, Leased, Leased], leases := map[ID_A := LEASE_A],
             clusters := map["A" := NewRecord(0.0)], lastNumber := 1)
  }

  function AfterB(): Table {
    AfterA().(leases := map[ID_A := LEASE_A.(end := 2), ID_B := LEASE_B],
              clusters := map["A" := NewRecord(0.0), "B" := NewRecord(0.0)], lastNumber := 2)
  }

  // --- the live run -----------------------------------------------------------

  /** Nothing has expired, and the asker is put on record. */
  lemma Readied(t: Table, a: AcquireCall)
    requires t.cfg == SETTINGS && forall id :: id in t.leases ==> t.leases[id].deadline == 60.0
    requires a.cluster !in t.clusters && a.macroStep == 0.0 && a.rtt == 0.0 && a.now == 0.0
    ensures Prepared(t, a) == t.(clusters := t.clusters[a.cluster := NewRecord(0.0)])
  {
    assert Expired(t, 0.0) == {};
    NoneReclaimed(t, true);
    hide Reclaim;
  }

  /** An acquire that finds the epoch unfinished and settles on these spans. */
  lemma Answered(t: Table, a: AcquireCall, ready: Table, want: int, spans: seq<Interval>, t1: Table, g: Grant, t': Table)
    requires Prepared(t, a) == ready && a.cluster in ready.clusters && ready.cfg.numBlocks != 0 && !EpochDone(ready)
    requires GrantSize(ready, a.cluster, a.blocks, a.clock) == want
    requires Allots(ready, a.cluster, want, a.maxSpans, spans, t1) && spans != []
    requires t1.cfg == ready.cfg && a.cluster in t1.clusters
    requires var ttl := GrantedTtl(ready.cfg, ready.clusters[a.cluster], a.ttl);
             t' == Install(t1, a.cluster, spans, ttl, a.now)
             && g == Grant(Granted, ready.epoch, NewLeases(t1, a.cluster, spans, ttl, a.now))
    ensures Acquires(t, a, g, t')
  {
    hide Prepared, GrantSize, Allots, Install, NewLeases, GrantedTtl;
    assert Serves(ready, a, spans, t1, g, t');
    assert Rolled(ready) == ready;
  }

  lemma InstallSpan(t: Table, c: ClusterId, s: Interval, ttl: real, now: real)
    requires c in t.clusters && t.cfg.numBlocks != 0
    ensures Install(t, c, [s], ttl, now) == InstallOne(t, c, s, ttl, now)
    ensures NewLeases(t, c, [s], ttl, now) == [NewLease(t, c, s, t.lastNumber + 1, ttl, now)]
  {
    assert [s][..0] == [];
  }

  function ReadyA(): Table {
    Start().(clusters := map["A" := NewRecord(0.0)])
  }

  lemma SizeA()
    ensures GrantSize(ReadyA(), "A", 4, 0.0) == 4 && FreeBlocks(ReadyA().state) == Range(0, 4)
  {
    var t := ReadyA();
    assert FreeBlocks(t.state) == Range(0, 4);
    RangeSize(0, 4);
    assert ActiveClusters(SETTINGS, t.leases, t.clusters, 0.0) == {"A"};
  }

  lemma InstallA()
    ensures InstallOne(ReadyA(), "A", Interval(0, 4), 60.0, 0.0) == AfterA()
    ensures NewLease(ReadyA(), "A", Interval(0, 4), 1, 60.0, 0.0) == LEASE_A
  {
    assert Filled(Start().state, 0, 4, Leased) == [Leased, Leased, Leased, Leased];
  }

  lemma FirstGrant()
    ensures Acquires(Start(), ASK_A, Grant(Granted, 0, [LEASE_A]), AfterA())
  {
    var spans := [Interval(0, 4)];
    SizeA();
    OneSpan(4);
    InstallA();
    hide GrantSize, FreeBlocks, InstallOne, NewLease, Install, NewLeases, Range, Prepared, TakenNear;
    Readied(Start(), ASK_A);
    InstallSpan(ReadyA(), "A", Interval(0, 4), 60.0, 0.0);
    Answered(Start(), ASK_A, ReadyA(), 4, spans, ReadyA(), Grant(Granted, 0, [LEASE_A]), AfterA());
  }

  lemma OneSpan(n: int)
    requires n > 0
    ensures TakenNear(Range(0, n), 0, n, 1, [Interval(0, n)]) && Range(0, n) != {}
  {
    var spans := [Interval(0, n)];
    assert spans[..0] == [] && SpanTotal(spans) == n;
    assert 0 in Range(0, n);
    SomeRun(Range(0, n));
  }

  function ReadyB(): Table {
    AfterA().(clusters := map["A" := NewRecord(0.0), "B" := NewRecord(0.0)])
  }

  function Robbed(): Table {
    ReadyB().(leases := map[ID_A := LEASE_A.(end := 2)])
  }

  lemma SizeB()
    ensures GrantSize(ReadyB(), "B", 4, 0.0) == 4 && FreeBlocks(ReadyB().state) == {}
  {
  }

  lemma InstallB()
    ensures InstallOne(Robbed(), "B", Interval(2, 4), 60.0, 0.0) == AfterB()
    ensures NewLease(Robbed(), "B", Interval(2, 4), 2, 60.0, 0.0) == LEASE_B
  {
    assert Filled(Robbed().state, 2, 4, Leased) == Robbed().state;
  }

  lemma StealFromA()
    ensures StoleFrom(ReadyB(), "B", 4, [ID_A], [Interval(2, 4)], Robbed())
  {
    var spans, victims := [Interval(2, 4)], [ID_A];
    assert spans[..0] == [] && SpanTotal([]) == 0;
    assert Candidate(SETTINGS, ReadyB().leases, "B", ID_A);
  }

  lemma SecondGrant()
    ensures Acquires(AfterA(), ASK_B, Grant(Granted, 0, [LEASE_B]), AfterB())
  {
    var spans := [Interval(2, 4)];
    SizeB();
    StealFromA();
    InstallB();
    hide GrantSize, FreeBlocks, InstallOne, NewLease, Install, NewLeases, Prepared, StoleFrom;
    Readied(AfterA(), ASK_B);
    assert AfterA().clusters["B" := NewRecord(0.0)] == ReadyB().clusters;
    InstallSpan(Robbed(), "B", Interval(2, 4), 60.0, 0.0);
    Answered(AfterA(), ASK_B, ReadyB(), 4, spans, Robbed(), Grant(Granted, 0, [LEASE_B]), AfterB());
  }

  // --- the recovered table ----------------------------------------------------

  const LOG := [AcquireEntry("A", [LEASE_A], 0.0), AcquireEntry("B", [LEASE_B], 0.0), CommitEntry("A", ID_A, 4, 0.0)]

  ghost function LiveEnd(): Table {
    OrSame(Commit(AfterB(), "A", ID_A, 4, 0.0), AfterB())
  }

  /** A table in which A holds all four positions and nothing is committed. */
  ghost predicate HeldByA(t: Table) {
    t.state == [Leased, Leased, Leased, Leased] && t.epoch == 0 && ID_A in t.leases && ID_B !in t.leases
    && t.leases[ID_A].cluster == "A" && t.leases[ID_A].committedEnd == 0 && t.leases[ID_A].end == 4
  }

  lemma ReplayA(t: Table, floor: real)
    requires t.state == [Unassigned, Unassigned, Unassigned, Unassigned] && t.epoch == 0 && t.leases == map[]
    ensures Replayable(LOG[0], 4) && HeldByA(Replay(t, LOG[0], floor))
  {
    var t1 := Announce(t, "A", 0.0);
    assert t1.state == t.state && t1.leases == t.leases;
    assert [LEASE_A][..0] == [];
    assert ReplayGrant(t1, [LEASE_A], floor) == ReplayLease(t1, LEASE_A, floor);
    assert FirstFree(t1.state, 0, 4) == 0;
    assert FreeRunEnd(t1.state, 3, 4) == 4 && FreeRunEnd(t1.state, 1, 4) == 4 && FreeRunEnd(t1.state, 0, 4) == 4;
    assert Filled(t1.state, 0, 4, Leased) == [Leased, Leased, Leased, Leased];
  }

  lemma ReplayB(t: Table, floor: real)
    requires HeldByA(t)
    ensures Replayable(LOG[1], 4) && HeldByA(Replay(t, LOG[1], floor))
  {
    var t1 := Announce(t, "B", 0.0);
    assert t1.state == t.state && t1.leases == t.leases;
    assert [LEASE_B][..0] == [];
    assert ReplayGrant(t1, [LEASE_B], floor) == ReplayLease(t1, LEASE_B, floor);
    assert FirstFree(t1.state, 3, 4) == 4 && FirstFree(t1.state, 2, 4) == 4;
  }

  lemma ReplayCommit(t: Table, floor: real)
    requires HeldByA(t)
    ensures Where(Replay(t, LOG[2], floor).state, Committed) == {0, 1, 2, 3}
  {
    assert Filled(t.state, 0, 4, Committed) == [Committed, Committed, Committed, Committed];
  }

  lemma ReplayThree(t: Table, floors: nat -> real)
    requires t.state == [Unassigned, Unassigned, Unassigned, Unassigned] && t.epoch == 0 && t.leases == map[]
    ensures AllReplayable(LOG, 4)
    ensures Where(ReplayAll(t, LOG, floors).state, Committed) == {0, 1, 2, 3}
  {
    hide *;
    LogHasThree();
    ReplayA(t, floors(0));
    var t1 := Replay(t, LOG[0], floors(0));
    ReplayB(t1, floors(1));
    var t2 := Replay(t1, LOG[1], floors(1));
    ReplayCommit(t2, floors(2));
    AllGrants();
    ReplayInTurn(t, LOG[0], LOG[1], LOG[2], floors);
  }

  lemma AllGrants()
    ensures |LOG| == 3 && AllReplayable(LOG, 4) && Replayable(LOG[2], 4)
  {
  }

  lemma ReplayInTurn(t: Table, a: Entry, b: Entry, c: Entry, floors: nat -> real)
    requires Replayable(a, |t.state|) && Replayable(b, |t.state|) && Replayable(c, |t.state|)
    ensures AllReplayable([a, b, c], |t.state|)
    ensures ReplayAll(t, [a, b, c], floors) == Replay(Replay(Replay(t, a, floors(0)), b, floors(1)), c, floors(2))
  {
    hide Replay;
    assert [a, b, c][..2] == [a, b] && [a, b][..1] == [a] && [a][..0] == [];
    assert ReplayAll(t, [a], floors) == Replay(t, a, floors(0));
    assert ReplayAll(t, [a, b], floors) == Replay(Replay(t, a, floors(0)), b, floors(1));
  }

  lemma LiveCommits()
    ensures Records(AfterB(), CallCommit("A", ID_A, 4, 0.0), LiveEnd(), [LOG[2]])
    ensures Where(LiveEnd().state, Committed) == {0, 1}
  {
    assert Filled(AfterB().state, 0, 2, Committed) == [Committed, Committed, Leased, Leased];
  }

  lemma LogHasThree()
    ensures |LOG| == 3 && LOG == [LOG[0], LOG[1], LOG[2]]
  {
  }

  lemma LogOfThree(records: seq<seq<Entry>>)
    requires |records| == 3
    ensures Logged(records, 3) == records[0] + records[1] + records[2]
  {
    assert Logged(records, 1) == [] + records[0];
  }

  lemma GrantRecords()
    ensures Records(Start(), CallAcquire(ASK_A), AfterA(), [LOG[0]])
    ensures Records(AfterA(), CallAcquire(ASK_B), AfterB(), [LOG[1]])
  {
    hide Acquires, Start, AfterA, AfterB;
    FirstGrant();
    SecondGrant();
    assert GrantEntries(ASK_A, Grant(Granted, 0, [LEASE_A])) == [LOG[0]];
    assert GrantEntries(ASK_B, Grant(Granted, 0, [LEASE_B])) == [LOG[1]];
  }

  lemma StartIsSound(grace: real)
    ensures Inv(Start())
    ensures var base := Reopened(Start(), grace);
            base.state == [Unassigned, Unassigned, Unassigned, Unassigned] && base.leases == map[] && base.epoch == 0
  {
    NewTableIsSound(SETTINGS, 0);
  }

  lemma ThreeCalls(trace: seq<Table>, calls: seq<Call>, records: seq<seq<Entry>>)
    requires |trace| == 4 && |calls| == 3 && |records| == 3
    requires Records(trace[0], calls[0], trace[1], records[0]) && Records(trace[1], calls[1], trace[2], records[1])
    requires Records(trace[2], calls[2], trace[3], records[2])
    ensures IsRecordedRun(trace, calls, records)
  {
    hide Records;
  }

  /** The victim of a steal commits what it was first granted: the live table clamps the commit
      to what is left of the lease, and replay of the log does not. */
  lemma StealsBreakReplay(grace: real, floors: nat -> real)
    returns (trace: seq<Table>, calls: seq<Call>, records: seq<seq<Entry>>)
    ensures IsRecordedRun(trace, calls, records) && |calls| == 3 && trace[0] == Start() && Inv(trace[0])
    ensures Logged(records, 3) == LOG && AllReplayable(LOG, 4)
    ensures Where(trace[3].state, Committed) == {0, 1}
    ensures Where(ReplayAll(Reopened(Start(), grace), LOG, floors).state, Committed) == {0, 1, 2, 3}
  {
    hide *;
    LogHasThree();
    trace := [Start(), AfterA(), AfterB(), LiveEnd()];
    calls := [CallAcquire(ASK_A), CallAcquire(ASK_B), CallCommit("A", ID_A, 4, 0.0)];
    records := [[LOG[0]], [LOG[1]], [LOG[2]]];
    GrantRecords();
    LiveCommits();
    StartIsSound(grace);
    ThreeCalls(trace, calls, records);
    LogOfThree(records);
    ReplayThree(Reopened(Start(), grace), floors);
  }
}
