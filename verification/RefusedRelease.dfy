/** A release that was refused is logged like any other, and replayed as if it had been authorised. */
module RefusedReleases {
  import opened Wrappers
  import opened LeaseModel
  import opened LeaseInvariant
  import opened LeaseRuns
  import opened Snapshots
  import opened Journals
  import opened Recovery
  import opened ExactRecovery
  import opened RunDoubleReplays
  import HarmlessSteals
  import StolenReplay

  const REGISTERED := RegisterEntry("A", "", 0, "x", 0.0)
  const REFUSED := ReleaseEntry("A", None, 0.0)
  const COMMIT_ALL := CommitEntry("A", StolenReplay.ID_A, 4, 0.0)

  /** A's process has given its name. */
  function Named(): Table {
    StolenReplay.AfterA().(clusters := map["A" := Announced(NewRecord(0.0), 0, "x", 0.0)])
  }

  ghost function Done(): Table {
    OrSame(Commit(Named(), "A", StolenReplay.ID_A, 4, 0.0), Named())
  }

  // --- the live run -----------------------------------------------------------------

  lemma NameRecords()
    ensures Records(StolenReplay.AfterA(), CallRegister("A", "", 0, "x", true, 0.0), Named(), [REGISTERED])
  {
    var t := StolenReplay.AfterA();
    assert t.clusters["A" := Announced(NewRecord(0.0), 0, "x", 0.0)] == Named().clusters;
    assert Register(t, "A", "", 0, "x", true, 0.0) == Ok(Named());
  }

  /** An earlier process of the cluster asks to give everything back: nothing happens, and it is logged. */
  lemma RefusedRecords()
    ensures ReleaseRefused(Named(), "A", None, "y")
    ensures Records(Named(), CallRelease("A", None, "y", true), Named(), [REFUSED])
  {
    ReclaimNothing(Named(), true);
    hide Reclaim;
  }

  lemma CommitAllRecords()
    ensures Records(Named(), CallCommit("A", StolenReplay.ID_A, 4, 0.0), Done(), [COMMIT_ALL])
    ensures Where(Done().state, Committed) == {0, 1, 2, 3}
  {
    hide Credited;
    var t := Named();
    assert t.leases[StolenReplay.ID_A] == StolenReplay.LEASE_A && ClampThrough(StolenReplay.LEASE_A, 4) == 4;
    var r := Commit(t, "A", StolenReplay.ID_A, 4, 0.0);
    assert r.Ok? && r.value.state == Filled(t.state, 0, 4, Committed);
    hide Commit;
    assert Filled(t.state, 0, 4, Committed) == [Committed, Committed, Committed, Committed];
    hide Filled;
    assert Done() == r.value;
    AllFour(Done());
  }

  // --- the recovered table --------------------------------------------------------------

  lemma ReplayName(t: Table, floor: real)
    requires StolenReplay.HeldByA(t)
    ensures Replayable(REGISTERED, 4) && StolenReplay.HeldByA(Replay(t, REGISTERED, floor))
    ensures Replay(t, REGISTERED, floor).leases == t.leases
  {
  }

  lemma ReplayRefused(t: Table, floor: real)
    requires StolenReplay.HeldByA(t)
    ensures Replayable(REFUSED, 4) && StolenReplay.ID_A !in Replay(t, REFUSED, floor).leases
    ensures |Replay(t, REFUSED, floor).state| == 4 && Where(Replay(t, REFUSED, floor).state, Committed) == {}
  {
    var ids := LeasesOf(t, "A");
    assert StolenReplay.ID_A in ids;
    assert Replay(t, REFUSED, floor) == Reclaim(t, ids, true);
    hide HeldBlocks, Poisoned, Blamed;
    var r := Reclaim(t, ids, true);
    forall p | 0 <= p < |r.state| ensures r.state[p] != Committed {
    }
  }

  lemma ReplayLate(t: Table, floor: real)
    requires StolenReplay.ID_A !in t.leases
    ensures Replayable(COMMIT_ALL, 4) && Replay(t, COMMIT_ALL, floor) == t
  {
  }

  lemma ReplayAllFour(t: Table, floors: nat -> real)
    requires t.state == [Unassigned, Unassigned, Unassigned, Unassigned] && t.epoch == 0 && t.leases == map[]
    ensures var log := [StolenReplay.LOG[0], REGISTERED, REFUSED] + [COMMIT_ALL];
            AllReplayable(log, 4) && Where(ReplayAll(t, log, floors).state, Committed) == {}
  {
    hide *;
    StolenReplay.LogHasThree();
    var log := [StolenReplay.LOG[0], REGISTERED, REFUSED];
    StolenReplay.ReplayA(t, floors(0));
    var t1 := Replay(t, log[0], floors(0));
    HeldSize(t1);
    ReplayName(t1, floors(1));
    var t2 := Replay(t1, log[1], floors(1));
    HeldSize(t2);
    ReplayRefused(t2, floors(2));
    StolenReplay.ReplayInTurn(t, log[0], log[1], log[2], floors);
    var t3 := ReplayAll(t, log, floors);
    ReplayLate(t3, Later(floors, 3)(0));
    HarmlessSteals.ReplayAlone(t3, COMMIT_ALL, Later(floors, 3));
    ReplayableAlone(COMMIT_ALL);
    ReplayOn(t, log, [COMMIT_ALL], floors);
  }

  lemma HeldSize(t: Table)
    requires StolenReplay.HeldByA(t)
    ensures |t.state| == 4
  {
  }

  /** A is granted all four blocks and has them committed, an earlier process of its having been refused in
      between: no commit comes back. */
  lemma RefusedReleaseLosesCommits(grace: real, floors: nat -> real)
    returns (trace: seq<Table>, calls: seq<Call>, records: seq<seq<Entry>>)
    ensures |trace| == 5 && |calls| == |records| == 4 && trace[0] == StolenReplay.Start() && Inv(trace[0])
    ensures IsRecordedRun(trace, calls, records) && OneEpoch(trace)
    ensures trace[2] == trace[3] && records[3] == [COMMIT_ALL] && Where(trace[4].state, Committed) == {0, 1, 2, 3}
    ensures var base, log := Reopened(trace[0], grace), Logged(records, 4);
            AllReplayable(log, |base.state|) && Where(ReplayAll(base, log, floors).state, Committed) == {}
  {
    hide *;
    StolenReplay.LogHasThree();
    StolenReplay.GrantRecords();
    NameRecords();
    RefusedRecords();
    CommitAllRecords();
    StolenReplay.StartIsSound(grace);
    DoneEpoch();
    trace := [StolenReplay.Start(), StolenReplay.AfterA(), Named(), Named(), Done()];
    calls := [CallAcquire(StolenReplay.ASK_A), CallRegister("A", "", 0, "x", true, 0.0), CallRelease("A", None, "y", true),
              CallCommit("A", StolenReplay.ID_A, 4, 0.0)];
    records := [[StolenReplay.LOG[0]], [REGISTERED], [REFUSED], [COMMIT_ALL]];
    FourCalls(trace, calls, records);
    LogOfFour(records);
    assert Logged(records, 4) == [StolenReplay.LOG[0], REGISTERED, REFUSED] + [COMMIT_ALL];
    AllAtOnce(trace);
    ReplayAllFour(Reopened(StolenReplay.Start(), grace), floors);
  }

  lemma DoneEpoch()
    ensures Done().epoch == 0 && Named().epoch == 0 && StolenReplay.Start().epoch == 0 && StolenReplay.AfterA().epoch == 0
  {
  }

  lemma AllAtOnce(trace: seq<Table>)
    requires |trace| == 5 && trace[0].epoch == trace[1].epoch == trace[2].epoch == trace[3].epoch == trace[4].epoch
    ensures OneEpoch(trace)
  {
    forall i | 0 <= i < |trace| - 1 ensures trace[i + 1].epoch == trace[i].epoch {
      assert i == 0 || i == 1 || i == 2 || i == 3;
    }
  }
}
