/** Exactly when a run can be recovered without a commit it had not made. */
module HarmlessSteals {
  import opened Arithmetic
  import opened LeaseModel
  import opened LeaseInvariant
  import opened LeaseRuns
  import opened DrainSafety
  import opened Snapshots
  import opened Journals
  import opened Recovery

  // --- the converse of recovery -----------------------------------------------

  /** No snapshot of the run and no part of its log, replayed, has a commit the run had not made. */
  ghost predicate InventsNothing(trace: seq<Table>, records: seq<seq<Entry>>, k: nat)
    requires k < |trace| && k <= |records|
  {
    forall j, journal, grace, floors :: 0 <= j <= k && Selection(journal, Logged(records, k)) ==>
      ReplaysWithin(trace[j], journal, grace, floors, Where(trace[k].state, Committed))
  }

  ghost predicate ReplaysWithin(t: Table, journal: seq<Entry>, grace: real, floors: nat -> real, done: set<int>) {
    && AllReplayable(journal, |Reopened(t, grace).state|)
    && Where(ReplayAll(Reopened(t, grace), journal, floors).state, Committed) <= done
  }

  /** A lease that two moments of a run share only shrank between them. */
  lemma {:induction false} LeaseShrinks(trace: seq<Table>, calls: seq<Call>, j: nat, i: nat, id: LeaseId)
    requires IsRun(trace, calls) && Inv(trace[0]) && j <= i < |trace| && id in trace[j].leases
    ensures Inv(trace[j]) && trace[j].lastNumber <= trace[i].lastNumber
    ensures id in trace[i].leases ==> Evolved(trace[j].leases[id], trace[i].leases[id])
    decreases i
  {
    hide *;
    RunLength(trace, calls);
    RunIsSound(trace, calls, j);
    NumbersIssued(trace[j]);
    if j == i {
      SameEvolved(trace[i].leases[id]);
    } else {
      LeaseShrinks(trace, calls, j, i - 1, id);
      StepOf(trace, calls, i - 1);
      RunIsSound(trace, calls, i - 1);
      CallMoves(trace[i - 1], calls[i - 1], trace[i]);
      ShrinksOn(trace[j], trace[i - 1], calls[i - 1], trace[i], id);
    }
  }

  ghost predicate Evolved(l: Lease, l': Lease) {
    l'.cluster == l.cluster && l'.start == l.start && l'.end <= l.end && l.committedEnd <= l'.committedEnd
  }

  lemma RunLength(trace: seq<Table>, calls: seq<Call>)
    requires IsRun(trace, calls)
    ensures |trace| == |calls| + 1
  {
  }

  lemma SameEvolved(l: Lease)
    ensures Evolved(l, l)
  {
  }

  lemma ShrinksOn(t: Table, t1: Table, call: Call, t2: Table, id: LeaseId)
    requires id in t.leases && NumberOf(id) <= t.lastNumber <= t1.lastNumber
    requires AllMove(t1, call, t2) && NewIds(t1, t2)
    requires id in t1.leases ==> Evolved(t.leases[id], t1.leases[id])
    ensures t.lastNumber <= t2.lastNumber && (id in t2.leases ==> Evolved(t.leases[id], t2.leases[id]))
  {
    if id in t2.leases {
      assert id in t1.leases && Moves(call, id, t1.leases[id], t2.leases[id]);
    }
  }

  /** The entry of a clamped commit, replayed alone onto the lease as it was before it was cut. */
  lemma CutReplayed(t: Table, call: Call, earlier: Table, grace: real, floors: nat -> real, p: int)
    requires Inv(t) && Inv(earlier) && Accepted(t, call) && call.lease in earlier.leases
    requires Evolved(earlier.leases[call.lease], t.leases[call.lease])
    requires t.leases[call.lease].end <= p < Min(call.through, earlier.leases[call.lease].end)
    ensures var journal := [CommitEntry(call.cluster, call.lease, call.through, call.now)];
            && AllReplayable(journal, |Reopened(earlier, grace).state|)
            && p in Where(ReplayAll(Reopened(earlier, grace), journal, floors).state, Committed)
  {
    var id, base := call.lease, Reopened(earlier, grace);
    var e := CommitEntry(call.cluster, id, call.through, call.now);
    assert t.leases[id].committedEnd <= t.leases[id].end by {
      assert LeaseOk(t.leases[id], id, t.epoch, |t.state|, t.clusters.Keys, t.lastNumber);
    }
    hide Inv, InvPending;
    ReopenedKeeps(earlier, grace);
    hide Reopened;
    CommitFills(base, e, floors(0), p);
    ReplayAlone(base, e, floors);
  }

  lemma ReplayAlone(t: Table, e: Entry, floors: nat -> real)
    requires Replayable(e, |t.state|)
    ensures AllReplayable([e], |t.state|) && ReplayAll(t, [e], floors) == Replay(t, e, floors(0))
  {
    hide Replay;
    assert [e][..0] == [] && ReplayAll(t, [], floors) == t;
  }

  lemma CommitFills(t: Table, e: Entry, floor: real, p: int)
    requires Inv(t) && e.CommitEntry? && e.lease in t.leases && t.leases[e.lease].cluster == e.cluster
    requires t.leases[e.lease].committedEnd <= p < Min(e.through, t.leases[e.lease].end)
    ensures Replayable(e, |t.state|) && p in Where(Replay(t, e, floor).state, Committed)
  {
    hide Inv, InvPending, Commit;
    CommitShape(t, e.cluster, e.lease, e.through, e.now);
  }

  /** An accepted commit is in the log. */
  lemma {:induction false} CommitLogged(trace: seq<Table>, calls: seq<Call>, records: seq<seq<Entry>>, i: nat, k: nat)
    requires IsRecordedRun(trace, calls, records) && i < k <= |calls| && k <= |records| && i < |trace|
    requires Accepted(trace[i], calls[i])
    ensures CommitEntry(calls[i].cluster, calls[i].lease, calls[i].through, calls[i].now) in Logged(records, k)
    decreases k
  {
    hide *;
    LogNext(records, k);
    if i < k - 1 {
      CommitLogged(trace, calls, records, i, k - 1);
    } else {
      AcceptedRecords(trace, calls, records, i);
    }
  }

  lemma AcceptedRecords(trace: seq<Table>, calls: seq<Call>, records: seq<seq<Entry>>, i: nat)
    requires IsRecordedRun(trace, calls, records) && i < |calls| && i < |trace| && Accepted(trace[i], calls[i])
    ensures i < |records| && records[i] == [CommitEntry(calls[i].cluster, calls[i].lease, calls[i].through, calls[i].now)]
  {
    assert Records(trace[i], calls[i], trace[i + 1], records[i]);
  }

  lemma NotDone(t: Table, call: Call, earlier: Table, done: set<int>) returns (p: int)
    requires Accepted(t, call) && call.lease in earlier.leases && !CutIsDone(t, call, earlier, done)
    ensures t.leases[call.lease].end <= p < Min(call.through, earlier.leases[call.lease].end) && p !in done
  {
    p :| t.leases[call.lease].end <= p < Min(call.through, earlier.leases[call.lease].end) && p !in done;
  }

  /** One clamped commit that leaves part of the cut uncommitted is enough to spoil recovery. */
  lemma HarmIsReplayed(trace: seq<Table>, calls: seq<Call>, records: seq<seq<Entry>>, i: nat, j: nat, k: nat)
    requires IsRecordedRun(trace, calls, records) && Inv(trace[0]) && i < k <= |calls| < |trace| && j <= k <= |records|
    requires Accepted(trace[i], calls[i]) && calls[i].lease in trace[j].leases
    requires !CutIsDone(trace[i], calls[i], trace[j], Where(trace[k].state, Committed))
    ensures !InventsNothing(trace, records, k)
  {
    assert calls[i].CallCommit? && calls[i].lease in trace[i].leases;
    hide *;
    var done, id := Where(trace[k].state, Committed), calls[i].lease;
    var p := NotDone(trace[i], calls[i], trace[j], done);
    RecordedRunIsRun(trace, calls, records);
    RunIsSound(trace, calls, i);
    RunIsSound(trace, calls, j);
    if j <= i {
      LeaseShrinks(trace, calls, j, i, id);
    } else {
      LeaseShrinks(trace, calls, i, j, id);
      EvolvedEnd(trace[i].leases[id], trace[j].leases[id], calls[i].through, p);
    }
    var journal := [CommitEntry(calls[i].cluster, id, calls[i].through, calls[i].now)];
    CommitLogged(trace, calls, records, i, k);
    CutReplayed(trace[i], calls[i], trace[j], 0.0, _ => 0.0, p);
    Disproved(trace, records, j, k, journal, 0.0, _ => 0.0, p);
  }

  lemma EvolvedStart(l: Lease, l': Lease)
    requires Evolved(l, l')
    ensures l'.start == l.start
  {
  }

  lemma EvolvedEnd(l: Lease, l': Lease, through: int, p: int)
    requires Evolved(l, l')
    ensures !(l.end <= p < Min(through, l'.end))
  {
  }

  lemma Disproved(trace: seq<Table>, records: seq<seq<Entry>>, j: nat, k: nat, journal: seq<Entry>, grace: real,
                floors: nat -> real, p: int)
    requires j <= k < |trace| && k <= |records| && |journal| == 1 && journal[0] in Logged(records, k)
    requires AllReplayable(journal, |Reopened(trace[j], grace).state|)
    requires p in Where(ReplayAll(Reopened(trace[j], grace), journal, floors).state, Committed)
    requires p !in Where(trace[k].state, Committed)
    ensures !InventsNothing(trace, records, k)
  {
    assert !ReplaysWithin(trace[j], journal, grace, floors, Where(trace[k].state, Committed));
    hide Where, Reopened, ReplayAll, Logged, ReplaysWithin, AllReplayable;
    assert Selection(journal, Logged(records, k));
  }

  /** Exactly the runs whose cut leases do no harm can be recovered, from any of their snapshots and
      any part of their log, without a commit they had not made. */
  lemma HarmlessExactly(trace: seq<Table>, calls: seq<Call>, records: seq<seq<Entry>>, k: nat)
    requires IsRecordedRun(trace, calls, records) && Inv(trace[0]) && OneEpoch(trace) && k <= |calls| < |trace| && k <= |records|
    ensures InventsNothing(trace, records, k) <==> Harmless(trace, calls, k)
  {
    hide IsRecordedRun, Inv, InvPending, OneEpoch, Where, ReplayAll, Reopened, AllReplayable, Logged, CutIsDone, Selection;
    if Harmless(trace, calls, k) {
      forall j, journal, grace, floors | 0 <= j <= k && Selection(journal, Logged(records, k))
        ensures ReplaysWithin(trace[j], journal, grace, floors, Where(trace[k].state, Committed))
      {
        RecoveryInventsNothing(trace, calls, records, j, k, journal, grace, floors);
      }
    } else {
      var i, j :| 0 <= i < k && 0 <= j <= k && Accepted(trace[i], calls[i]) && calls[i].lease in trace[j].leases
                  && !CutIsDone(trace[i], calls[i], trace[j], Where(trace[k].state, Committed));
      HarmIsReplayed(trace, calls, records, i, j, k);
    }
  }

  ghost predicate NeverSteals(trace: seq<Table>) {
    forall i :: 0 <= i < |trace| - 1 ==> StealFree(trace[i], trace[i + 1])
  }

  /** Without steals there is nothing to clamp. */
  lemma StealFreeIsHarmless(trace: seq<Table>, calls: seq<Call>, k: nat)
    requires IsRun(trace, calls) && Inv(trace[0]) && NeverSteals(trace) && k <= |calls| < |trace|
    ensures Harmless(trace, calls, k)
  {
    hide IsRun, Inv, InvPending, Where, NeverSteals;
    forall i, j | 0 <= i < k && 0 <= j <= k && Accepted(trace[i], calls[i]) && calls[i].lease in trace[j].leases
      ensures CutIsDone(trace[i], calls[i], trace[j], Where(trace[k].state, Committed))
    {
      var id := calls[i].lease;
      if j <= i { SameEnd(trace, calls, j, i, id); } else { SameEnd(trace, calls, i, j, id); }
    }
  }

  lemma {:induction false} SameEnd(trace: seq<Table>, calls: seq<Call>, j: nat, i: nat, id: LeaseId)
    requires IsRun(trace, calls) && Inv(trace[0]) && j <= i < |trace| && id in trace[j].leases && id in trace[i].leases
    requires NeverSteals(trace)
    ensures trace[i].leases[id].end == trace[j].leases[id].end && trace[i].leases[id].start == trace[j].leases[id].start
    decreases i
  {
    hide *;
    RunLength(trace, calls);
    if j < i {
      StepOf(trace, calls, i - 1);
      RunIsSound(trace, calls, j);
      RunIsSound(trace, calls, i - 1);
      NumbersIssued(trace[j]);
      LeaseShrinks(trace, calls, j, i - 1, id);
      LeaseShrinks(trace, calls, j, i, id);
      EvolvedStart(trace[j].leases[id], trace[i].leases[id]);
      CallMoves(trace[i - 1], calls[i - 1], trace[i]);
      WasHeld(trace[j], trace[i - 1], trace[i], id);
      SameEnd(trace, calls, j, i - 1, id);
      NoSteal(trace, i - 1);
      EndKept(trace[i - 1], trace[i], id);
    }
  }

  lemma NoSteal(trace: seq<Table>, i: nat)
    requires NeverSteals(trace) && i + 1 < |trace|
    ensures StealFree(trace[i], trace[i + 1])
  {
  }

  lemma WasHeld(t: Table, t1: Table, t2: Table, id: LeaseId)
    requires NumberOf(id) <= t.lastNumber <= t1.lastNumber && NewIds(t1, t2) && id in t2.leases
    ensures id in t1.leases
  {
  }

  lemma EndKept(t: Table, t': Table, id: LeaseId)
    requires StealFree(t, t') && id in t.leases && id in t'.leases
    ensures t'.leases[id].end == t.leases[id].end
  {
  }
}
