/** A coordinator that crashed and came back, against the one that never did. */
module Recovery {
  import opened Intervals
  import opened Arithmetic
  import opened LeaseModel
  import opened LeaseInvariant
  import opened AcquireInvariant
  import opened LeaseRuns
  import opened ExactlyOnce
  import opened DrainSafety
  import opened Snapshots
  import opened Journals

  // --- when a cut lease does no harm -------------------------------------------

  /** No lease that survives the step lost any of its end. */
  ghost predicate StealFree(t: Table, t': Table) {
    forall id :: id in t.leases && id in t'.leases ==> t'.leases[id].end == t.leases[id].end
  }

  ghost predicate OneEpoch(trace: seq<Table>) {
    forall i :: 0 <= i < |trace| - 1 ==> trace[i + 1].epoch == trace[i].epoch
  }

  ghost predicate Accepted(t: Table, call: Call) {
    call.CallCommit? && call.lease in t.leases && t.leases[call.lease].cluster == call.cluster
  }

  /** Step i commits a lease, past an end that the lease had had further out at step j. What was
      asked for between the two ends is nevertheless in `done`. */
  ghost predicate CutIsDone(t: Table, call: Call, earlier: Table, done: set<int>)
    requires Accepted(t, call) && call.lease in earlier.leases
  {
    forall p :: t.leases[call.lease].end <= p < Min(call.through, earlier.leases[call.lease].end) ==> p in done
  }

  /** Whatever the clamp took off the accepted commits of the first k calls has been committed by
      then all the same. */
  ghost predicate Harmless(trace: seq<Table>, calls: seq<Call>, k: nat)
    requires k <= |calls| < |trace|
  {
    forall i, j :: 0 <= i < k && 0 <= j <= k && Accepted(trace[i], calls[i]) && calls[i].lease in trace[j].leases ==>
      CutIsDone(trace[i], calls[i], trace[j], Where(trace[k].state, Committed))
  }

  /** No accepted commit asks for more than its lease still has. */
  ghost predicate Guarded(trace: seq<Table>, calls: seq<Call>, k: nat)
    requires k <= |calls| < |trace|
  {
    forall i :: 0 <= i < k && Accepted(trace[i], calls[i]) ==>
      calls[i].through <= trace[i].leases[calls[i].lease].end
  }

  lemma GuardedIsHarmless(trace: seq<Table>, calls: seq<Call>, k: nat)
    requires k <= |calls| < |trace| && Guarded(trace, calls, k)
    ensures Harmless(trace, calls, k)
  {
    hide Where;
    forall i, j | 0 <= i < k && 0 <= j <= k && Accepted(trace[i], calls[i]) && calls[i].lease in trace[j].leases
      ensures CutIsDone(trace[i], calls[i], trace[j], Where(trace[k].state, Committed))
    {
    }
  }

  // --- the log of a run of one epoch -------------------------------------------

  lemma RunStep(trace: seq<Table>, calls: seq<Call>, records: seq<seq<Entry>>, i: nat)
    requires IsRecordedRun(trace, calls, records) && Inv(trace[0]) && OneEpoch(trace) && i < |calls|
    ensures |trace| == |calls| + 1 == |records| + 1
    ensures Inv(trace[i]) && Next(trace[i], calls[i], trace[i + 1]) && Records(trace[i], calls[i], trace[i + 1], records[i])
    ensures trace[i + 1].epoch == trace[i].epoch
  {
    RecordedRunIsRun(trace, calls, records);
    hide Inv, Records, Next;
    RunIsSound(trace, calls, i);
    RecordsIsNext(trace[i], calls[i], trace[i + 1], records[i]);
  }

  /** Each lease starts where its range does, and has lost nothing but some of its end. */
  ghost predicate Spanned(leases: map<LeaseId, Lease>, ranges: Ranges) {
    forall id :: id in leases ==> id in ranges && ranges[id].lo == leases[id].start && leases[id].end <= ranges[id].hi
  }

  /** The range of each lease of the run is the span it had at some moment of the run. */
  ghost predicate Seen(trace: seq<Table>, ranges: Ranges) {
    forall id, i :: 0 <= i < |trace| && id in trace[i].leases ==> id in ranges && SeenAt(trace, id, ranges[id])
  }

  ghost predicate SeenAt(trace: seq<Table>, id: LeaseId, s: Interval) {
    exists j :: 0 <= j < |trace| && SpanAt(trace[j], id, s)
  }

  ghost predicate SpanAt(t: Table, id: LeaseId, s: Interval) {
    id in t.leases && s == Interval(t.leases[id].start, t.leases[id].end)
  }

  ghost predicate Bounded(ranges: Ranges, lastNumber: int) {
    forall id :: id in ranges ==> NumberOf(id) <= lastNumber
  }

  function NewRanges(leases: map<LeaseId, Lease>, ranges: Ranges): (r: Ranges) {
    ranges + map id | id in leases && id !in ranges :: Interval(leases[id].start, leases[id].end)
  }

  ghost predicate Widens(ranges: Ranges, ranges': Ranges) {
    forall id :: id in ranges ==> id in ranges' && ranges'[id] == ranges[id]
  }

  lemma StillJustified(journal: seq<Entry>, ranges: Ranges, done: set<int>, more: seq<Entry>, ranges': Ranges)
    requires AllJustified(journal, ranges, done) && AllJustified(more, ranges', done) && Widens(ranges, ranges')
    ensures AllJustified(journal + more, ranges', done)
  {
    forall e | e in journal ensures Justified(e, ranges', done) {
      assert Justified(e, ranges, done);
    }
  }

  lemma StillWithin(trace: seq<Table>, ranges: Ranges, ranges': Ranges, k: nat)
    requires k < |trace| && forall j :: 0 <= j < k ==> Within(trace[j].leases, ranges)
    requires Widens(ranges, ranges') && Spanned(trace[k].leases, ranges')
    ensures forall j :: 0 <= j <= k ==> Within(trace[j].leases, ranges')
  {
  }

  lemma StillSeen(trace: seq<Table>, t: Table, t': Table, ranges: Ranges)
    requires Seen(trace, ranges) && t in trace
    requires forall id :: id in t'.leases && id in ranges ==> id in t.leases
    ensures Seen(trace + [t'], NewRanges(t'.leases, ranges))
  {
    var longer, ranges' := trace + [t'], NewRanges(t'.leases, ranges);
    forall id, i | 0 <= i < |longer| && id in longer[i].leases ensures id in ranges' && SeenAt(longer, id, ranges'[id]) {
      if i < |trace| || id in ranges {
        assert exists k :: 0 <= k < |trace| && id in trace[k].leases;
        assert SeenAt(trace, id, ranges[id]);
        var j :| 0 <= j < |trace| && SpanAt(trace[j], id, ranges[id]);
        assert SpanAt(longer[j], id, ranges'[id]);
      } else {
        assert SpanAt(longer[|trace|], id, ranges'[id]);
      }
    }
  }

  /** A lease keeps the start it was granted, and the number in its id is new. */
  lemma StepRanges(t: Table, call: Call, t': Table, ranges: Ranges)
    requires Inv(t) && Next(t, call, t') && Spanned(t.leases, ranges) && Bounded(ranges, t.lastNumber)
    ensures Spanned(t'.leases, NewRanges(t'.leases, ranges)) && Bounded(NewRanges(t'.leases, ranges), t'.lastNumber)
    ensures forall id :: id in t'.leases && id in ranges ==> id in t.leases
  {
    hide *;
    CallMoves(t, call, t');
    NextKeeps(t, call, t');
    NumbersIssued(t');
    MovedRanges(t, call, t', ranges);
  }

  lemma MovedRanges(t: Table, call: Call, t': Table, ranges: Ranges)
    requires AllMove(t, call, t') && NewIds(t, t') && Spanned(t.leases, ranges) && Bounded(ranges, t.lastNumber)
    requires forall id :: id in t'.leases ==> NumberOf(id) <= t'.lastNumber
    ensures Spanned(t'.leases, NewRanges(t'.leases, ranges)) && Bounded(NewRanges(t'.leases, ranges), t'.lastNumber)
    ensures forall id :: id in t'.leases && id in ranges ==> id in t.leases
  {
    forall id | id in t'.leases && id in t.leases
      ensures t'.leases[id].start == t.leases[id].start && t'.leases[id].end <= t.leases[id].end
    {
      assert Moves(call, id, t.leases[id], t'.leases[id]);
    }
    assert forall id :: id in t'.leases && id in ranges ==> id in t.leases;
  }

  /** The commits of the run that bear on one call: its own, and those its clamp left to others. */
  ghost predicate Excused(t: Table, call: Call, t': Table, trace: seq<Table>, done: set<int>) {
    && Where(t'.state, Committed) <= done
    && forall j :: 0 <= j < |trace| && Accepted(t, call) && call.lease in trace[j].leases ==>
         CutIsDone(t, call, trace[j], done)
  }

  lemma EntriesJustified(t: Table, call: Call, t': Table, entries: seq<Entry>, ranges: Ranges, trace: seq<Table>,
                         done: set<int>)
    requires Inv(t) && Records(t, call, t', entries) && Excused(t, call, t', trace, done)
    requires Spanned(t.leases, ranges) && Seen(trace, ranges) && t in trace
    requires Spanned(t'.leases, NewRanges(t'.leases, ranges))
    ensures AllJustified(entries, NewRanges(t'.leases, ranges), done)
  {
    hide *;
    if call.CallAcquire? {
      var g := AcquireRecords(t, call.request, t', entries);
      GrantJustified(t, call.request, g, t', NewRanges(t'.leases, ranges), done);
    } else if call.CallCommit? {
      CommitRecords(t, call, t', entries);
      if entries != [] {
        CommitEntryJustified(t, call, t', ranges, trace, done);
      }
      NothingToJustify(entries, NewRanges(t'.leases, ranges), done);
    } else {
      OtherRecords(t, call, t', entries);
      NothingToJustify(entries, NewRanges(t'.leases, ranges), done);
    }
  }

  lemma AcquireRecords(t: Table, a: AcquireCall, t': Table, entries: seq<Entry>) returns (g: Grant)
    requires Records(t, CallAcquire(a), t', entries)
    ensures Acquires(t, a, g, t') && entries == GrantEntries(a, g)
  {
    g :| Acquires(t, a, g, t') && entries == GrantEntries(a, g);
  }

  lemma CommitRecords(t: Table, call: Call, t': Table, entries: seq<Entry>)
    requires call.CallCommit? && Records(t, call, t', entries)
    ensures var r := Commit(t, call.cluster, call.lease, call.through, call.now);
            t' == OrSame(r, t) && entries == if r.Err? then [] else [CommitEntry(call.cluster, call.lease, call.through, call.now)]
  {
    hide Commit;
  }

  lemma OtherRecords(t: Table, call: Call, t': Table, entries: seq<Entry>)
    requires !call.CallCommit? && !call.CallAcquire? && Records(t, call, t', entries)
    ensures forall e :: e in entries ==> !e.CommitEntry? && !e.AcquireEntry?
  {
    hide Next, Register, HeldBlocks;
  }

  lemma NothingToJustify(entries: seq<Entry>, ranges: Ranges, done: set<int>)
    requires forall e :: e in entries ==> !e.AcquireEntry? && (e.CommitEntry? ==> Justified(e, ranges, done))
    ensures AllJustified(entries, ranges, done)
  {
  }

  lemma CommitEntryJustified(t: Table, call: Call, t': Table, ranges: Ranges, trace: seq<Table>, done: set<int>)
    requires Inv(t) && call.CallCommit? && Commit(t, call.cluster, call.lease, call.through, call.now).Ok?
    requires t' == OrSame(Commit(t, call.cluster, call.lease, call.through, call.now), t)
    requires Excused(t, call, t', trace, done) && Spanned(t.leases, ranges) && Seen(trace, ranges) && t in trace
    ensures Justified(CommitEntry(call.cluster, call.lease, call.through, call.now), NewRanges(t'.leases, ranges), done)
  {
    hide Inv, InvPending, Where;
    CommittedThrough(t, call.cluster, call.lease, call.through, call.now);
    hide Commit;
    var id := call.lease;
    assert id in ranges && ranges[id].lo == t.leases[id].start;
    assert SeenAt(trace, id, ranges[id]);
    var j :| 0 <= j < |trace| && SpanAt(trace[j], id, ranges[id]);
    assert CutIsDone(t, call, trace[j], done);
  }

  lemma GrantJustified(t: Table, a: AcquireCall, g: Grant, t': Table, ranges: Ranges, done: set<int>)
    requires Inv(t) && Acquires(t, a, g, t') && Spanned(t'.leases, ranges)
    ensures AllJustified(GrantEntries(a, g), ranges, done)
  {
    hide Inv, InvPending, Acquires;
    AcquireMoves(t, a, g, t');
  }

  /** An accepted commit leaves everything of the lease below its watermark COMMITTED. */
  lemma CommittedThrough(t: Table, c: ClusterId, id: LeaseId, through: int, now: real)
    requires Inv(t) && Commit(t, c, id, through, now).Ok?
    ensures id in t.leases
    ensures forall p :: t.leases[id].start <= p < Min(through, t.leases[id].end) ==>
      p in Where(Commit(t, c, id, through, now).value.state, Committed)
  {
    CommitShape(t, c, id, through, now);
    var l := t.leases[id];
    assert LeaseOk(l, id, t.epoch, |t.state|, t.clusters.Keys, t.lastNumber);
    assert forall p :: l.start <= p < l.committedEnd ==> t.state[p] == Committed;
  }

  /** Spans known from before the run: right for what is still leased, and of no id yet to come. */
  ghost predicate Seeds(seed: Ranges, t: Table) {
    Bounded(seed, t.lastNumber) && forall id :: id in seed && id in t.leases ==> SpanAt(t, id, seed[id])
  }

  /** The log of a run whose cut leases do no harm is justified by what the run has committed. */
  lemma {:induction false} LogIsJustified(trace: seq<Table>, calls: seq<Call>, records: seq<seq<Entry>>, n: nat, k: nat,
                                          seed: Ranges)
    returns (ranges: Ranges)
    requires IsRecordedRun(trace, calls, records) && Inv(trace[0]) && OneEpoch(trace) && n <= k <= |calls| < |trace|
    requires Harmless(trace, calls, k) && Seeds(seed, trace[0])
    ensures Widens(seed, ranges) && forall j :: 0 <= j <= n ==> Within(trace[j].leases, ranges)
    ensures Spanned(trace[n].leases, ranges) && Bounded(ranges, trace[n].lastNumber) && Seen(trace[..n + 1], ranges)
    ensures AllJustified(Logged(records, n), ranges, Where(trace[k].state, Committed))
    decreases n
  {
    hide *;
    RecordedLengths(trace, calls, records);
    LogNext(records, n);
    var done := Where(trace[k].state, Committed);
    if n == 0 {
      ranges := NewRanges(trace[0].leases, seed);
      FirstRanges(trace[0], seed, done);
      assert trace[..1] == [trace[0]];
    } else {
      var before := LogIsJustified(trace, calls, records, n - 1, k, seed);
      RunStep(trace, calls, records, n - 1);
      ranges := NewRanges(trace[n].leases, before);
      CommittedOverRun(trace, calls, records, n, k);
      StepIsExcused(trace, calls, n - 1, k);
      assert trace[..n - 1 + 1] == trace[..n] && trace[..n] + [trace[n]] == trace[..n + 1];
      LogGrows(trace, calls[n - 1], records, n, before, ranges, done);
      WidensOn(seed, before, trace[n].leases);
    }
  }

  lemma WidensOn(seed: Ranges, ranges: Ranges, leases: map<LeaseId, Lease>)
    requires Widens(seed, ranges)
    ensures Widens(seed, NewRanges(leases, ranges))
  {
  }

  lemma FirstRanges(t: Table, seed: Ranges, done: set<int>)
    requires Inv(t) && Seeds(seed, t)
    ensures var ranges := NewRanges(t.leases, seed);
            && Widens(seed, ranges) && Spanned(t.leases, ranges) && Bounded(ranges, t.lastNumber)
            && Within(t.leases, ranges) && Seen([t], ranges) && AllJustified([], ranges, done)
  {
    hide Inv, InvPending, Where;
    NumbersIssued(t);
    var ranges := NewRanges(t.leases, seed);
    forall id | id in t.leases ensures id in ranges && SeenAt([t], id, ranges[id]) {
      assert SpanAt([t][0], id, ranges[id]);
    }
  }

  lemma StepIsExcused(trace: seq<Table>, calls: seq<Call>, i: nat, k: nat)
    requires i < k <= |calls| < |trace| && Harmless(trace, calls, k)
    requires Where(trace[i + 1].state, Committed) <= Where(trace[k].state, Committed)
    ensures Excused(trace[i], calls[i], trace[i + 1], trace[..i + 1], Where(trace[k].state, Committed))
  {
    hide Where, CutIsDone;
  }

  lemma LogGrows(trace: seq<Table>, call: Call, records: seq<seq<Entry>>, k: nat, before: Ranges, ranges: Ranges,
                 done: set<int>)
    requires 0 < k < |trace| && k <= |records|
    requires Logged(records, k) == Logged(records, k - 1) + records[k - 1]
    requires Inv(trace[k - 1]) && Next(trace[k - 1], call, trace[k]) && Records(trace[k - 1], call, trace[k], records[k - 1])
    requires trace[..k] + [trace[k]] == trace[..k + 1]
    requires Excused(trace[k - 1], call, trace[k], trace[..k], done)
    requires forall j :: 0 <= j <= k - 1 ==> Within(trace[j].leases, before)
    requires Spanned(trace[k - 1].leases, before) && Bounded(before, trace[k - 1].lastNumber) && Seen(trace[..k], before)
    requires AllJustified(Logged(records, k - 1), before, done)
    requires ranges == NewRanges(trace[k].leases, before)
    ensures forall j :: 0 <= j <= k ==> Within(trace[j].leases, ranges)
    ensures Spanned(trace[k].leases, ranges) && Bounded(ranges, trace[k].lastNumber) && Seen(trace[..k + 1], ranges)
    ensures AllJustified(Logged(records, k), ranges, done)
  {
    var t, t' := trace[k - 1], trace[k];
    assert Widens(before, ranges);
    hide *;
    StepRanges(t, call, t', before);
    assert t in trace[..k] by { assert trace[..k][k - 1] == t; }
    EntriesJustified(t, call, t', records[k - 1], before, trace[..k], done);
    StillJustified(Logged(records, k - 1), before, done, records[k - 1], ranges);
    StillWithin(trace, before, ranges, k);
    StillSeen(trace[..k], t, t', before);
  }

  lemma CommittedGrows(t: Table, call: Call, t': Table)
    requires Inv(t) && Next(t, call, t') && t'.epoch == t.epoch
    ensures Where(t.state, Committed) <= Where(t'.state, Committed) && |t'.state| == |t.state| && t'.cfg == t.cfg
  {
    hide *;
    NextShape(t, call, t');
    if call.CallCommit? { CommitCredits(t, call, t'); } else { OthersCommitNothing(t, call, t'); }
  }

  lemma NextShape(t: Table, call: Call, t': Table)
    requires Inv(t) && Next(t, call, t')
    ensures t'.cfg == t.cfg && |t'.state| == |t.state|
  {
    if call.CallAcquire? {
      var g :| Acquires(t, call.request, g, t');
      AcquireShape(t, call.request, g, t');
    } else {
      CallFrame(t, call, t');
    }
    NextKeeps(t, call, t');
  }

  lemma AcquireShape(t: Table, a: AcquireCall, g: Grant, t': Table)
    requires Inv(t) && Acquires(t, a, g, t')
    ensures t'.cfg == t.cfg
  {
    var ready := Prepared(t, a);
    PreparedKeeps(t, a);
    if !(Finished(ready) && !CanAdvance(ready)) {
      RolledKeeps(ready);
      var spans, t1 :| Serves(Rolled(ready), a, spans, t1, g, t');
      hide Inv, InvPending;
      ServesState(Rolled(ready), a, spans, t1, g, t');
    }
  }

  // --- any log of a run can be replayed ---------------------------------------

  ghost predicate LogOk(journal: seq<Entry>, t: Table) {
    && (forall e :: e in journal ==> Replayable(e, |t.state|))
    && (CanAdvance(t) ==> AdvanceEntry !in journal)
  }

  lemma EntriesReplayable(t: Table, call: Call, t': Table, entries: seq<Entry>)
    requires Inv(t) && Records(t, call, t', entries) && t'.epoch == t.epoch
    ensures LogOk(entries, t)
  {
    RecordsIsNext(t, call, t', entries);
    hide *;
    if call.CallAcquire? {
      var g := AcquireRecords(t, call.request, t', entries);
      NextKeeps(t, call, t');
      NextShape(t, call, t');
      GrantReplayable(t, call.request, g, t');
    } else {
      AdvanceRecords(t, call, t', entries);
      NotAGrant(entries, t);
    }
  }

  lemma AdvanceRecords(t: Table, call: Call, t': Table, entries: seq<Entry>)
    requires !call.CallAcquire? && Records(t, call, t', entries) && t'.epoch == t.epoch
    ensures forall e :: e in entries ==> !e.AcquireEntry?
    ensures AdvanceEntry in entries ==> !CanAdvance(t)
  {
    hide Register, HeldBlocks, Heartbeat, Commit, Release, Reap;
  }

  lemma NotAGrant(entries: seq<Entry>, t: Table)
    requires forall e :: e in entries ==> !e.AcquireEntry?
    requires AdvanceEntry in entries ==> !CanAdvance(t)
    ensures LogOk(entries, t)
  {
  }

  lemma GrantReplayable(t: Table, a: AcquireCall, g: Grant, t': Table)
    requires Inv(t) && Acquires(t, a, g, t') && Inv(t') && |t'.state| == |t.state|
    ensures LogOk(GrantEntries(a, g), t)
  {
    hide Acquires, InvPending;
    AcquireMoves(t, a, g, t');
    forall l | l in g.leases ensures Recordable(l, |t.state|) && l.cluster == a.cluster {
      LeaseIsRecordable(t', l.id);
    }
  }

  lemma LeaseIsRecordable(t: Table, id: LeaseId)
    requires Inv(t) && id in t.leases
    ensures Recordable(t.leases[id], |t.state|)
  {
    assert LeaseOk(t.leases[id], id, t.epoch, |t.state|, t.clusters.Keys, t.lastNumber);
  }

  lemma JoinLogs(a: seq<Entry>, b: seq<Entry>, t: Table, t': Table)
    requires LogOk(a, t) && LogOk(b, t') && t'.cfg == t.cfg && t'.epoch == t.epoch && |t'.state| == |t.state|
    ensures LogOk(a + b, t)
  {
  }

  lemma LogNext(records: seq<seq<Entry>>, k: nat)
    requires k <= |records|
    ensures Logged(records, k) == if k == 0 then [] else Logged(records, k - 1) + records[k - 1]
  {
  }

  lemma EmptyLog(t: Table)
    ensures LogOk([], t)
  {
  }

  lemma {:induction false} LogIsReplayable(trace: seq<Table>, calls: seq<Call>, records: seq<seq<Entry>>, k: nat)
    requires IsRecordedRun(trace, calls, records) && Inv(trace[0]) && OneEpoch(trace) && k <= |calls|
    ensures LogOk(Logged(records, k), trace[0])
    ensures trace[k].cfg == trace[0].cfg && trace[k].epoch == trace[0].epoch && |trace[k].state| == |trace[0].state|
  {
    hide *;
    RecordedLengths(trace, calls, records);
    LogNext(records, k);
    if k == 0 {
      EmptyLog(trace[0]);
    } else {
      LogIsReplayable(trace, calls, records, k - 1);
      RunStep(trace, calls, records, k - 1);
      NextShape(trace[k - 1], calls[k - 1], trace[k]);
      EntriesReplayable(trace[k - 1], calls[k - 1], trace[k], records[k - 1]);
      JoinLogs(Logged(records, k - 1), records[k - 1], trace[0], trace[k - 1]);
    }
  }

  lemma RecordedLengths(trace: seq<Table>, calls: seq<Call>, records: seq<seq<Entry>>)
    requires IsRecordedRun(trace, calls, records)
    ensures |trace| == |calls| + 1 == |records| + 1
  {
  }

  lemma {:induction false} CommittedOverRun(trace: seq<Table>, calls: seq<Call>, records: seq<seq<Entry>>, j: nat, k: nat)
    requires IsRecordedRun(trace, calls, records) && Inv(trace[0]) && OneEpoch(trace) && j <= k <= |calls|
    ensures Where(trace[j].state, Committed) <= Where(trace[k].state, Committed)
    decreases k
  {
    hide *;
    RecordedLengths(trace, calls, records);
    if j < k {
      CommittedOverRun(trace, calls, records, j, k - 1);
      RunStep(trace, calls, records, k - 1);
      CommittedGrows(trace[k - 1], calls[k - 1], trace[k]);
    }
  }

  // --- recovery invents no commit ---------------------------------------------

  /** Entries of the log, any of them, in any order and any number of times. */
  ghost predicate Selection(journal: seq<Entry>, log: seq<Entry>) {
    forall e :: e in journal ==> e in log
  }

  /** A table the log may be replayed onto: the snapshot of some moment of the run, or one from before
      the run whose leases are known. */
  ghost predicate Footing(r: Table, trace: seq<Table>, k: nat, seed: Ranges)
    requires k < |trace|
  {
    && Inv(r) && r.cfg == trace[0].cfg && r.epoch == trace[0].epoch && |r.state| == |trace[0].state|
    && Where(r.state, Committed) <= Where(trace[k].state, Committed)
    && (Within(r.leases, seed) || exists j :: 0 <= j <= k && Narrower(r.leases, trace[j].leases))
  }

  ghost predicate Narrower(leases: map<LeaseId, Lease>, leases': map<LeaseId, Lease>) {
    forall id :: id in leases ==> id in leases' && leases'[id].start <= leases[id].start && leases[id].end <= leases'[id].end
  }

  lemma FootingWithin(r: Table, trace: seq<Table>, k: nat, seed: Ranges, ranges: Ranges)
    requires k < |trace| && Footing(r, trace, k, seed) && Widens(seed, ranges)
    requires forall j :: 0 <= j <= k ==> Within(trace[j].leases, ranges)
    ensures Within(r.leases, ranges)
  {
    hide Inv, Where;
    if !Within(r.leases, seed) {
      var j :| 0 <= j <= k && Narrower(r.leases, trace[j].leases);
      assert Within(trace[j].leases, ranges);
    }
  }

  /** What the log held when the run began: replayable, and justified by what had been committed. */
  ghost predicate Accounted(past: seq<Entry>, seed: Ranges, t: Table) {
    LogOk(past, t) && Seeds(seed, t) && AllJustified(past, seed, Where(t.state, Committed))
  }

  lemma NoPast(t: Table)
    ensures Accounted([], map[], t)
  {
  }

  lemma PastJustified(past: seq<Entry>, seed: Ranges, t: Table, log: seq<Entry>, ranges: Ranges, done: set<int>,
                      journal: seq<Entry>)
    requires Accounted(past, seed, t) && LogOk(log, t) && AllJustified(log, ranges, done)
    requires Widens(seed, ranges) && Where(t.state, Committed) <= done && Selection(journal, past + log)
    ensures LogOk(journal, t) && AllJustified(journal, ranges, done)
  {
    hide Where;
    forall e | e in journal ensures Justified(e, ranges, done) {
      if e in past { assert Justified(e, seed, Where(t.state, Committed)); } else { assert Justified(e, ranges, done); }
    }
  }

  /** Expiries and steals allowed. Let the log be what was in it when the run began, accounted for,
      and what a run whose cut leases do no harm has added. Replaying any of it, in any order, yields
      a sound table that has lost no commit it started with and has none the run had not made. */
  lemma ReplayInventsNothing(trace: seq<Table>, calls: seq<Call>, records: seq<seq<Entry>>, k: nat, past: seq<Entry>,
                             seed: Ranges, r0: Table, journal: seq<Entry>, floors: nat -> real)
    requires IsRecordedRun(trace, calls, records) && Inv(trace[0]) && OneEpoch(trace) && k <= |calls| < |trace|
    requires Harmless(trace, calls, k) && Accounted(past, seed, trace[0]) && Footing(r0, trace, k, seed)
    requires k <= |records| && Selection(journal, past + Logged(records, k))
    ensures AllReplayable(journal, |r0.state|)
    ensures var r := ReplayAll(r0, journal, floors);
            && Inv(r) && r.epoch == trace[k].epoch
            && Where(r0.state, Committed) <= Where(r.state, Committed) <= Where(trace[k].state, Committed)
  {
    hide *;
    var t, done := trace[0], Where(trace[k].state, Committed);
    AccountedSeeds(past, seed, t);
    var ranges := LogIsJustified(trace, calls, records, k, k, seed);
    LogIsReplayable(trace, calls, records, k);
    CommittedOverRun(trace, calls, records, 0, k);
    PastJustified(past, seed, t, Logged(records, k), ranges, done, journal);
    FootingWithin(r0, trace, k, seed, ranges);
    FootingSound(r0, trace, k, seed, journal);
    JustifiedReplay(r0, journal, floors, ranges, done);
    ReplayAllKeeps(r0, journal, floors);
  }

  lemma AccountedSeeds(past: seq<Entry>, seed: Ranges, t: Table)
    requires Accounted(past, seed, t)
    ensures Seeds(seed, t)
  {
  }

  lemma FootingSound(r: Table, trace: seq<Table>, k: nat, seed: Ranges, journal: seq<Entry>)
    requires k < |trace| && Footing(r, trace, k, seed) && LogOk(journal, trace[0])
    ensures Inv(r) && AllReplayable(journal, |r.state|) && (CanAdvance(r) ==> AdvanceEntry !in journal)
    ensures Where(r.state, Committed) <= Where(trace[k].state, Committed) && r.epoch == trace[0].epoch
  {
    hide Inv, Where, Within, Narrower;
  }

  lemma ReopenedFooting(trace: seq<Table>, j: nat, k: nat, grace: real)
    requires j <= k < |trace| && Inv(trace[j]) && Where(trace[j].state, Committed) <= Where(trace[k].state, Committed)
    requires trace[j].cfg == trace[0].cfg && trace[j].epoch == trace[0].epoch && |trace[j].state| == |trace[0].state|
    ensures Footing(Reopened(trace[j], grace), trace, k, map[])
    ensures Reopened(trace[j], grace).state == trace[j].state
  {
    hide Inv, Where;
    ReopenedKeeps(trace[j], grace);
    assert Narrower(Reopened(trace[j], grace).leases, trace[j].leases);
  }

  /** From the snapshot of any moment of the run, with nothing in the log before it. */
  lemma RecoveryInventsNothing(trace: seq<Table>, calls: seq<Call>, records: seq<seq<Entry>>, j: nat, k: nat,
                               journal: seq<Entry>, grace: real, floors: nat -> real)
    requires IsRecordedRun(trace, calls, records) && Inv(trace[0]) && OneEpoch(trace) && j <= k <= |calls| < |trace|
    requires Harmless(trace, calls, k) && k <= |records| && Selection(journal, Logged(records, k))
    ensures AllReplayable(journal, |Reopened(trace[j], grace).state|)
    ensures var r := ReplayAll(Reopened(trace[j], grace), journal, floors);
            && Inv(r) && r.epoch == trace[k].epoch
            && Where(trace[j].state, Committed) <= Where(r.state, Committed) <= Where(trace[k].state, Committed)
  {
    hide *;
    LogIsReplayable(trace, calls, records, j);
    CommittedOverRun(trace, calls, records, j, k);
    RecordedRunIsRun(trace, calls, records);
    RunIsSound(trace, calls, j);
    NoPast(trace[0]);
    assert [] + Logged(records, k) == Logged(records, k);
    ReopenedFooting(trace, j, k, grace);
    ReplayInventsNothing(trace, calls, records, k, [], map[], Reopened(trace[j], grace), journal, floors);
  }

  /** A crash between writing the snapshot and truncating the log: replaying the log over a
      snapshot that already contains it changes no commit. */
  lemma DoubleReplay(trace: seq<Table>, calls: seq<Call>, records: seq<seq<Entry>>, k: nat, grace: real, floors: nat -> real)
    requires IsRecordedRun(trace, calls, records) && Inv(trace[0]) && OneEpoch(trace) && k <= |calls| < |trace|
    requires Harmless(trace, calls, k) && k <= |records|
    ensures AllReplayable(Logged(records, k), |Reopened(trace[k], grace).state|)
    ensures Where(ReplayAll(Reopened(trace[k], grace), Logged(records, k), floors).state, Committed)
            == Where(trace[k].state, Committed)
  {
    RecoveryInventsNothing(trace, calls, records, k, k, Logged(records, k), grace, floors);
  }
}
