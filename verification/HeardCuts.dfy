/** What a session does with the answers to its heartbeats, over whole runs of the composed system: it keeps
    to every cut it is told of, and what it has reported is never cut off. */
module HeardCuts {
  import opened LeaseModel
  import opened LeaseInvariant
  import opened LeaseRuns
  import opened Wrappers
  import opened Sessions
  import opened LeaseSystem
  import Heartbeats

  // --- a span only shrinks ----------------------------------------------------------

  /** While the session holds a span, no step moves its end outwards or makes it valid again, and what it has
      consumed never falls and stays within the end. */
  lemma SpanOnlyShrinks(c: ClusterId, s: System, step: Step, s': System, id: LeaseId)
    requires SystemOk(c, s) && StepOk(c, s, step, s') && id in s.spans && id in s'.spans
    ensures s'.spans[id].end <= s.spans[id].end && (s'.spans[id].valid ==> s.spans[id].valid)
    ensures s.spans[id].consumed <= s'.spans[id].consumed
  {
    hide Inv, Next, SystemOk, Acquires, Commit, Applied, CommitHeard, NoteConsumed, Adopted, Progress, CommitRequest;
    match step
    case Adopt(granted) => AdoptShrinks(c, s, granted, id);
    case Consume(x, through) => ConsumeShrinks(s, x, through, id);
    case HearBeat(views) => HearBeatShrinks(c, s, views, id);
    case HearCommit(x, through, outcome) => HearCommitShrinks(s, x, through, outcome, id);
    case _ =>
  }

  lemma AdoptShrinks(c: ClusterId, s: System, granted: seq<Lease>, id: LeaseId)
    requires SystemOk(c, s) && Offer(granted) in s.net && id in s.spans
    ensures id in Adopted(s.spans, granted) && Adopted(s.spans, granted)[id] == s.spans[id]
  {
    assert MessageOk(c, s, Offer(granted));
    AdoptedShape(s.spans, granted);
    hide Inv, Adopted, SystemOk;
  }

  lemma ConsumeShrinks(s: System, x: LeaseId, through: int, id: LeaseId)
    requires id in s.spans
    ensures id in NoteConsumed(s.spans, x, through)
    ensures var after := NoteConsumed(s.spans, x, through)[id];
            after.end == s.spans[id].end && after.valid == s.spans[id].valid && after.consumed >= s.spans[id].consumed
  {
  }

  lemma HearBeatShrinks(c: ClusterId, s: System, views: map<LeaseId, LeaseView>, id: LeaseId)
    requires SystemOk(c, s) && id in s.spans
    ensures id in Applied(s.spans, views, views.Keys)
    ensures var after := Applied(s.spans, views, views.Keys)[id];
            after.end <= s.spans[id].end && (after.valid ==> s.spans[id].valid) && after.consumed == s.spans[id].consumed
  {
    assert SpansOk(c, s.table, s.spans);
    AppliedFields(s.spans, views);
    hide Applied, SystemOk;
  }

  lemma HearCommitShrinks(s: System, x: LeaseId, through: int, outcome: CommitOutcome, id: LeaseId)
    requires id in s.spans && id in CommitHeard(s.spans, x, through, outcome)
    ensures var after := CommitHeard(s.spans, x, through, outcome)[id];
            after.end == s.spans[id].end && (after.valid ==> s.spans[id].valid) && after.consumed == s.spans[id].consumed
  {
  }

  ghost predicate Keeps(trace: seq<System>, k: nat, m: nat, id: LeaseId) {
    k <= m < |trace| && forall n :: k <= n <= m ==> id in trace[n].spans
  }

  lemma {:induction false} StaysShrunk(c: ClusterId, trace: seq<System>, steps: seq<Step>, k: nat, m: nat, id: LeaseId)
    requires IsSystemRun(c, trace, steps) && Keeps(trace, k, m, id)
    requires Inv(trace[0].table) && trace[0].spans == map[] && trace[0].net == {}
    ensures trace[m].spans[id].end <= trace[k].spans[id].end && (trace[m].spans[id].valid ==> trace[k].spans[id].valid)
    ensures trace[m].spans[id].consumed <= trace[m].spans[id].end
    decreases m
  {
    hide *;
    KeepsFirst(trace, k, m, id);
    AlwaysInStep(c, trace, steps, m, id);
    WithinEnd(c, trace[m], id);
    if k < m {
      KeepsOn(trace, k, m, id);
      StaysShrunk(c, trace, steps, k, m - 1, id);
      AlwaysInStep(c, trace, steps, m - 1, id);
      StepAt(c, trace, steps, m - 1);
      SpanOnlyShrinks(c, trace[m - 1], steps[m - 1], trace[m], id);
    }
  }

  lemma WithinEnd(c: ClusterId, s: System, id: LeaseId)
    requires SystemOk(c, s) && id in s.spans
    ensures s.spans[id].consumed <= s.spans[id].end
  {
    assert SpansOk(c, s.table, s.spans);
  }

  lemma KeepsOn(trace: seq<System>, k: nat, m: nat, id: LeaseId)
    requires Keeps(trace, k, m, id) && k < m
    ensures Keeps(trace, k, m - 1, id) && id in trace[m].spans && id in trace[m - 1].spans
  {
  }

  // --- a cut is kept to -------------------------------------------------------------

  /** Step i serves a heartbeat that reports this lease, and step k hears the answer. */
  ghost predicate Answered(c: ClusterId, trace: seq<System>, steps: seq<Step>, i: nat, k: nat, id: LeaseId) {
    && i < k < |steps| && |trace| == |steps| + 1
    && steps[i].ServeBeat? && id in steps[i].progress
    && steps[k] == HearBeat(Views(trace[i + 1].table.leases, trace[i + 1].table.epoch, c, steps[i].progress.Keys))
  }

  /** Once the answer to a heartbeat has been heard, for as long as the session holds the span, the span ends
      no later than the coordinator had its lease end when it answered, or than what had been consumed by
      then, and nothing beyond that is ever consumed. If the lease was gone, the span is never valid again. */
  lemma CutsAreKept(c: ClusterId, trace: seq<System>, steps: seq<Step>, i: nat, k: nat, m: nat, id: LeaseId)
    requires IsSystemRun(c, trace, steps) && Answered(c, trace, steps, i, k, id)
    requires Inv(trace[0].table) && trace[0].spans == map[] && trace[0].net == {}
    requires id in trace[k].spans && k < m && Keeps(trace, k + 1, m, id)
    ensures var leases, held, now := trace[i + 1].table.leases, trace[k].spans[id], trace[m].spans[id];
            && (id in leases && leases[id].cluster == c ==>
                  now.consumed <= now.end <= if leases[id].end >= held.consumed then leases[id].end else held.consumed)
            && (id !in leases || leases[id].cluster != c ==> !now.valid)
  {
    hide *;
    AnswerIs(c, trace, steps, i, k, id);
    StaysShrunk(c, trace, steps, k + 1, m, id);
    AlwaysInStep(c, trace, steps, i + 1, id);
    AlwaysInStep(c, trace, steps, k, id);
    StepAt(c, trace, steps, k);
    KeepsFirst(trace, k + 1, m, id);
    EpochOf(c, trace[i + 1], id);
    HearsTheEnd(c, trace[k], trace[k + 1], trace[i + 1], steps[i].progress.Keys, id);
  }

  lemma AnswerIs(c: ClusterId, trace: seq<System>, steps: seq<Step>, i: nat, k: nat, id: LeaseId)
    requires Answered(c, trace, steps, i, k, id)
    ensures i < k < |steps| && |trace| == |steps| + 1 && steps[i].ServeBeat? && id in steps[i].progress.Keys
    ensures steps[k] == HearBeat(Views(trace[i + 1].table.leases, trace[i + 1].table.epoch, c, steps[i].progress.Keys))
  {
  }

  lemma KeepsFirst(trace: seq<System>, k: nat, m: nat, id: LeaseId)
    requires Keeps(trace, k, m, id)
    ensures k <= m < |trace| && id in trace[k].spans && id in trace[m].spans
  {
  }

  lemma EpochOf(c: ClusterId, s: System, id: LeaseId)
    requires SystemOk(c, s)
    ensures id in s.table.leases ==> s.table.leases[id].epoch == s.table.epoch && s.table.leases[id].progressEnd <= s.table.leases[id].end
  {
    if id in s.table.leases {
      assert LeaseOk(s.table.leases[id], id, s.table.epoch, |s.table.state|, s.table.clusters.Keys, s.table.lastNumber);
    }
  }

  lemma HearsTheEnd(c: ClusterId, s: System, s': System, asked: System, ids: set<LeaseId>, id: LeaseId)
    requires SystemOk(c, s) && id in s.spans && id in s'.spans && id in ids
    requires StepOk(c, s, HearBeat(Views(asked.table.leases, asked.table.epoch, c, ids)), s')
    requires id in asked.table.leases ==> asked.table.leases[id].epoch == asked.table.epoch
    ensures var leases, held, now := asked.table.leases, s.spans[id], s'.spans[id];
            && (id in leases && leases[id].cluster == c ==>
                  now.end <= if leases[id].end >= held.consumed then leases[id].end else held.consumed)
            && (id !in leases || leases[id].cluster != c ==> !now.valid)
  {
    var views := Views(asked.table.leases, asked.table.epoch, c, ids);
    assert id in views && views[id] == View(asked.table.leases, asked.table.epoch, c, id);
    assert s'.spans == Applied(s.spans, views, views.Keys);
    AppliedFields(s.spans, views);
    hide Applied, SystemOk, StepOk;
  }

  // --- what is reported is safe -----------------------------------------------------

  /** The session reports what it holds at step i; step k serves the report. */
  ghost predicate Reported(c: ClusterId, trace: seq<System>, steps: seq<Step>, i: nat, k: nat, id: LeaseId) {
    && i <= k < |steps| && |trace| == |steps| + 1 && id in trace[i].spans && trace[i].spans[id].valid
    && steps[k].ServeBeat? && steps[k].progress == Progress(trace[i].spans)
  }

  /** Once a heartbeat has been served, what it reported consumed is not taken away: as long as its holder
      keeps the lease, the lease extends at least as far as the report did when it was served. */
  lemma ReportsAreSafe(c: ClusterId, trace: seq<System>, steps: seq<Step>, i: nat, k: nat, m: nat, id: LeaseId)
    requires IsSystemRun(c, trace, steps) && Reported(c, trace, steps, i, k, id)
    requires Inv(trace[0].table) && trace[0].spans == map[] && trace[0].net == {}
    requires k < m < |trace| && id in trace[m].table.leases && id in trace[k + 1].table.leases
    requires trace[k + 1].table.leases[id].cluster == c
    ensures var mark, end := trace[i].spans[id].consumed, trace[k + 1].table.leases[id].end;
            trace[m].table.leases[id].end >= if mark <= end then mark else end
  {
    hide *;
    AlwaysInStep(c, trace, steps, k, id);
    AlwaysInStep(c, trace, steps, k + 1, id);
    AlwaysInStep(c, trace, steps, m, id);
    StepAt(c, trace, steps, k);
    ReportIs(c, trace, steps, i, k, id);
    EpochOf(c, trace[m], id);
    ServedMark(c, trace[k], steps[k], trace[k + 1], id);
    SystemNumbers(c, trace[k + 1]);
    ProgressStands(c, trace, steps, k + 1, m, id);
  }

  lemma ReportIs(c: ClusterId, trace: seq<System>, steps: seq<Step>, i: nat, k: nat, id: LeaseId)
    requires Reported(c, trace, steps, i, k, id)
    ensures i <= k < |steps| && |trace| == |steps| + 1 && id in trace[i].spans
    ensures steps[k].ServeBeat? && id in steps[k].progress && steps[k].progress[id] == trace[i].spans[id].consumed
  {
  }

  lemma ServedMark(c: ClusterId, s: System, step: Step, s': System, id: LeaseId)
    requires SystemOk(c, s) && StepOk(c, s, step, s') && step.ServeBeat? && id in step.progress
    requires id in s'.table.leases && s'.table.leases[id].cluster == c
    ensures var l := s'.table.leases[id];
            l.progressEnd >= if step.progress[id] <= l.end then step.progress[id] else l.end
  {
    hide *;
    SystemIsSound(c, s);
    BeatServed(c, s, step, s');
    Heartbeats.HeartbeatFields(s.table, c, step.progress, step.macroStep, step.rtt, step.ttl, step.now);
  }

  lemma BeatServed(c: ClusterId, s: System, step: Step, s': System)
    requires StepOk(c, s, step, s') && step.ServeBeat?
    ensures s'.table == Heartbeat(s.table, c, step.progress, step.macroStep, step.rtt, step.ttl, step.now)
  {
    hide Heartbeat;
  }

  /** No step takes back progress the table knows of, or brings back a lease that is gone. */
  lemma StepStands(c: ClusterId, s: System, step: Step, s': System, id: LeaseId)
    requires SystemOk(c, s) && StepOk(c, s, step, s') && id in s'.table.leases && NumberOf(id) <= s.table.lastNumber
    ensures id in s.table.leases && s.table.leases[id].progressEnd <= s'.table.leases[id].progressEnd
  {
    hide Inv, Next, SystemOk, Acquires, Commit, Applied, CommitHeard, NoteConsumed, Adopted, Progress, CommitRequest;
    match step
    case Elsewhere(call) => LeaseStep(c, s, call, s'.table, id);
    case ServeAcquire(a) => AcquireStands(c, s, a, s', id);
    case ServeBeat(progress, macroStep, rtt, ttl, now) =>
      LeaseStep(c, s, CallHeartbeat(c, progress, macroStep, rtt, ttl, now), s'.table, id);
    case ServeCommit(x, through, now) => LeaseStep(c, s, CallCommit(c, x, through, now), s'.table, id);
    case ServeRelease(counted, incarnation) => LeaseStep(c, s, CallRelease(c, None, incarnation, counted), s'.table, id);
    case _ =>
  }

  lemma AcquireStands(c: ClusterId, s: System, a: AcquireCall, s': System, id: LeaseId)
    requires SystemOk(c, s) && StepOk(c, s, ServeAcquire(a), s') && id in s'.table.leases && NumberOf(id) <= s.table.lastNumber
    ensures id in s.table.leases && s.table.leases[id].progressEnd <= s'.table.leases[id].progressEnd
  {
    hide Acquires, SystemOk;
    var g :| Acquires(s.table, a, g, s'.table);
    hide StepOk, Mentions, MarkOf;
    AcquireIsNext(s.table, a, g, s'.table);
    LeaseStep(c, s, CallAcquire(a), s'.table, id);
  }

  lemma StepNumbers(c: ClusterId, s: System, step: Step, s': System)
    requires SystemOk(c, s) && StepOk(c, s, step, s')
    ensures s.table.lastNumber <= s'.table.lastNumber
  {
    hide Inv, Next, SystemOk, Acquires, Commit, Applied, CommitHeard, NoteConsumed, Adopted, Progress, CommitRequest;
    SystemIsSound(c, s);
    match step
    case Elsewhere(call) => NewNumbers(s.table, call, s'.table);
    case ServeAcquire(a) =>
      var g :| Acquires(s.table, a, g, s'.table);
      AcquireIsNext(s.table, a, g, s'.table);
      NewNumbers(s.table, CallAcquire(a), s'.table);
    case ServeBeat(progress, macroStep, rtt, ttl, now) =>
      NewNumbers(s.table, CallHeartbeat(c, progress, macroStep, rtt, ttl, now), s'.table);
    case ServeCommit(x, through, now) => NewNumbers(s.table, CallCommit(c, x, through, now), s'.table);
    case ServeRelease(counted, incarnation) => NewNumbers(s.table, CallRelease(c, None, incarnation, counted), s'.table);
    case _ =>
  }

  lemma {:induction false} ProgressStands(c: ClusterId, trace: seq<System>, steps: seq<Step>, k: nat, m: nat, id: LeaseId)
    requires IsSystemRun(c, trace, steps) && k <= m < |trace|
    requires Inv(trace[0].table) && trace[0].spans == map[] && trace[0].net == {}
    requires id in trace[m].table.leases && NumberOf(id) <= trace[k].table.lastNumber
    ensures id in trace[k].table.leases
    ensures trace[k].table.leases[id].progressEnd <= trace[m].table.leases[id].progressEnd
    decreases m - k
  {
    hide *;
    if k < m {
      AlwaysInStep(c, trace, steps, k, id);
      StepAt(c, trace, steps, k);
      StepNumbers(c, trace[k], steps[k], trace[k + 1]);
      ProgressStands(c, trace, steps, k + 1, m, id);
      StepStands(c, trace[k], steps[k], trace[k + 1], id);
    }
  }
}
