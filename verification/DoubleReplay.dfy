/** A log replayed over a snapshot that already contains it: which commits it adds. */
module DoubleReplays {
  import opened Arithmetic
  import opened LeaseModel
  import opened LeaseInvariant
  import opened LeaseRuns
  import opened Journals
  import opened InOrderReplay
  import opened ExactRecovery

  // --- what a replay takes again --------------------------------------------------

  /** The leases of a log's grants, in order. */
  function Grants(log: seq<Entry>): seq<Lease> {
    if log == [] then []
    else Grants(log[..|log| - 1]) + if log[|log| - 1].AcquireEntry? then log[|log| - 1].leases else []
  }

  predicate InRun(l: Lease, p: int) {
    l.start <= p < l.end
  }

  predicate InSome(runs: map<LeaseId, Lease>, p: int) {
    exists id :: id in runs && InRun(runs[id], p)
  }

  /** The block states with these runs taken. */
  ghost function Without(state: seq<BlockState>, runs: map<LeaseId, Lease>): (r: seq<BlockState>)
    ensures |r| == |state|
  {
    seq(|state|, p requires 0 <= p < |state| => if InSome(runs, p) then Leased else state[p])
  }

  /** What one more granted lease finds still free, if the table no longer holds it: the first run of its
      span that no earlier one has taken. */
  ghost function RetakeOne(t: Table, runs: map<LeaseId, Lease>, l: Lease): map<LeaseId, Lease>
    requires Recordable(l, |t.state|)
  {
    if l.epoch != t.epoch || l.id in t.leases || l.id in runs then runs
    else
      var state := Without(t.state, runs);
      var lo := FirstFree(state, l.start, l.end);
      var hi := FreeRunEnd(state, lo, l.end);
      if hi <= lo then runs else runs[l.id := l.(start := lo, end := hi)]
  }

  /** Each in its turn. */
  ghost function Retaken(t: Table, grants: seq<Lease>): map<LeaseId, Lease>
    requires AllRecordable(grants, |t.state|)
  {
    if grants == [] then map[]
    else RetakeOne(t, Retaken(t, grants[..|grants| - 1]), grants[|grants| - 1])
  }

  /** The log has a commit of the lease past this position. */
  predicate Below(log: seq<Entry>, l: Lease, p: int) {
    exists e :: e in log && CommitsPast(e, l, p)
  }

  predicate CommitsPast(e: Entry, l: Lease, p: int) {
    e.CommitEntry? && e.lease == l.id && e.cluster == l.cluster && p < e.through
  }

  // --- logs that a snapshot contains ------------------------------------------------

  predicate Mentions(e: Entry, id: LeaseId) {
    || (e.CommitEntry? && e.lease == id)
    || (e.AcquireEntry? && exists l :: l in e.leases && l.id == id)
  }

  /** Every id is granted once, and before anything else is said of it. */
  ghost predicate OncePerId(log: seq<Entry>) {
    forall n, i :: 0 <= n < |log| && log[n].AcquireEntry? && 0 <= i < |log[n].leases| ==>
      && (forall m :: 0 <= m < n ==> !Mentions(log[m], log[n].leases[i].id))
      && (forall j :: 0 <= j < i ==> log[n].leases[j].id != log[n].leases[i].id)
  }

  /** What the log has committed of the leases still held, the table has too. */
  ghost predicate CaughtUp(t: Table, log: seq<Entry>) {
    forall e :: e in log && e.CommitEntry? && e.lease in t.leases && t.leases[e.lease].cluster == e.cluster ==>
      e.through <= t.leases[e.lease].committedEnd
  }

  /** A log without releases that the table contains, replayed later than it was written. */
  ghost predicate Contained(t: Table, log: seq<Entry>, floors: nat -> real) {
    && Inv(t) && AllReplayable(log, |t.state|) && OncePerId(log) && CaughtUp(t, log)
    && (forall e :: e in log ==> !e.ReleaseEntry?)
    && Outlives(t, log) && (forall n: nat :: Passed(log, floors(n)))
    && (CanAdvance(t) ==> AdvanceEntry !in log)
  }

  // --- the replayed table, position by position --------------------------------------

  ghost predicate RunsOk(t: Table, runs: map<LeaseId, Lease>) {
    && (forall id :: id in runs ==>
          && runs[id].id == id && id !in t.leases && 0 <= runs[id].start < runs[id].end <= |t.state|
          && forall p :: InRun(runs[id], p) ==> t.state[p] == Unassigned)
    && (forall i, j, p :: i in runs && j in runs && i != j && InRun(runs[i], p) ==> !InRun(runs[j], p))
  }

  /** Runs are committed as far as the log says, and everything else stands. */
  ghost predicate StatesMatch(t: Table, runs: map<LeaseId, Lease>, log: seq<Entry>, r: Table) {
    && |r.state| == |t.state|
    && (forall p :: 0 <= p < |t.state| && !InSome(runs, p) ==> r.state[p] == t.state[p])
    && (forall id, p :: id in runs && InRun(runs[id], p) && 0 <= p < |r.state| ==>
          r.state[p] == if Below(log, runs[id], p) then Committed else Leased)
  }

  ghost predicate LeasesMatch(t: Table, runs: map<LeaseId, Lease>, log: seq<Entry>, r: Table) {
    && r.leases.Keys <= t.leases.Keys + runs.Keys
    && (forall id :: id in t.leases ==>
          id in r.leases && r.leases[id].cluster == t.leases[id].cluster
          && r.leases[id].committedEnd == t.leases[id].committedEnd)
    && (forall id :: id in runs && id in r.leases ==> RunMatches(runs[id], log, r.leases[id]))
    && (forall id, p :: id in runs && id !in r.leases && InRun(runs[id], p) ==> Below(log, runs[id], p))
  }

  ghost predicate RunMatches(run: Lease, log: seq<Entry>, l: Lease) {
    && l.cluster == run.cluster && l.end == run.end && run.start <= l.committedEnd
    && forall p :: InRun(run, p) ==> (Below(log, run, p) <==> p < l.committedEnd)
  }

  ghost predicate Matches(t: Table, runs: map<LeaseId, Lease>, log: seq<Entry>, r: Table) {
    && r.epoch == t.epoch && r.cfg == t.cfg
    && RunsOk(t, runs) && StatesMatch(t, runs, log, r) && LeasesMatch(t, runs, log, r)
  }

  lemma MatchesAtFirst(t: Table)
    ensures Matches(t, map[], [], t)
  {
  }

  /** An entry that commits nothing. */
  lemma BelowSame(log: seq<Entry>, e: Entry)
    requires !e.CommitEntry?
    ensures forall l, p :: Below(log + [e], l, p) <==> Below(log, l, p)
  {
    forall l, p | Below(log + [e], l, p) ensures Below(log, l, p) {
      var x :| x in log + [e] && CommitsPast(x, l, p);
    }
    forall l, p | Below(log, l, p) ensures Below(log + [e], l, p) {
      var x :| x in log && CommitsPast(x, l, p);
      assert x in log + [e];
    }
  }

  lemma BelowMore(log: seq<Entry>, e: Entry)
    ensures forall l, p :: Below(log + [e], l, p) <==> Below(log, l, p) || CommitsPast(e, l, p)
  {
    forall l, p | Below(log + [e], l, p) ensures Below(log, l, p) || CommitsPast(e, l, p) {
      var x :| x in log + [e] && CommitsPast(x, l, p);
    }
    forall l, p | Below(log, l, p) ensures Below(log + [e], l, p) {
      var x :| x in log && CommitsPast(x, l, p);
      assert x in log + [e];
    }
    assert e in log + [e];
  }

  lemma SameBelow(t: Table, runs: map<LeaseId, Lease>, log: seq<Entry>, log': seq<Entry>, r: Table, r': Table)
    requires Matches(t, runs, log, r) && forall l, p :: Below(log', l, p) <==> Below(log, l, p)
    requires r'.state == r.state && r'.leases == r.leases && r'.epoch == r.epoch && r'.cfg == r.cfg
    ensures Matches(t, runs, log', r')
  {
    hide Below, InSome;
    forall id | id in runs && id in r'.leases ensures RunMatches(runs[id], log', r'.leases[id]) {
      assert RunMatches(runs[id], log, r.leases[id]);
    }
  }

  // --- one grant --------------------------------------------------------------------

  /** Scans find the same in states that are free at the same positions. */
  lemma {:induction false} SameFirstFree(s: seq<BlockState>, s': seq<BlockState>, from: int, end: int)
    requires 0 <= from && end <= |s| == |s'|
    requires forall p :: from <= p < end ==> (s[p] == Unassigned <==> s'[p] == Unassigned)
    ensures FirstFree(s, from, end) == FirstFree(s', from, end)
    decreases end - from
  {
    if from < end && s[from] != Unassigned {
      SameFirstFree(s, s', from + 1, end);
    }
  }

  lemma {:induction false} SameRunEnd(s: seq<BlockState>, s': seq<BlockState>, from: int, end: int)
    requires 0 <= from && end <= |s| == |s'|
    requires forall p :: from <= p < end ==> (s[p] == Unassigned <==> s'[p] == Unassigned)
    ensures FreeRunEnd(s, from, end) == FreeRunEnd(s', from, end)
    decreases end - from
  {
    if from < end && s[from] == Unassigned {
      SameRunEnd(s, s', from + 1, end);
    }
  }

  lemma SameFree(t: Table, runs: map<LeaseId, Lease>, log: seq<Entry>, r: Table)
    requires Matches(t, runs, log, r)
    ensures |r.state| == |t.state|
    ensures forall p :: 0 <= p < |t.state| ==> (r.state[p] == Unassigned <==> Without(t.state, runs)[p] == Unassigned)
  {
    hide Below;
    forall p | 0 <= p < |t.state| ensures r.state[p] == Unassigned <==> Without(t.state, runs)[p] == Unassigned {
      if InSome(runs, p) {
        var id :| id in runs && InRun(runs[id], p);
      }
    }
  }

  lemma GrantMatches(t: Table, runs: map<LeaseId, Lease>, log: seq<Entry>, r: Table, l: Lease, floor: real)
    requires Matches(t, runs, log, r) && Recordable(l, |t.state|) && |r.state| == |t.state|
    requires l.id !in runs && forall p :: !Below(log, l, p)
    ensures Matches(t, RetakeOne(t, runs, l), log, ReplayLease(r, l, floor))
  {
    var state := Without(t.state, runs);
    SameFree(t, runs, log, r);
    SameFirstFree(state, r.state, l.start, l.end);
    var lo := FirstFree(state, l.start, l.end);
    SameRunEnd(state, r.state, lo, l.end);
    var hi := FreeRunEnd(state, lo, l.end);
    SameEpochs(t, runs, log, r, l);
    if l.epoch == t.epoch && l.id !in t.leases && lo < hi {
      var run, r' := l.(start := lo, end := hi), ReplayLease(r, l, floor);
      BelowOf(log, l, run);
      assert r' == Leasing(r, Reinstated(l, lo, hi, floor), Max(r.lastNumber, NumberOf(l.id)));
      hide Matches, Below, Without, FirstFree, FreeRunEnd, ReplayLease;
      assert RetakeOne(t, runs, l) == runs[run.id := run];
      NewRun(t, runs, log, r, run, r');
    }
  }

  lemma SameEpochs(t: Table, runs: map<LeaseId, Lease>, log: seq<Entry>, r: Table, l: Lease)
    requires Matches(t, runs, log, r) && l.id !in runs
    ensures r.epoch == t.epoch && (l.id in r.leases <==> l.id in t.leases)
  {
    hide Below;
  }

  /** Only the id and the holder matter. */
  lemma BelowOf(log: seq<Entry>, l: Lease, run: Lease)
    requires run.id == l.id && run.cluster == l.cluster
    ensures forall p :: Below(log, run, p) <==> Below(log, l, p)
  {
    forall e, p ensures CommitsPast(e, run, p) <==> CommitsPast(e, l, p) {
    }
    forall p | Below(log, run, p) ensures Below(log, l, p) {
      var e :| e in log && CommitsPast(e, run, p);
      assert CommitsPast(e, l, p);
    }
    forall p | Below(log, l, p) ensures Below(log, run, p) {
      var e :| e in log && CommitsPast(e, l, p);
      assert CommitsPast(e, run, p);
    }
  }

  lemma NewRun(t: Table, runs: map<LeaseId, Lease>, log: seq<Entry>, r: Table, run: Lease, r': Table)
    requires Matches(t, runs, log, r) && run.id !in runs && run.id !in t.leases
    requires 0 <= run.start < run.end <= |t.state| == |r.state| && (forall p :: !Below(log, run, p))
    requires forall p :: InRun(run, p) ==> Without(t.state, runs)[p] == Unassigned
    requires r'.epoch == r.epoch && r'.cfg == r.cfg && r'.state == Filled(r.state, run.start, run.end, Leased)
    requires run.id in r'.leases && r'.leases == r.leases[run.id := r'.leases[run.id]]
    requires r'.leases[run.id].cluster == run.cluster && r'.leases[run.id].end == run.end
    requires r'.leases[run.id].committedEnd == run.start
    ensures Matches(t, runs[run.id := run], log, r')
  {
    assert RunsOk(t, runs) && StatesMatch(t, runs, log, r) && LeasesMatch(t, runs, log, r);
    hide Below, RunsOk, StatesMatch, LeasesMatch, Without;
    MoreRuns(runs, run);
    NewlyFree(t, runs, run);
    RunsMore(t, runs, run);
    StatesMore(t, runs, log, r, run, r');
    LeasesMore(t, runs, log, r, run, r');
  }

  lemma MoreRuns(runs: map<LeaseId, Lease>, run: Lease)
    requires run.id !in runs
    ensures forall p :: InSome(runs[run.id := run], p) <==> InSome(runs, p) || InRun(run, p)
  {
    var runs' := runs[run.id := run];
    forall p ensures InSome(runs', p) <==> InSome(runs, p) || InRun(run, p) {
      if InSome(runs, p) {
        var id :| id in runs && InRun(runs[id], p);
        assert id in runs' && InRun(runs'[id], p);
      }
      if InRun(run, p) { assert InRun(runs'[run.id], p); }
    }
  }

  lemma NewlyFree(t: Table, runs: map<LeaseId, Lease>, run: Lease)
    requires 0 <= run.start && run.end <= |t.state|
    requires forall p :: InRun(run, p) ==> Without(t.state, runs)[p] == Unassigned
    ensures forall p :: InRun(run, p) ==> !InSome(runs, p) && t.state[p] == Unassigned
  {
    hide InSome;
  }

  lemma RunsMore(t: Table, runs: map<LeaseId, Lease>, run: Lease)
    requires RunsOk(t, runs) && run.id !in runs && run.id !in t.leases && 0 <= run.start < run.end <= |t.state|
    requires forall p :: InRun(run, p) ==> !InSome(runs, p) && t.state[p] == Unassigned
    ensures RunsOk(t, runs[run.id := run])
  {
  }

  lemma StatesMore(t: Table, runs: map<LeaseId, Lease>, log: seq<Entry>, r: Table, run: Lease, r': Table)
    requires StatesMatch(t, runs, log, r) && run.id !in runs && 0 <= run.start < run.end <= |t.state| == |r.state|
    requires forall p :: !Below(log, run, p)
    requires forall p :: InRun(run, p) ==> !InSome(runs, p) && t.state[p] == Unassigned
    requires forall p :: InSome(runs[run.id := run], p) <==> InSome(runs, p) || InRun(run, p)
    requires r'.state == Filled(r.state, run.start, run.end, Leased)
    ensures StatesMatch(t, runs[run.id := run], log, r')
  {
    hide Below;
    forall id, p | id in runs && InRun(runs[id], p) && 0 <= p < |r.state| ensures !InRun(run, p) {
      assert InSome(runs, p);
    }
    hide InSome;
  }

  lemma LeasesMore(t: Table, runs: map<LeaseId, Lease>, log: seq<Entry>, r: Table, run: Lease, r': Table)
    requires LeasesMatch(t, runs, log, r) && run.id !in runs && run.id !in t.leases && run.start < run.end
    requires forall p :: !Below(log, run, p)
    requires run.id in r'.leases && r'.leases == r.leases[run.id := r'.leases[run.id]]
    requires r'.leases[run.id].cluster == run.cluster && r'.leases[run.id].end == run.end
    requires r'.leases[run.id].committedEnd == run.start
    ensures LeasesMatch(t, runs[run.id := run], log, r')
  {
    hide Below;
    var runs' := runs[run.id := run];
    forall id | id in runs' && id in r'.leases ensures RunMatches(runs'[id], log, r'.leases[id]) {
      if id != run.id { assert RunMatches(runs[id], log, r.leases[id]); }
    }
  }

  // --- one commit -------------------------------------------------------------------

  lemma CommitMatches(t: Table, runs: map<LeaseId, Lease>, log: seq<Entry>, r: Table, e: Entry)
    requires Inv(r) && Matches(t, runs, log, r) && e.CommitEntry?
    requires e.lease in t.leases && t.leases[e.lease].cluster == e.cluster ==> e.through <= t.leases[e.lease].committedEnd
    ensures Matches(t, runs, log + [e], OrSame(Commit(r, e.cluster, e.lease, e.through, e.now), r))
  {
    BelowMore(log, e);
    hide Below, InSome;
    if e.lease in r.leases && r.leases[e.lease].cluster == e.cluster {
      CommitShape(r, e.cluster, e.lease, e.through, e.now);
      if e.lease in t.leases {
        CommitNothing(r, e.cluster, e.lease, e.through, e.now);
        hide Inv, InvPending, Commit;
        NothingNew(t, runs, log, r, e);
      } else {
        var r' := OrSame(Commit(r, e.cluster, e.lease, e.through, e.now), r);
        hide Inv, InvPending, Commit, Matches;
        RunCommits(t, runs, log, r, e, r');
      }
    } else {
      assert OrSame(Commit(r, e.cluster, e.lease, e.through, e.now), r) == r;
      hide Inv, InvPending, Commit, Matches;
      NothingNew(t, runs, log, r, e);
    }
  }

  /** A commit of nothing that was taken again, or of all that it was already past. */
  lemma NothingNew(t: Table, runs: map<LeaseId, Lease>, log: seq<Entry>, r: Table, e: Entry)
    requires Matches(t, runs, log, r) && e.CommitEntry?
    requires e.lease !in r.leases || r.leases[e.lease].cluster != e.cluster || e.lease in t.leases
    requires forall l, p :: Below(log + [e], l, p) <==> Below(log, l, p) || CommitsPast(e, l, p)
    ensures Matches(t, runs, log + [e], r)
  {
    hide Below, InSome;
    forall id, p | id in runs && InRun(runs[id], p) ensures Below(log + [e], runs[id], p) <==> Below(log, runs[id], p) {
      if id in r.leases { assert RunMatches(runs[id], log, r.leases[id]); }
    }
    forall id | id in runs && id in r.leases ensures RunMatches(runs[id], log + [e], r.leases[id]) {
      assert RunMatches(runs[id], log, r.leases[id]);
    }
  }

  lemma RunCommits(t: Table, runs: map<LeaseId, Lease>, log: seq<Entry>, r: Table, e: Entry, r': Table)
    requires Matches(t, runs, log, r) && e.CommitEntry?
    requires e.lease in r.leases && r.leases[e.lease].cluster == e.cluster && e.lease !in t.leases
    requires forall l, p :: Below(log + [e], l, p) <==> Below(log, l, p) || CommitsPast(e, l, p)
    requires var l := r.leases[e.lease]; var to := ClampThrough(l, e.through);
             && 0 <= l.committedEnd <= to <= l.end <= |r.state|
             && r'.state == Filled(r.state, l.committedEnd, to, Committed)
             && r'.leases == AfterCommit(r.leases, e.lease, to) && r'.epoch == r.epoch && r'.cfg == r.cfg
    ensures Matches(t, runs, log + [e], r')
  {
    var id := e.lease;
    assert RunsOk(t, runs) && StatesMatch(t, runs, log, r) && LeasesMatch(t, runs, log, r);
    assert id in runs && RunMatches(runs[id], log, r.leases[id]);
    hide Below, InSome, RunsOk, StatesMatch, LeasesMatch;
    CommitStates(t, runs, log, r, e, r');
    CommitLeases(t, runs, log, r, e, r');
  }

  lemma CommitStates(t: Table, runs: map<LeaseId, Lease>, log: seq<Entry>, r: Table, e: Entry, r': Table)
    requires RunsOk(t, runs) && StatesMatch(t, runs, log, r) && e.CommitEntry? && e.lease in runs
    requires e.lease in r.leases && r.leases[e.lease].cluster == e.cluster && RunMatches(runs[e.lease], log, r.leases[e.lease])
    requires forall l, p :: Below(log + [e], l, p) <==> Below(log, l, p) || CommitsPast(e, l, p)
    requires var l := r.leases[e.lease]; var to := ClampThrough(l, e.through);
             && 0 <= l.committedEnd <= to <= l.end <= |r.state|
             && r'.state == Filled(r.state, l.committedEnd, to, Committed)
    ensures StatesMatch(t, runs, log + [e], r')
  {
    hide Below;
    var run, l := runs[e.lease], r.leases[e.lease];
    var to := ClampThrough(l, e.through);
    forall p | l.committedEnd <= p < to ensures InRun(run, p) && InSome(runs, p) {
      assert InRun(runs[e.lease], p);
    }
    hide InSome;
    forall id, p | id in runs && InRun(runs[id], p) && 0 <= p < |r'.state|
      ensures r'.state[p] == if Below(log + [e], runs[id], p) then Committed else Leased
    {
      if id == e.lease {
        assert Below(log, run, p) <==> p < l.committedEnd;
        assert CommitsPast(e, run, p) <==> p < e.through;
      } else {
        assert !InRun(run, p) && !CommitsPast(e, runs[id], p);
      }
    }
  }

  lemma CommitLeases(t: Table, runs: map<LeaseId, Lease>, log: seq<Entry>, r: Table, e: Entry, r': Table)
    requires RunsOk(t, runs) && LeasesMatch(t, runs, log, r) && e.CommitEntry? && e.lease in runs
    requires e.lease in r.leases && r.leases[e.lease].cluster == e.cluster && RunMatches(runs[e.lease], log, r.leases[e.lease])
    requires forall l, p :: Below(log + [e], l, p) <==> Below(log, l, p) || CommitsPast(e, l, p)
    requires var l := r.leases[e.lease]; var to := ClampThrough(l, e.through);
             && 0 <= l.committedEnd <= to <= l.end
             && r'.leases == AfterCommit(r.leases, e.lease, to)
    ensures LeasesMatch(t, runs, log + [e], r')
  {
    hide Below;
    forall id, p | id in runs && InRun(runs[id], p)
      ensures Below(log + [e], runs[id], p) <==> Below(log, runs[id], p) || (id == e.lease && p < e.through)
    {
      assert CommitsPast(e, runs[id], p) <==> id == e.lease && p < e.through;
    }
    forall id | id in runs && id in r'.leases ensures RunMatches(runs[id], log + [e], r'.leases[id]) {
      assert RunMatches(runs[id], log, r.leases[id]);
    }
  }

  // --- the whole log ----------------------------------------------------------------

  lemma {:induction false} RetakenKeys(t: Table, grants: seq<Lease>, id: LeaseId)
    requires AllRecordable(grants, |t.state|)
    requires id in Retaken(t, grants)
    ensures exists i :: 0 <= i < |grants| && grants[i].id == id
  {
    var n := |grants| - 1;
    if grants[n].id != id {
      RetakenKeys(t, grants[..n], id);
      var i :| 0 <= i < n && grants[..n][i].id == id;
      assert grants[i].id == id;
    }
  }

  lemma RetakenNext(t: Table, grants: seq<Lease>, leases: seq<Lease>, k: nat)
    requires k < |leases|
    requires AllRecordable(grants, |t.state|)
    requires AllRecordable(leases, |t.state|)
    ensures AllRecordable(grants + leases[..k], |t.state|)
    ensures AllRecordable(grants + leases[..k + 1], |t.state|)
    ensures Retaken(t, grants + leases[..k + 1]) == RetakeOne(t, Retaken(t, grants + leases[..k]), leases[k])
  {
    var longer := grants + leases[..k + 1];
    assert longer[..|longer| - 1] == grants + leases[..k];
    hide RetakeOne;
  }

  /** The leases of one grant, of ids the log has not mentioned, each once. */
  ghost predicate NewGrant(grants: seq<Lease>, log: seq<Entry>, leases: seq<Lease>, blocks: int) {
    && AllRecordable(grants, blocks) && AllRecordable(leases, blocks)
    && (forall i, j :: 0 <= i < |grants| && 0 <= j < |leases| ==> grants[i].id != leases[j].id)
    && (forall i, j :: 0 <= i < j < |leases| ==> leases[i].id != leases[j].id)
    && (forall j, p :: 0 <= j < |leases| ==> !Below(log, leases[j], p))
  }

  lemma {:induction false} GrantsMatch(t: Table, grants: seq<Lease>, log: seq<Entry>, r: Table, leases: seq<Lease>, k: nat,
                                       floor: real)
    requires NewGrant(grants, log, leases, |t.state|) && k <= |leases| && |r.state| == |t.state|
    requires Matches(t, Retaken(t, grants), log, r)
    ensures AllRecordable(grants + leases[..k], |t.state|)
    ensures AllRecordable(leases[..k], |r.state|)
    ensures Matches(t, Retaken(t, grants + leases[..k]), log, ReplayGrant(r, leases[..k], floor))
  {
    hide Below, Matches, Retaken, RetakeOne, ReplayGrant, ReplayLease;
    if k == 0 {
      assert grants + leases[..0] == grants;
      NothingGranted(r, floor);
      assert leases[..0] == [];
    } else {
      GrantsMatch(t, grants, log, r, leases, k - 1, floor);
      RetakenNext(t, grants, leases, k - 1);
      var runs := Retaken(t, grants + leases[..k - 1]);
      if leases[k - 1].id in runs {
        RetakenKeys(t, grants + leases[..k - 1], leases[k - 1].id);
      }
      ReplayGrantNext(r, leases, k, floor);
      GrantMatches(t, runs, log, ReplayGrant(r, leases[..k - 1], floor), leases[k - 1], floor);
    }
  }

  predicate Mentioned(log: seq<Entry>, id: LeaseId) {
    exists i :: 0 <= i < |log| && Mentions(log[i], id)
  }

  lemma MentionedStill(log: seq<Entry>, n: nat, id: LeaseId)
    requires n <= |log| && Mentioned(log[..n], id)
    ensures Mentioned(log, id)
  {
    var i :| 0 <= i < n && Mentions(log[..n][i], id);
    assert Mentions(log[i], id);
  }

  lemma {:induction false} GrantsRecordable(log: seq<Entry>, blocks: int)
    requires AllReplayable(log, blocks)
    ensures AllRecordable(Grants(log), blocks)
    ensures forall i :: 0 <= i < |Grants(log)| ==> Mentioned(log, Grants(log)[i].id)
  {
    if log != [] {
      var n := |log| - 1;
      GrantsRecordable(log[..n], blocks);
      assert Replayable(log[n], blocks);
      var before, grants := Grants(log[..n]), Grants(log);
      hide Mentioned;
      forall i | 0 <= i < |grants| ensures Recordable(grants[i], blocks) && Mentioned(log, grants[i].id) {
        if i < |before| {
          assert grants[i] == before[i];
          MentionedStill(log, n, grants[i].id);
        } else {
          LastMentions(log, grants[i]);
        }
      }
    }
  }

  lemma LastMentions(log: seq<Entry>, l: Lease)
    requires log != [] && log[|log| - 1].AcquireEntry? && l in log[|log| - 1].leases
    ensures Mentioned(log, l.id)
  {
    assert Mentions(log[|log| - 1], l.id);
  }

  /** What one more grant entry says is new. */
  lemma NextGrant(log: seq<Entry>, e: Entry, blocks: int)
    requires OncePerId(log + [e]) && AllReplayable(log + [e], blocks) && e.AcquireEntry?
    ensures NewGrant(Grants(log), log, e.leases, blocks) && Grants(log + [e]) == Grants(log) + e.leases
  {
    var longer := log + [e];
    assert longer[..|log|] == log && longer[|log|] == e;
    forall i | 0 <= i < |log| ensures Replayable(log[i], blocks) {
      assert longer[i] == log[i];
    }
    GrantsRecordable(log, blocks);
    forall j | 0 <= j < |e.leases| ensures Recordable(e.leases[j], blocks) {
      assert e.leases[j] in e.leases && Replayable(longer[|log|], blocks);
    }
    forall x, j | x in log && 0 <= j < |e.leases| ensures !Mentions(x, e.leases[j].id) {
      var m :| 0 <= m < |log| && log[m] == x;
      assert longer[m] == x && longer[|log|].leases[j] == e.leases[j];
    }
    forall j, p | 0 <= j < |e.leases| ensures !Below(log, e.leases[j], p) {
      var l := e.leases[j];
      forall x | x in log ensures !CommitsPast(x, l, p) {
        assert !Mentions(x, l.id);
      }
    }
    assert forall i, j :: 0 <= i < j < |e.leases| ==> longer[|log|].leases[i].id != longer[|log|].leases[j].id;
  }

  lemma EntryMatches(t: Table, log: seq<Entry>, r: Table, e: Entry, floor: real)
    requires Inv(r) && AllReplayable(log, |t.state|) && AllReplayable(log + [e], |t.state|) && OncePerId(log + [e])
    requires AllRecordable(Grants(log), |t.state|) && AllRecordable(Grants(log + [e]), |t.state|) && |r.state| == |t.state| && Replayable(e, |r.state|)
    requires Matches(t, Retaken(t, Grants(log)), log, r)
    requires !e.ReleaseEntry? && !e.HeartbeatEntry? && (e.ReapEntry? ==> Reap(r, e.now) == r)
    requires e.AdvanceEntry? ==> !CanAdvance(r)
    requires e.CommitEntry? && e.lease in t.leases && t.leases[e.lease].cluster == e.cluster ==>
      e.through <= t.leases[e.lease].committedEnd
    ensures Matches(t, Retaken(t, Grants(log + [e])), log + [e], Replay(r, e, floor))
  {
    var runs := Retaken(t, Grants(log));
    if e.AcquireEntry? {
      NextGrant(log, e, |t.state|);
      AnnounceKeeps(r, e.cluster, e.now);
      var r1 := Announce(r, e.cluster, e.now);
      hide Inv, InvPending, Matches, Below, Retaken, Grants, AllReplayable, OncePerId, Announce, NewGrant, ReplayGrant;
      BelowSame([], e);
      AnnouncedMatches(t, runs, log, r, r1);
      assert e.leases[..|e.leases|] == e.leases;
      GrantsMatch(t, Grants(log), log, r1, e.leases, |e.leases|, floor);
      BelowSame(log, e);
      var r2 := ReplayGrant(r1, e.leases, floor);
      SameBelow(t, Retaken(t, Grants(log) + e.leases), log, log + [e], r2, r2);
    } else {
      SameGrants(log, e);
      hide Matches, Below, Retaken, Grants, AllReplayable, OncePerId;
      if e.CommitEntry? {
        CommitMatches(t, runs, log, r, e);
      } else {
        BelowSame(log, e);
        NothingMoved(r, e, floor);
        SameBelow(t, runs, log, log + [e], r, Replay(r, e, floor));
      }
    }
  }

  lemma NothingMoved(r: Table, e: Entry, floor: real)
    requires Replayable(e, |r.state|) && (e.RegisterEntry? || e.ReapEntry? || e.AdvanceEntry?)
    requires (e.ReapEntry? ==> Reap(r, e.now) == r) && (e.AdvanceEntry? ==> !CanAdvance(r))
    ensures var r' := Replay(r, e, floor); r'.state == r.state && r'.leases == r.leases && r'.epoch == r.epoch && r'.cfg == r.cfg
  {
    hide Reap;
  }

  lemma AnnouncedMatches(t: Table, runs: map<LeaseId, Lease>, log: seq<Entry>, r: Table, r1: Table)
    requires Matches(t, runs, log, r) && r1 == r.(clusters := r1.clusters)
    ensures Matches(t, runs, log, r1)
  {
    hide Below, InSome;
    forall id | id in runs && id in r1.leases ensures RunMatches(runs[id], log, r1.leases[id]) {
      assert RunMatches(runs[id], log, r.leases[id]);
    }
  }

  lemma SameGrants(log: seq<Entry>, e: Entry)
    requires !e.AcquireEntry?
    ensures Grants(log + [e]) == Grants(log)
  {
    assert (log + [e])[..|log|] == log;
  }

  lemma PrefixOnce(log: seq<Entry>, n: nat)
    requires OncePerId(log) && n <= |log|
    ensures OncePerId(log[..n])
  {
  }

  lemma PrefixReplayable(log: seq<Entry>, n: nat, blocks: int)
    requires AllReplayable(log, blocks) && n <= |log|
    ensures AllReplayable(log[..n], blocks) && AllRecordable(Grants(log[..n]), blocks)
  {
    GrantsRecordable(log[..n], blocks);
  }

  lemma {:induction false} LogMatches(t: Table, log: seq<Entry>, floors: nat -> real, n: nat)
    requires Contained(t, log, floors) && n <= |log|
    ensures AllReplayable(log[..n], |t.state|) && AllRecordable(Grants(log[..n]), |t.state|)
    ensures var r := ReplayAll(t, log[..n], floors);
            && Inv(r) && Outlives(r, log) && |r.state| == |t.state|
            && Matches(t, Retaken(t, Grants(log[..n])), log[..n], r)
    decreases n
  {
    hide *;
    ContainedParts(t, log, floors);
    PrefixReplayable(log, n, |t.state|);
    if n == 0 {
      NoneRetaken(t, log[..0]);
      NothingLogged(t, floors);
      MatchesAtFirst(t);
    } else {
      LogMatches(t, log, floors, n - 1);
      var r, e := ReplayAll(t, log[..n - 1], floors), log[n - 1];
      assert log[..n - 1] + [e] == log[..n] && log[..n][..n - 1] == log[..n - 1];
      PrefixOnce(log, n);
      LastEntry(t, log[..n], floors);
      ContainedEntry(t, log, floors, n - 1, r, Retaken(t, Grants(log[..n - 1])), log[..n - 1]);
      if e.ReapEntry? {
        NoneExpired(r, log, e);
      }
      EntryMatches(t, log[..n - 1], r, e, floors(n - 1));
      ReplayKeeps(r, e, floors(n - 1));
      OutlivesOn(r, e, floors(n - 1), log);
    }
  }

  lemma ContainedParts(t: Table, log: seq<Entry>, floors: nat -> real)
    requires Contained(t, log, floors)
    ensures Inv(t) && AllReplayable(log, |t.state|) && OncePerId(log) && CaughtUp(t, log)
    ensures Outlives(t, log) && forall n: nat :: Passed(log, floors(n))
  {
    hide Inv, AllReplayable, OncePerId, CaughtUp, Outlives, Passed;
  }

  lemma NoneRetaken(t: Table, log: seq<Entry>)
    requires log == [] && AllRecordable(Grants(log), |t.state|)
    ensures Retaken(t, Grants(log)) == map[] && log == []
  {
  }

  lemma ContainedEntry(t: Table, log: seq<Entry>, floors: nat -> real, n: nat, r: Table, runs: map<LeaseId, Lease>,
                       before: seq<Entry>)
    requires Contained(t, log, floors) && n < |log| && Matches(t, runs, before, r)
    ensures log[n] in log && !log[n].ReleaseEntry? && !log[n].HeartbeatEntry? && (log[n].AdvanceEntry? ==> !CanAdvance(r))
    ensures var e := log[n];
            e.CommitEntry? && e.lease in t.leases && t.leases[e.lease].cluster == e.cluster ==>
              e.through <= t.leases[e.lease].committedEnd
  {
    hide Inv, AllReplayable, OncePerId, Outlives, RunsOk, StatesMatch, LeasesMatch;
    assert log[n] in log && Passed(log, floors(0));
  }

  // --- which commits are added --------------------------------------------------------

  /** The commits that the replay adds: of what is taken again, all below a logged watermark. */
  ghost function Added(t: Table, log: seq<Entry>): set<int>
    requires AllRecordable(Grants(log), |t.state|)
  {
    var runs := Retaken(t, Grants(log));
    set p | 0 <= p < |t.state| && AddedBy(runs, log, p)
  }

  ghost predicate AddedBy(runs: map<LeaseId, Lease>, log: seq<Entry>, p: int) {
    exists id :: id in runs && InRun(runs[id], p) && Below(log, runs[id], p)
  }

  /** Replaying a log over a table that contains it leaves these commits and no others. */
  lemma AddsExactly(t: Table, log: seq<Entry>, floors: nat -> real)
    requires Contained(t, log, floors)
    ensures AllReplayable(log, |t.state|) && AllRecordable(Grants(log), |t.state|)
    ensures Where(ReplayAll(t, log, floors).state, Committed) == Where(t.state, Committed) + Added(t, log)
    ensures Where(t.state, Committed) !! Added(t, log)
  {
    hide *;
    ContainedParts(t, log, floors);
    LogMatches(t, log, floors, |log|);
    assert log[..|log|] == log;
    MatchedCommits(t, log, ReplayAll(t, log, floors));
  }

  lemma MatchedCommits(t: Table, log: seq<Entry>, r: Table)
    requires AllRecordable(Grants(log), |t.state|) && Matches(t, Retaken(t, Grants(log)), log, r)
    ensures Where(r.state, Committed) == Where(t.state, Committed) + Added(t, log)
    ensures Where(t.state, Committed) !! Added(t, log)
  {
    var runs := Retaken(t, Grants(log));
    hide Below, Retaken, Grants, LeasesMatch;
    forall p | 0 <= p < |t.state|
      ensures r.state[p] == Committed <==> t.state[p] == Committed || AddedBy(runs, log, p)
      ensures AddedBy(runs, log, p) ==> t.state[p] == Unassigned
    {
      if id :| id in runs && InRun(runs[id], p) {
        assert t.state[p] == Unassigned;
        assert forall j :: j in runs && InRun(runs[j], p) ==> j == id;
      }
    }
  }

  /** A commit in the log goes past the first position that its lease takes again. */
  ghost predicate Spoiled(t: Table, log: seq<Entry>)
    requires AllRecordable(Grants(log), |t.state|)
  {
    var runs := Retaken(t, Grants(log));
    exists id :: id in runs && Below(log, runs[id], runs[id].start)
  }

  /** A double replay changes no commit exactly when it spoils nothing. */
  lemma DoubleReplayExactly(t: Table, log: seq<Entry>, floors: nat -> real)
    requires Contained(t, log, floors)
    ensures AllReplayable(log, |t.state|) && AllRecordable(Grants(log), |t.state|)
    ensures Where(ReplayAll(t, log, floors).state, Committed) == Where(t.state, Committed) <==> !Spoiled(t, log)
  {
    hide *;
    ContainedParts(t, log, floors);
    AddsExactly(t, log, floors);
    LogMatches(t, log, floors, |log|);
    assert log[..|log|] == log;
    SpoiledAdds(t, log, ReplayAll(t, log, floors));
  }

  lemma SpoiledAdds(t: Table, log: seq<Entry>, r: Table)
    requires AllRecordable(Grants(log), |t.state|) && Matches(t, Retaken(t, Grants(log)), log, r)
    ensures Added(t, log) == {} <==> !Spoiled(t, log)
  {
    var runs := Retaken(t, Grants(log));
    hide Retaken, Grants, StatesMatch, LeasesMatch;
    if id :| id in runs && Below(log, runs[id], runs[id].start) {
      assert InRun(runs[id], runs[id].start) && AddedBy(runs, log, runs[id].start);
      assert runs[id].start in Added(t, log);
    } else {
      forall p | 0 <= p < |t.state| ensures !AddedBy(runs, log, p) {
        forall id | id in runs && InRun(runs[id], p) ensures !Below(log, runs[id], p) {
          BelowDown(log, runs[id], runs[id].start, p);
        }
      }
    }
  }

  lemma BelowDown(log: seq<Entry>, l: Lease, q: int, p: int)
    requires q <= p
    ensures Below(log, l, p) ==> Below(log, l, q)
  {
    if Below(log, l, p) {
      var e :| e in log && CommitsPast(e, l, p);
      assert CommitsPast(e, l, q);
    }
  }

  // --- the same, from the spans alone ----------------------------------------------------

  predicate Forgotten(t: Table, l: Lease) {
    l.epoch == t.epoch && l.id !in t.leases
  }

  /** A free position in the span of a grant that the table no longer holds, below a commit of it. */
  predicate Loose(t: Table, log: seq<Entry>, l: Lease, p: int) {
    Forgotten(t, l) && InRun(l, p) && 0 <= p < |t.state| && t.state[p] == Unassigned && Below(log, l, p)
  }

  ghost predicate AnyLoose(t: Table, log: seq<Entry>) {
    exists i, p :: 0 <= i < |Grants(log)| && Loose(t, log, Grants(log)[i], p)
  }

  /** No free position was in two grants that the table no longer holds. */
  ghost predicate SpannedOnce(t: Table, grants: seq<Lease>) {
    forall i, j, p :: 0 <= i < j < |grants| && BothSpan(t, grants[i], grants[j], p) ==> t.state[p] != Unassigned
  }

  predicate BothSpan(t: Table, a: Lease, b: Lease, p: int) {
    Forgotten(t, a) && Forgotten(t, b) && InRun(a, p) && InRun(b, p) && 0 <= p < |t.state|
  }

  ghost predicate DistinctIds(grants: seq<Lease>) {
    forall i, j :: 0 <= i < j < |grants| ==> grants[i].id != grants[j].id
  }

  lemma {:induction false} GrantsDistinct(log: seq<Entry>, blocks: int)
    requires OncePerId(log) && AllReplayable(log, blocks)
    ensures DistinctIds(Grants(log))
  {
    if log != [] {
      var n, e := |log| - 1, log[|log| - 1];
      assert log[..n] + [e] == log;
      PrefixOnce(log, n);
      PrefixReplayable(log, n, blocks);
      GrantsDistinct(log[..n], blocks);
      if e.AcquireEntry? {
        NextGrant(log[..n], e, blocks);
      } else {
        SameGrants(log[..n], e);
      }
    }
  }

  /** Where no free position was granted twice and forgotten, loose and spoiled are the same. */
  lemma LooseExactly(t: Table, log: seq<Entry>)
    requires AllRecordable(Grants(log), |t.state|) && DistinctIds(Grants(log)) && SpannedOnce(t, Grants(log))
    ensures Spoiled(t, log) <==> AnyLoose(t, log)
  {
    hide Grants, Below, Retaken;
    if Spoiled(t, log) {
      var i, p := SpoiledIsLoose(t, log);
    }
    if AnyLoose(t, log) {
      var i, p :| 0 <= i < |Grants(log)| && Loose(t, log, Grants(log)[i], p);
      LooseSpoils(t, log, i, p);
    }
  }

  lemma {:induction false} RetakenFrom(t: Table, grants: seq<Lease>, id: LeaseId) returns (i: nat)
    requires AllRecordable(grants, |t.state|) && id in Retaken(t, grants)
    ensures i < |grants| && grants[i].id == id && grants[i].epoch == t.epoch && id !in t.leases
    ensures var run := Retaken(t, grants)[id];
            && run == grants[i].(start := run.start, end := run.end)
            && grants[i].start <= run.start < run.end <= grants[i].end && t.state[run.start] == Unassigned
  {
    var n := |grants| - 1;
    var before := Retaken(t, grants[..n]);
    if id in before {
      i := RetakenFrom(t, grants[..n], id);
    } else {
      i := n;
    }
  }

  /** Nothing is spoiled unless something is loose, */
  lemma SpoiledIsLoose(t: Table, log: seq<Entry>) returns (i: nat, p: int)
    requires AllRecordable(Grants(log), |t.state|) && Spoiled(t, log)
    ensures i < |Grants(log)| && Loose(t, log, Grants(log)[i], p)
  {
    var runs := Retaken(t, Grants(log));
    var id :| id in runs && Below(log, runs[id], runs[id].start);
    hide Below, Grants, Retaken;
    i := RetakenFrom(t, Grants(log), id);
    p := runs[id].start;
    BelowOf(log, Grants(log)[i], runs[id]);
  }

  /** and what is loose in the first grant to span it spoils. */
  lemma LooseSpoils(t: Table, log: seq<Entry>, i: nat, p: int)
    requires AllRecordable(Grants(log), |t.state|) && i < |Grants(log)| && Loose(t, log, Grants(log)[i], p)
    requires DistinctIds(Grants(log))
    requires forall j :: 0 <= j < i && Forgotten(t, Grants(log)[j]) ==> !InRun(Grants(log)[j], p)
    ensures Spoiled(t, log)
  {
    var grants := Grants(log);
    hide Below, Grants, Retaken;
    FirstTakes(t, grants, i, |grants|, p);
    assert grants[..|grants|] == grants;
    var run := Retaken(t, grants)[grants[i].id];
    BelowOf(log, grants[i], run);
    BelowDown(log, run, run.start, p);
  }

  lemma {:induction false} FirstTakes(t: Table, grants: seq<Lease>, i: nat, n: nat, p: int)
    requires AllRecordable(grants, |t.state|) && i < n <= |grants|
    requires grants[i].epoch == t.epoch && grants[i].id !in t.leases && InRun(grants[i], p) && t.state[p] == Unassigned
    requires DistinctIds(grants)
    requires forall j :: 0 <= j < i && Forgotten(t, grants[j]) ==> !InRun(grants[j], p)
    ensures var id, runs := grants[i].id, Retaken(t, grants[..n]);
            && id in runs && runs[id].start <= p && runs[id] == grants[i].(start := runs[id].start, end := runs[id].end)
    decreases n
  {
    RetakenLast(t, grants, n);
    if n == i + 1 {
      NotYetTaken(t, grants, i, p);
    } else {
      FirstTakes(t, grants, i, n - 1, p);
    }
  }

  lemma RetakenLast(t: Table, grants: seq<Lease>, n: nat)
    requires AllRecordable(grants, |t.state|) && 0 < n <= |grants|
    ensures Retaken(t, grants[..n]) == RetakeOne(t, Retaken(t, grants[..n - 1]), grants[n - 1])
  {
    assert grants[..n][..n - 1] == grants[..n - 1];
  }

  lemma NotYetTaken(t: Table, grants: seq<Lease>, i: nat, p: int)
    requires AllRecordable(grants, |t.state|) && i < |grants|
    requires InRun(grants[i], p) && t.state[p] == Unassigned
    requires DistinctIds(grants)
    requires forall j :: 0 <= j < i && Forgotten(t, grants[j]) ==> !InRun(grants[j], p)
    ensures grants[i].id !in Retaken(t, grants[..i]) && Without(t.state, Retaken(t, grants[..i]))[p] == Unassigned
  {
    var runs := Retaken(t, grants[..i]);
    hide Retaken;
    if grants[i].id in runs {
      RetakenKeys(t, grants[..i], grants[i].id);
    }
    forall id | id in runs ensures !InRun(runs[id], p) {
      var j := RetakenFrom(t, grants[..i], id);
      assert Forgotten(t, grants[j]) && !InRun(grants[j], p);
    }
  }

  // --- logs with releases ------------------------------------------------------------

  /** A log that the table contains, and that gives back nothing the table holds. */
  ghost predicate Followed(t: Table, log: seq<Entry>, floors: nat -> real) {
    && Inv(t) && AllReplayable(log, |t.state|) && CaughtUp(t, log)
    && (forall e, id :: e in log && id in t.leases ==> !GivesBack(e, t.leases[id].cluster, id))
    && Outlives(t, log) && (forall n: nat :: Passed(log, floors(n)))
    && (CanAdvance(t) ==> AdvanceEntry !in log)
  }

  /** What is held is held as it was, or was free and lies in a grant that had been forgotten. */
  ghost predicate Restful(t: Table, log: seq<Entry>, r: Table) {
    && r.epoch == t.epoch && r.cfg == t.cfg && |r.state| == |t.state|
    && (forall p :: 0 <= p < |t.state| ==> (r.state[p] == Unassigned ==> t.state[p] == Unassigned)
                                           && (r.state[p] == Committed <==> t.state[p] == Committed))
    && (forall id :: id in t.leases ==>
          id in r.leases && r.leases[id].cluster == t.leases[id].cluster
          && r.leases[id].committedEnd == t.leases[id].committedEnd)
    && (forall id :: id in r.leases && id !in t.leases ==> FromGrant(t, Grants(log), id, r.leases[id]))
  }

  ghost predicate FromGrant(t: Table, grants: seq<Lease>, id: LeaseId, l: Lease) {
    exists i :: 0 <= i < |grants| && Regained(t, grants[i], id, l)
  }

  ghost predicate Regained(t: Table, g: Lease, id: LeaseId, l: Lease) {
    && g.id == id && g.cluster == l.cluster && Forgotten(t, g)
    && forall p :: Holds(l, p) ==> InRun(g, p) && 0 <= p < |t.state| && t.state[p] == Unassigned
  }

  lemma RestfulGrant(t: Table, log: seq<Entry>, r: Table, i: nat, floor: real)
    requires Restful(t, log, r) && i < |Grants(log)| && Recordable(Grants(log)[i], |r.state|)
    ensures Restful(t, log, ReplayLease(r, Grants(log)[i], floor))
  {
    hide Grants;
    var l, r' := Grants(log)[i], ReplayLease(r, Grants(log)[i], floor);
    var lo := FirstFree(r.state, l.start, l.end);
    var hi := FreeRunEnd(r.state, lo, l.end);
    if r' != r {
      assert Regained(t, l, l.id, r'.leases[l.id]);
    }
  }

  lemma {:induction false} RestfulGrants(t: Table, log: seq<Entry>, r: Table, leases: seq<Lease>, k: nat, floor: real)
    requires Restful(t, log, r) && AllRecordable(leases, |r.state|) && k <= |leases|
    requires forall l :: l in leases ==> l in Grants(log)
    ensures AllRecordable(leases[..k], |r.state|) && Restful(t, log, ReplayGrant(r, leases[..k], floor))
  {
    hide Restful, Grants, ReplayGrant, ReplayLease;
    if k == 0 {
      assert leases[..0] == [];
      NothingGranted(r, floor);
    } else {
      RestfulGrants(t, log, r, leases, k - 1, floor);
      ReplayGrantNext(r, leases, k, floor);
      assert leases[k - 1] in leases;
      var i :| 0 <= i < |Grants(log)| && Grants(log)[i] == leases[k - 1];
      RestfulGrant(t, log, ReplayGrant(r, leases[..k - 1], floor), i, floor);
    }
  }

  lemma {:induction false} EntryGrants(log: seq<Entry>, e: Entry)
    requires e in log && e.AcquireEntry?
    ensures forall l :: l in e.leases ==> l in Grants(log)
  {
    var n := |log| - 1;
    if e != log[n] {
      assert e in log[..n];
      EntryGrants(log[..n], e);
    }
  }

  lemma RestfulCommit(t: Table, log: seq<Entry>, r: Table, e: Entry)
    requires Inv(r) && Restful(t, log, r) && e in log && e.CommitEntry? && CaughtUp(t, log) && !AnyLoose(t, log)
    ensures OrSame(Commit(r, e.cluster, e.lease, e.through, e.now), r) == r
  {
    hide Grants;
    if e.lease in r.leases && r.leases[e.lease].cluster == e.cluster {
      CommitShape(r, e.cluster, e.lease, e.through, e.now);
      var l := r.leases[e.lease];
      if e.lease !in t.leases && l.committedEnd < ClampThrough(l, e.through) {
        LooseHold(t, log, l, e);
      }
      CommitNothing(r, e.cluster, e.lease, e.through, e.now);
    }
  }

  /** A commit that would take something regained shows it to be loose. */
  lemma LooseHold(t: Table, log: seq<Entry>, l: Lease, e: Entry)
    requires e in log && e.CommitEntry? && e.cluster == l.cluster && FromGrant(t, Grants(log), e.lease, l)
    requires l.committedEnd < Min(e.through, l.end)
    ensures AnyLoose(t, log)
  {
    hide Grants;
    var i :| 0 <= i < |Grants(log)| && Regained(t, Grants(log)[i], e.lease, l);
    assert Holds(l, l.committedEnd);
    assert CommitsPast(e, Grants(log)[i], l.committedEnd);
    assert Loose(t, log, Grants(log)[i], l.committedEnd);
  }

  lemma RestfulRelease(t: Table, log: seq<Entry>, r: Table, e: Entry, floor: real)
    requires Inv(r) && Restful(t, log, r) && e.ReleaseEntry?
    requires forall id :: id in t.leases ==> !GivesBack(e, t.leases[id].cluster, id)
    ensures Restful(t, log, Replay(r, e, floor))
  {
    var ids := ReleaseTargets(r, e.cluster, e.target, "");
    forall id | id in t.leases ensures id !in ids {
      assert r.leases[id].cluster == t.leases[id].cluster;
    }
    hide *;
    ReplayedRelease(r, e, floor);
    RestfulReclaim(t, log, r, ids);
  }

  lemma ReplayedRelease(r: Table, e: Entry, floor: real)
    requires e.ReleaseEntry?
    ensures Replay(r, e, floor) == Reclaim(r, ReleaseTargets(r, e.cluster, e.target, ""), true)
  {
    hide Reclaim;
  }

  lemma RestfulReclaim(t: Table, log: seq<Entry>, r: Table, ids: set<LeaseId>)
    requires Inv(r) && Restful(t, log, r) && forall id :: id in t.leases ==> id !in ids
    ensures Restful(t, log, Reclaim(r, ids, true))
  {
    hide *;
    var hit := HeldBlocks(r, ids);
    var poisoned := Poisoned(r.cfg, r.attempts, hit);
    RestfulHit(t, log, r, ids);
    PoisonedHit(r, hit);
    ReclaimedParts(r, ids, hit, poisoned);
    RestfulReturned(t, log, r, Reclaim(r, ids, true), ids, hit, poisoned);
  }

  lemma ReclaimedParts(r: Table, ids: set<LeaseId>, hit: set<int>, poisoned: set<int>)
    requires hit == HeldBlocks(r, ids) && poisoned == Poisoned(r.cfg, r.attempts, hit)
    ensures var r' := Reclaim(r, ids, true);
            && r'.state == Returned(r.state, hit, poisoned) && r'.leases == r.leases - ids
            && r'.epoch == r.epoch && r'.cfg == r.cfg
  {
    hide HeldBlocks, Poisoned, Returned, Blamed;
  }

  lemma RestfulReturned(t: Table, log: seq<Entry>, r: Table, r': Table, ids: set<LeaseId>, hit: set<int>, poisoned: set<int>)
    requires Restful(t, log, r) && (forall id :: id in t.leases ==> id !in ids) && poisoned <= hit
    requires forall p :: p in hit ==> 0 <= p < |r.state| && r.state[p] == Leased && t.state[p] == Unassigned
    requires r'.state == Returned(r.state, hit, poisoned) && r'.leases == r.leases - ids
    requires r'.epoch == r.epoch && r'.cfg == r.cfg
    ensures Restful(t, log, r')
  {
    hide Grants, FromGrant;
  }

  lemma PoisonedHit(r: Table, hit: set<int>)
    ensures Poisoned(r.cfg, r.attempts, hit) <= hit
  {
  }

  lemma RestfulHit(t: Table, log: seq<Entry>, r: Table, ids: set<LeaseId>)
    requires Inv(r) && Restful(t, log, r) && forall id :: id in t.leases ==> id !in ids
    ensures forall p :: p in HeldBlocks(r, ids) ==> 0 <= p < |r.state| && r.state[p] == Leased && t.state[p] == Unassigned
  {
    forall p | p in HeldBlocks(r, ids) ensures 0 <= p < |r.state| && r.state[p] == Leased && t.state[p] == Unassigned {
      HitIsLeased(r, ids, p);
      var id :| id in ids && id in r.leases && Holds(r.leases[id], p);
      assert FromGrant(t, Grants(log), id, r.leases[id]);
    }
  }

  lemma RestfulEntry(t: Table, log: seq<Entry>, r: Table, e: Entry, floor: real)
    requires Inv(r) && Restful(t, log, r) && e in log && Replayable(e, |r.state|) && CaughtUp(t, log) && !AnyLoose(t, log)
    requires forall id :: id in t.leases ==> !GivesBack(e, t.leases[id].cluster, id)
    requires !e.HeartbeatEntry? && (e.ReapEntry? ==> Reap(r, e.now) == r) && (e.AdvanceEntry? ==> !CanAdvance(r))
    ensures Restful(t, log, Replay(r, e, floor))
  {
    if e.AcquireEntry? {
      AnnounceKeeps(r, e.cluster, e.now);
      var r1 := Announce(r, e.cluster, e.now);
      forall i | 0 <= i < |e.leases| ensures Recordable(e.leases[i], |r.state|) {
        assert e.leases[i] in e.leases;
      }
      EntryGrants(log, e);
      RestfulSame(t, log, r, r1);
      hide *;
      assert e.leases[..|e.leases|] == e.leases;
      RestfulGrants(t, log, r1, e.leases, |e.leases|, floor);
      ReplayedGrant(r, e, floor);
    } else if e.CommitEntry? {
      hide *;
      RestfulCommit(t, log, r, e);
      ReplayedCommit(r, e, floor);
    } else if e.ReleaseEntry? {
      hide *;
      RestfulRelease(t, log, r, e, floor);
    } else {
      hide *;
      NothingMoved(r, e, floor);
      RestfulSame(t, log, r, Replay(r, e, floor));
    }
  }

  lemma ReplayedGrant(r: Table, e: Entry, floor: real)
    requires e.AcquireEntry? && Replayable(e, |r.state|) && AllRecordable(e.leases, |Announce(r, e.cluster, e.now).state|)
    ensures Replay(r, e, floor) == ReplayGrant(Announce(r, e.cluster, e.now), e.leases, floor)
  {
    hide ReplayGrant, Announce;
  }

  lemma RestfulSame(t: Table, log: seq<Entry>, r: Table, r': Table)
    requires Restful(t, log, r) && r'.state == r.state && r'.leases == r.leases && r'.epoch == r.epoch && r'.cfg == r.cfg
    ensures Restful(t, log, r')
  {
    hide Grants;
  }

  lemma {:induction false} RestfulLog(t: Table, log: seq<Entry>, floors: nat -> real, n: nat)
    requires Followed(t, log, floors) && !AnyLoose(t, log) && n <= |log|
    ensures AllReplayable(log[..n], |t.state|)
    ensures var r := ReplayAll(t, log[..n], floors); Inv(r) && Outlives(r, log) && Restful(t, log, r)
    decreases n
  {
    hide *;
    FollowedParts(t, log, floors);
    PrefixReplayable(log, n, |t.state|);
    if n == 0 {
      assert log[..0] == [];
      NothingLogged(t, floors);
      RestfulFirst(t, log);
    } else {
      RestfulLog(t, log, floors, n - 1);
      var r, e := ReplayAll(t, log[..n - 1], floors), log[n - 1];
      assert log[..n][..n - 1] == log[..n - 1];
      LastEntry(t, log[..n], floors);
      FollowedEntry(t, log, floors, n - 1, r);
      if e.ReapEntry? {
        NoneExpired(r, log, e);
      }
      RestfulEntry(t, log, r, e, floors(n - 1));
      ReplayKeeps(r, e, floors(n - 1));
      OutlivesOn(r, e, floors(n - 1), log);
    }
  }

  lemma FollowedParts(t: Table, log: seq<Entry>, floors: nat -> real)
    requires Followed(t, log, floors)
    ensures Inv(t) && AllReplayable(log, |t.state|) && CaughtUp(t, log)
    ensures Outlives(t, log) && forall n: nat :: Passed(log, floors(n))
  {
    hide Inv, AllReplayable, CaughtUp, Outlives, Passed, GivesBack;
  }

  lemma FollowedEntry(t: Table, log: seq<Entry>, floors: nat -> real, n: nat, r: Table)
    requires Followed(t, log, floors) && n < |log| && Restful(t, log, r)
    ensures var e := log[n];
            && e in log && !e.HeartbeatEntry? && (e.AdvanceEntry? ==> !CanAdvance(r))
            && forall id :: id in t.leases ==> !GivesBack(e, t.leases[id].cluster, id)
  {
    hide Inv, AllReplayable, CaughtUp, Outlives, GivesBack, Grants;
    assert log[n] in log && Passed(log, floors(0));
  }

  lemma RestfulFirst(t: Table, log: seq<Entry>)
    ensures Restful(t, log, t)
  {
  }

  /** Releases allowed, as long as they name nothing the table holds: with nothing loose, no commit is
      added. */
  lemma NothingLooseAddsNothing(t: Table, log: seq<Entry>, floors: nat -> real)
    requires Followed(t, log, floors) && !AnyLoose(t, log)
    ensures AllReplayable(log, |t.state|)
    ensures Where(ReplayAll(t, log, floors).state, Committed) == Where(t.state, Committed)
  {
    hide *;
    FollowedParts(t, log, floors);
    RestfulLog(t, log, floors, |log|);
    assert log[..|log|] == log;
    RestfulCommits(t, log, ReplayAll(t, log, floors));
  }

  lemma RestfulCommits(t: Table, log: seq<Entry>, r: Table)
    requires Restful(t, log, r)
    ensures Where(r.state, Committed) == Where(t.state, Committed)
  {
  }
}
