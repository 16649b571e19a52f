/** The coordinator's write-ahead log, and what replaying it does to a lease table. */
module Journals {
  import opened Wrappers
  import opened Intervals
  import opened Arithmetic
  import opened LeaseModel
  import opened LeaseInvariant
  import opened AcquireInvariant
  import opened LeaseRuns
  import opened ExactlyOnce
  import opened DrainSafety

  datatype Entry =
    | RegisterEntry(cluster: ClusterId, digest: string, ranks: int, incarnation: string, now: real)
    | AcquireEntry(cluster: ClusterId, leases: seq<Lease>, now: real)
    | CommitEntry(cluster: ClusterId, lease: LeaseId, through: int, now: real)
    | ReleaseEntry(cluster: ClusterId, target: Option<LeaseId>, now: real)
    | HeartbeatEntry(cluster: ClusterId, progress: map<LeaseId, int>, ttl: real, now: real)
    | ReapEntry(now: real)
    | AdvanceEntry

  // --- replaying --------------------------------------------------------------

  /** A record written for a block space of this size. */
  predicate Replayable(e: Entry, blocks: int) {
    e.AcquireEntry? ==> forall l :: l in e.leases ==> Recordable(l, blocks) && l.cluster == e.cluster
  }

  predicate AllReplayable(journal: seq<Entry>, blocks: int) {
    forall i :: 0 <= i < |journal| ==> Replayable(journal[i], blocks)
  }

  ghost function Announce(t: Table, c: ClusterId, now: real): (r: Table)
    ensures r.state == t.state && c in r.clusters
  {
    OrSame(Register(t, c, "", 0, "", true, now), t)
  }

  ghost function ReplayGrant(t: Table, leases: seq<Lease>, floor: real): (r: Table)
    requires forall i :: 0 <= i < |leases| ==> Recordable(leases[i], |t.state|)
    ensures |r.state| == |t.state|
  {
    if leases == [] then t
    else ReplayLease(ReplayGrant(t, leases[..|leases| - 1], floor), leases[|leases| - 1], floor)
  }

  /** One entry re-applied; an entry whose target is gone is skipped. A grant is re-installed from
      its recorded leases, not decided again. */
  ghost function Replay(t: Table, e: Entry, floor: real): (r: Table)
    requires Replayable(e, |t.state|)
    ensures |r.state| == |t.state|
  {
    match e
    case RegisterEntry(c, digest, ranks, incarnation, now) =>
      OrSame(Register(t, c, digest, ranks, incarnation, false, now), t)
    case AcquireEntry(c, leases, now) => ReplayGrant(Announce(t, c, now), leases, floor)
    case CommitEntry(c, id, through, now) => OrSame(Commit(t, c, id, through, now), t)
    case ReleaseEntry(c, target, now) => Release(t, c, target, "", true)
    case HeartbeatEntry(c, progress, ttl, now) => Heartbeat(t, c, progress, 0.0, 0.0, ttl, now)
    case ReapEntry(now) => Reap(t, now)
    case AdvanceEntry => Advance(t)
  }

  /** The whole log in order; `floors` gives the clock reading, plus grace, at each entry. */
  ghost function ReplayAll(t: Table, journal: seq<Entry>, floors: nat -> real): (r: Table)
    requires AllReplayable(journal, |t.state|)
    ensures |r.state| == |t.state|
  {
    if journal == [] then t
    else
      var n := |journal| - 1;
      Replay(ReplayAll(t, journal[..n], floors), journal[n], floors(n))
  }

  // --- what a coordinator records ---------------------------------------------

  /** A served call, and the entries it appends to the log. */
  ghost predicate Records(t: Table, call: Call, t': Table, entries: seq<Entry>) {
    match call
    case CallRegister(c, digest, ranks, incarnation, check, now) =>
      && Next(t, call, t')
      && entries == if Register(t, c, digest, ranks, incarnation, check, now).Err? then []
                    else [RegisterEntry(c, digest, t'.clusters[c].ranks, t'.clusters[c].incarnation, now)]
    case CallAcquire(a) => exists g :: Acquires(t, a, g, t') && entries == GrantEntries(a, g)
    case CallHeartbeat(_, _, _, _, _, _) => Next(t, call, t') && entries == []
    case CallCommit(c, id, through, now) =>
      && Next(t, call, t')
      && entries == if Commit(t, c, id, through, now).Err? then [] else [CommitEntry(c, id, through, now)]
    case CallRelease(c, target, _, _) =>
      Next(t, call, t') && |entries| == 1 && entries[0].ReleaseEntry? && entries[0].cluster == c && entries[0].target == target
    case CallReap(now) =>
      // the background tick records a reap that returned blocks, at a later reading; a status does not
      && Next(t, call, t')
      && (entries == [] || (|entries| == 1 && entries[0].ReapEntry? && HeldBlocks(t, Expired(t, now)) != {}))
    case CallAdvance => Next(t, call, t') && entries == [AdvanceEntry]
  }

  ghost function GrantEntries(a: AcquireCall, g: Grant): seq<Entry> {
    if g.leases == [] then [] else [AcquireEntry(a.cluster, g.leases, a.now)]
  }

  lemma RecordsIsNext(t: Table, call: Call, t': Table, entries: seq<Entry>)
    requires Records(t, call, t', entries)
    ensures Next(t, call, t') && |entries| <= 1
  {
  }

  ghost predicate IsRecordedRun(trace: seq<Table>, calls: seq<Call>, records: seq<seq<Entry>>) {
    && |trace| == |calls| + 1 == |records| + 1
    && forall i :: 0 <= i < |calls| ==> Records(trace[i], calls[i], trace[i + 1], records[i])
  }

  /** The log after the first k calls. */
  ghost function Logged(records: seq<seq<Entry>>, k: nat): seq<Entry>
    requires k <= |records|
  {
    if k == 0 then [] else Logged(records, k - 1) + records[k - 1]
  }

  lemma RecordedRunIsRun(trace: seq<Table>, calls: seq<Call>, records: seq<seq<Entry>>)
    requires IsRecordedRun(trace, calls, records)
    ensures IsRun(trace, calls)
  {
    forall i | 0 <= i < |calls| ensures Next(trace[i], calls[i], trace[i + 1]) {
      RecordsIsNext(trace[i], calls[i], trace[i + 1], records[i]);
    }
  }

  // --- replaying is safe, whatever the log ------------------------------------

  /** The call an entry stands for; a grant stands for none. */
  function CallOf(e: Entry): Call
    requires !e.AcquireEntry?
  {
    match e
    case RegisterEntry(c, digest, ranks, incarnation, now) => CallRegister(c, digest, ranks, incarnation, false, now)
    case CommitEntry(c, id, through, now) => CallCommit(c, id, through, now)
    case ReleaseEntry(c, target, now) => CallRelease(c, target, "", true)
    case HeartbeatEntry(c, progress, ttl, now) => CallHeartbeat(c, progress, 0.0, 0.0, ttl, now)
    case ReapEntry(now) => CallReap(now)
    case AdvanceEntry => CallAdvance
  }

  lemma ReplayIsCall(t: Table, e: Entry, floor: real)
    requires Replayable(e, |t.state|) && !e.AcquireEntry?
    ensures Next(t, CallOf(e), Replay(t, e, floor))
  {
    hide Register, Commit, Release, Heartbeat, Reap, Advance;
  }

  ghost predicate OnlyTakes(s: seq<BlockState>, s': seq<BlockState>) {
    |s'| == |s| && forall p :: 0 <= p < |s| ==> s'[p] == s[p] || (s[p] == Unassigned && s'[p] == Leased)
  }

  lemma TakingCommitsNothing(s: seq<BlockState>, s': seq<BlockState>)
    requires OnlyTakes(s, s')
    ensures Where(s', Committed) == Where(s, Committed)
  {
  }

  /** Re-installing a grant only takes free positions. */
  lemma {:induction false} ReplayGrantKeeps(t: Table, leases: seq<Lease>, floor: real)
    requires Inv(t) && forall i :: 0 <= i < |leases| ==> Recordable(leases[i], |t.state|) && leases[i].cluster in t.clusters
    ensures var r := ReplayGrant(t, leases, floor);
            && Inv(r) && r.clusters == t.clusters && r.epoch == t.epoch && r.cfg == t.cfg
            && OnlyTakes(t.state, r.state)
  {
    hide Inv, InvPending, ReplayLease;
    if leases != [] {
      var n := |leases| - 1;
      ReplayGrantKeeps(t, leases[..n], floor);
      var before := ReplayGrant(t, leases[..n], floor);
      hide ReplayGrant;
      ReplayLeaseKeeps(before, leases[n], floor);
      ReplayLeaseDrifts(before, leases[n], floor);
    }
  }

  lemma ReplayLeaseDrifts(t: Table, l: Lease, floor: real)
    requires Recordable(l, |t.state|)
    ensures var r := ReplayLease(t, l, floor);
            r.clusters == t.clusters && r.epoch == t.epoch && r.cfg == t.cfg && OnlyTakes(t.state, r.state)
  {
  }

  lemma AnnounceKeeps(t: Table, c: ClusterId, now: real)
    requires Inv(t)
    ensures Inv(Announce(t, c, now)) && Announce(t, c, now).leases == t.leases
    ensures Announce(t, c, now) == t.(clusters := Announce(t, c, now).clusters)
  {
    RegisterKeeps(t, c, "", 0, "", true, now);
  }

  /** Any recorded entry leaves a sound table sound; only an epoch change takes back a commit. */
  lemma ReplayKeeps(t: Table, e: Entry, floor: real)
    requires Inv(t) && Replayable(e, |t.state|)
    ensures var r := Replay(t, e, floor);
            && Inv(r) && r.cfg == t.cfg
            && (r.epoch == t.epoch ==> Where(t.state, Committed) <= Where(r.state, Committed))
            && (r.epoch != t.epoch ==> e.AdvanceEntry? && CanAdvance(t))
  {
    var r := Replay(t, e, floor);
    if e.AcquireEntry? {
      AnnounceKeeps(t, e.cluster, e.now);
      var t1 := Announce(t, e.cluster, e.now);
      hide Inv, InvPending, Announce;
      forall i | 0 <= i < |e.leases| ensures Recordable(e.leases[i], |t1.state|) && e.leases[i].cluster in t1.clusters {
        assert e.leases[i] in e.leases;
      }
      ReplayGrantKeeps(t1, e.leases, floor);
      TakingCommitsNothing(t1.state, r.state);
    } else {
      ReplayIsCall(t, e, floor);
      CallFrame(t, CallOf(e), r);
      hide *;
      NextKeeps(t, CallOf(e), r);
      if e.CommitEntry? { CommitCredits(t, CallOf(e), r); } else { OthersCommitNothing(t, CallOf(e), r); }
    }
  }

  lemma CallFrame(t: Table, call: Call, t': Table)
    requires Next(t, call, t') && !call.CallAcquire?
    ensures t'.cfg == t.cfg && (t'.epoch != t.epoch ==> call.CallAdvance? && CanAdvance(t))
  {
    hide HeldBlocks, Returned, Poisoned, Blamed, Filled, RenewedLeases, Expired;
  }

  /** Replaying any list of records, in any order and with any repetitions, leaves the table
      sound, and within the epoch only adds commits. */
  lemma {:induction false} ReplayAllKeeps(t: Table, journal: seq<Entry>, floors: nat -> real)
    requires Inv(t) && AllReplayable(journal, |t.state|)
    requires CanAdvance(t) ==> AdvanceEntry !in journal
    ensures var r := ReplayAll(t, journal, floors);
            && Inv(r) && r.cfg == t.cfg && r.epoch == t.epoch
            && Where(t.state, Committed) <= Where(r.state, Committed)
  {
    if journal != [] {
      var n := |journal| - 1;
      assert journal[n] in journal && forall e :: e in journal[..n] ==> e in journal;
      ReplayAllKeeps(t, journal[..n], floors);
      hide Inv, InvPending, Replay;
      ReplayKeeps(ReplayAll(t, journal[..n], floors), journal[n], floors(n));
    }
  }

  /** The same without the epoch clause: soundness holds across epoch changes too. */
  lemma {:induction false} ReplayAllSound(t: Table, journal: seq<Entry>, floors: nat -> real)
    requires Inv(t) && AllReplayable(journal, |t.state|)
    ensures Inv(ReplayAll(t, journal, floors))
  {
    if journal != [] {
      var n := |journal| - 1;
      ReplayAllSound(t, journal[..n], floors);
      hide Inv, InvPending, Replay;
      ReplayKeeps(ReplayAll(t, journal[..n], floors), journal[n], floors(n));
    }
  }

  // --- replaying never invents a commit ---------------------------------------

  /** The span each lease id was ever granted. */
  type Ranges = map<LeaseId, Interval>

  ghost predicate Within(leases: map<LeaseId, Lease>, ranges: Ranges) {
    forall id :: id in leases ==>
      id in ranges && ranges[id].lo <= leases[id].start && leases[id].end <= ranges[id].hi
  }

  /** Every commit on record is of positions in `done`: all of its lease's span up to the
      recorded watermark. */
  ghost predicate Justified(e: Entry, ranges: Ranges, done: set<int>) {
    match e
    case AcquireEntry(_, leases, _) =>
      forall l :: l in leases ==> l.id in ranges && ranges[l.id].lo <= l.start && l.end <= ranges[l.id].hi
    case CommitEntry(_, id, through, _) =>
      id in ranges && forall p :: ranges[id].lo <= p < Min(through, ranges[id].hi) ==> p in done
    case _ => true
  }

  ghost predicate AllJustified(journal: seq<Entry>, ranges: Ranges, done: set<int>) {
    forall e :: e in journal ==> Justified(e, ranges, done)
  }

  lemma {:induction false} GrantWithin(t: Table, leases: seq<Lease>, floor: real, ranges: Ranges)
    requires forall i :: 0 <= i < |leases| ==> Recordable(leases[i], |t.state|)
    requires forall l :: l in leases ==> l.id in ranges && ranges[l.id].lo <= l.start && l.end <= ranges[l.id].hi
    requires Within(t.leases, ranges)
    ensures Within(ReplayGrant(t, leases, floor).leases, ranges)
  {
    if leases != [] {
      var n := |leases| - 1;
      assert leases[n] in leases && forall l :: l in leases[..n] ==> l in leases;
      GrantWithin(t, leases[..n], floor, ranges);
    }
  }

  lemma ReplayJustified(t: Table, e: Entry, floor: real, ranges: Ranges, done: set<int>)
    requires Inv(t) && Replayable(e, |t.state|)
    requires Within(t.leases, ranges) && Justified(e, ranges, done)
    ensures Within(Replay(t, e, floor).leases, ranges)
    ensures Where(Replay(t, e, floor).state, Committed) <= Where(t.state, Committed) + done
  {
    var r := Replay(t, e, floor);
    if e.AcquireEntry? {
      AnnounceKeeps(t, e.cluster, e.now);
      var t1 := Announce(t, e.cluster, e.now);
      forall i | 0 <= i < |e.leases| ensures Recordable(e.leases[i], |t1.state|) && e.leases[i].cluster in t1.clusters {
        assert e.leases[i] in e.leases;
      }
      hide Inv, InvPending, Announce;
      GrantWithin(t1, e.leases, floor, ranges);
      ReplayGrantKeeps(t1, e.leases, floor);
      TakingCommitsNothing(t1.state, r.state);
    } else {
      ReplayIsCall(t, e, floor);
      hide Inv, InvPending, Next, Replay, Moves;
      CallMoves(t, CallOf(e), r);
      MovesWithin(t, CallOf(e), r, ranges);
      if e.CommitEntry? {
        CommitJustified(t, e, r, ranges, done);
      } else {
        OthersCommitNothing(t, CallOf(e), r);
      }
    }
  }

  lemma MovesWithin(t: Table, call: Call, t': Table, ranges: Ranges)
    requires AllMove(t, call, t') && Within(t.leases, ranges)
    requires !(exists id :: id in t'.leases && id !in t.leases)
    ensures Within(t'.leases, ranges)
  {
    forall id | id in t'.leases
      ensures id in ranges && ranges[id].lo <= t'.leases[id].start && t'.leases[id].end <= ranges[id].hi
    {
      assert id in t.leases;
      assert Moves(call, id, t.leases[id], t'.leases[id]);
    }
  }

  lemma CommitJustified(t: Table, e: Entry, t': Table, ranges: Ranges, done: set<int>)
    requires Inv(t) && e.CommitEntry? && Next(t, CallOf(e), t')
    requires Within(t.leases, ranges) && Justified(e, ranges, done)
    ensures Where(t'.state, Committed) <= Where(t.state, Committed) + done
  {
    var c, id := e.cluster, e.lease;
    if id in t.leases && t.leases[id].cluster == c {
      CommitShape(t, c, id, e.through, e.now);
      var l := t.leases[id];
      assert LeaseOk(l, id, t.epoch, |t.state|, t.clusters.Keys, t.lastNumber);
      hide Inv, InvPending, Commit;
      assert t'.state == Filled(t.state, l.committedEnd, ClampThrough(l, e.through), Committed);
    }
  }

  /** A log whose commits are justified by `done` adds nothing outside it, in any order and with
      any repetitions. */
  lemma {:induction false} JustifiedReplay(t: Table, journal: seq<Entry>, floors: nat -> real, ranges: Ranges, done: set<int>)
    requires Inv(t) && AllReplayable(journal, |t.state|)
    requires Within(t.leases, ranges) && AllJustified(journal, ranges, done)
    ensures Within(ReplayAll(t, journal, floors).leases, ranges)
    ensures Where(ReplayAll(t, journal, floors).state, Committed) <= Where(t.state, Committed) + done
  {
    if journal != [] {
      var n := |journal| - 1;
      assert journal[n] in journal && forall e :: e in journal[..n] ==> e in journal;
      JustifiedReplay(t, journal[..n], floors, ranges, done);
      ReplayAllSound(t, journal[..n], floors);
      hide Inv, InvPending, Replay, Where, Within, Justified;
      ReplayJustified(ReplayAll(t, journal[..n], floors), journal[n], floors(n), ranges, done);
    }
  }
}
