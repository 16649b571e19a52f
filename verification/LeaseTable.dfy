/** The lease table as the program keeps it: a state array, a free pool, and the leases,
    attempts, counters and cluster records beside them, all updated in place. */
module LeaseTables {
  import opened Wrappers
  import opened Intervals
  import opened FreePool
  import opened Arithmetic
  import opened LeaseModel
  import opened LeaseInvariant
  import opened AcquireInvariant
  import opened LeaseSteps
  import opened Snapshots

  class LeaseTable {
    const cfg: Config
    var epoch: int
    var epochsCompleted: int
    var state: array<BlockState>
    var attempts: map<int, int>
    var free: IntervalSet
    var committed: int
    var quarantined: int
    var leases: map<LeaseId, Lease>
    var clusters: map<ClusterId, ClusterRecord>
    var lastNumber: int

    ghost function Model(): Table
      reads this, state
    {
      Table(cfg, epoch, epochsCompleted, state[..], attempts, committed, quarantined, leases, clusters, lastNumber)
    }

    ghost function Repr(): set<object>
      reads this
    {
      {this, state, free}
    }

    /** The free pool holds the Unassigned positions, bar those an acquire has set aside. */
    ghost predicate Pooled(pending: set<int>)
      reads this, state, free
    {
      free.Valid() && free.Contents() == FreeBlocks(state[..]) - pending
    }

    ghost predicate Valid()
      reads this, state, free
    {
      Pooled({}) && Inv(Model())
    }

    // --- construction and epochs --------------------------------------------------

    constructor (config: Config, epoch: int)
      requires config.numBlocks >= 1
      ensures Pooled({}) && fresh(Repr())
      ensures Model() == NewTable(Normalised(config), epoch)
      ensures cfg == Normalised(config) && this.epoch == epoch
    {
      cfg := Normalised(config);
      this.epoch, epochsCompleted, lastNumber := epoch, 0, 0;
      attempts, leases, clusters := map[], map[], map[];
      committed, quarantined := 0, 0;
      var blank, pool := AllUnassigned(config.numBlocks);
      state, free := blank, pool;
    }

    method ResetEpoch(next: int)
      requires cfg.numBlocks >= 1
      modifies this
      ensures fresh(state) && fresh(free) && Pooled({})
      ensures Model() == old(Model()).(epoch := next, state := seq(cfg.numBlocks, _ => Unassigned), attempts := map[],
                                       committed := 0, quarantined := 0, leases := map[],
                                       clusters := Rewound(old(clusters)))
    {
      hide Pooled, Rewound;
      epoch := next;
      attempts, leases := map[], map[];
      committed, quarantined := 0, 0;
      clusters := Rewound(clusters);
      BlankState();
    }

    method BlankState()
      requires cfg.numBlocks >= 0
      modifies this`state, this`free
      ensures fresh(state) && fresh(free) && Pooled({}) && state[..] == seq(cfg.numBlocks, _ => Unassigned)
    {
      hide IntervalSet.Valid, FreeBlocks;
      state, free := AllUnassigned(cfg.numBlocks);
    }

    /** Start the next epoch; false when the run's epoch budget is spent. */
    method AdvanceEpoch() returns (advanced: bool)
      requires cfg.numBlocks == state.Length >= 1 && Pooled({})
      modifies this
      ensures Pooled({}) && fresh(Repr() - old(Repr()))
      ensures advanced == CanAdvance(old(Model())) && Model() == Advance(old(Model()))
    {
      hide FreeBlocks, IntervalSet.Valid, Rewound;
      if epoch + 1 >= cfg.maxEpochs {
        return false;
      }
      epochsCompleted := epochsCompleted + 1;
      ResetEpoch(epoch + 1);
      return true;
    }

    // --- registration -------------------------------------------------------------

    method Register(c: ClusterId, digest: string, ranks: int, incarnation: string, checkConflict: bool, now: real)
      returns (refused: Option<Refusal>)
      modifies this`clusters
      ensures match LeaseModel.Register(old(Model()), c, digest, ranks, incarnation, checkConflict, now)
              case Ok(t) => refused == None && clusters == t.clusters
              case Err(e) => refused == Some(e) && clusters == old(clusters)
    {
      if digest != "" && cfg.digest != "" && digest != cfg.digest {
        return Some(DigestMismatch);
      }
      var record;
      if c !in clusters {
        record := NewRecord(now);
      } else {
        record := clusters[c];
        if incarnation != "" && record.incarnation != "" && incarnation != record.incarnation {
          if checkConflict {
            if IsLive(cfg, leases, record, c, now) {
              return Some(ClusterBusy);
            }
          }
        }
      }
      if incarnation != "" && incarnation != record.incarnation {
        record := record.(incarnation := incarnation, incarnations := record.incarnations + 1);
      }
      record := record.(lastSeen := now);
      if ranks != 0 {
        record := record.(ranks := ranks);
      }
      clusters := clusters[c := record];
      return None;
    }

    /** What an acquire or a heartbeat does to the record of the cluster that sent it. */
    method Touch(c: ClusterId, macroStep: real, rtt: real, now: real)
      modifies this`clusters
      ensures clusters == Touched(old(Model()), c, macroStep, rtt, now).clusters
    {
      var refused := Register(c, "", 0, "", true, now);
      var record := clusters[c];
      if macroStep != 0.0 {
        record := record.(macroStep := macroStep);
      }
      if rtt != 0.0 {
        record := record.(rtt := rtt);
      }
      clusters := clusters[c := record];
    }

    // --- filling and reclaiming ---------------------------------------------------

    method Fill(start: int, end: int, v: BlockState)
      requires 0 <= start <= end <= state.Length
      modifies state
      ensures state[..] == Filled(old(state[..]), start, end, v)
    {
      var p := start;
      while p < end
        invariant start <= p <= end
        invariant forall q :: 0 <= q < state.Length ==> state[q] == if start <= q < p then v else old(state[q])
      {
        state[p] := v;
        p := p + 1;
      }
    }

    /** Charge every position of [lo, hi) with an attempt, quarantining the exhausted ones;
        returns the runs between them. */
    method CountAttempts(lo: int, hi: int, counted: bool) returns (runs: seq<Interval>)
      requires 0 <= lo <= hi <= state.Length
      modifies this`attempts, this`quarantined, state
      ensures var poisoned := if counted then Poisoned(cfg, old(attempts), Range(lo, hi)) else {};
              && state[..] == Returned(old(state[..]), {}, poisoned)
              && attempts == (if counted then Blamed(old(attempts), Range(lo, hi)) else old(attempts))
              && quarantined == old(quarantined) + |poisoned|
              && RunsBetween(runs, lo, hi, poisoned)
    {
      hide Range, Blamed, Poisoned, Returned, SpanBlocks, Exhausted, RunsBetween, AttemptsOf;
      ghost var a0, s0 := attempts, state[..];
      ghost var poisoned := {};
      runs := [];
      var runStart, position := lo, lo;
      NoneCounted(cfg, a0, s0, lo);
      while position < hi
        invariant lo <= runStart <= position <= hi
        invariant poisoned == if counted then Poisoned(cfg, a0, Range(lo, position)) else {}
        invariant state[..] == Returned(s0, {}, poisoned)
        invariant attempts == if counted then Blamed(a0, Range(lo, position)) else a0
        invariant quarantined == old(quarantined) + |poisoned|
        invariant RunsBetween(runs, lo, runStart, poisoned)
        invariant poisoned !! Range(runStart, position)
      {
        NextCounted(cfg, a0, s0, lo, runStart, position, poisoned);
        if counted {
          var gone := ChargeAttempt(position);
          if gone {
            RunsClose(runs, lo, runStart, position, poisoned);
            if runStart < position {
              runs := runs + [Interval(runStart, position)];
            }
            runStart := position + 1;
            poisoned := poisoned + {position};
          }
        }
        position := position + 1;
      }
      if runStart < hi {
        RunsAppend(runs, lo, runStart, hi, poisoned);
        runs := runs + [Interval(runStart, hi)];
      }
    }

    /** Uncommitted tail back to the pool (or to quarantine), lease gone; returns its length. */
    method Reclaim(id: LeaseId, counted: bool) returns (returned: int)
      requires id in leases && 0 <= leases[id].committedEnd <= leases[id].end <= state.Length
      requires forall p :: leases[id].committedEnd <= p < leases[id].end ==> state[p] == Leased
      requires Pooled({})
      modifies this`leases, this`attempts, this`quarantined, state, free
      ensures Pooled({}) && Model() == LeaseModel.Reclaim(old(Model()), {id}, counted)
      ensures returned == |HeldBlocks(old(Model()), {id})|
    {
      hide HeldBlocks, FreeBlocks, Blamed, Range, Returned, Poisoned, SpanBlocks, Disjoint, IntervalSet.Valid,
           LeaseModel.Reclaim;
      var lo, hi := leases[id].committedEnd, leases[id].end;
      OneLeaseReclaimed(Model(), id, counted);
      leases := leases - {id};
      var runs := CountAttempts(lo, hi, counted);
      ReturnRuns(runs);
      returned := hi - lo;
    }

    method ReclaimAll(ids: set<LeaseId>, counted: bool) returns (returned: int)
      requires Valid() && ids <= leases.Keys
      modifies this`leases, this`attempts, this`quarantined, state, free
      ensures Pooled({}) && Model() == LeaseModel.Reclaim(old(Model()), ids, counted)
      ensures returned == |HeldBlocks(old(Model()), ids)|
    {
      ghost var t, done := Model(), {};
      var todo := ids;
      NoneReclaimed(t, counted);
      hide HeldBlocks, LeaseModel.Reclaim, Inv, InvPending, Pooled;
      returned := 0;
      while todo != {}
        invariant todo + done == ids && todo !! done
        invariant Pooled({}) && Model() == LeaseModel.Reclaim(t, done, counted)
        invariant returned == |HeldBlocks(t, done)|
        decreases |todo|
      {
        var id :| id in todo;
        NextReclaimed(t, done, id, counted);
        var n := Reclaim(id, counted);
        returned := returned + n;
        todo, done := todo - {id}, done + {id};
      }
      assert done == ids;
    }

    /** Return every overdue lease's uncommitted blocks to the pool. */
    method Reap(now: real) returns (reclaimed: int)
      requires Valid()
      modifies this`leases, this`attempts, this`quarantined, state, free
      ensures Pooled({}) && Model() == LeaseModel.Reap(old(Model()), now)
      ensures reclaimed == |HeldBlocks(old(Model()), Expired(old(Model()), now))|
    {
      hide LeaseModel.Reclaim, HeldBlocks, Inv, InvPending, Pooled;
      var expired := set id | id in leases && leases[id].deadline < now;
      assert expired == Expired(Model(), now);
      reclaimed := ReclaimAll(expired, true);
    }

    /** Give back the uncommitted tail of one lease, or of every lease of the cluster. */
    method Release(c: ClusterId, lease: Option<LeaseId>, incarnation: string, counted: bool) returns (returned: int)
      requires Valid()
      modifies this`leases, this`attempts, this`quarantined, state, free
      ensures Pooled({}) && Model() == LeaseModel.Release(old(Model()), c, lease, incarnation, counted)
      ensures returned == |HeldBlocks(old(Model()), ReleaseTargets(old(Model()), c, lease, incarnation))|
    {
      NoneReclaimed(Model(), counted);
      hide LeaseModel.Reclaim, HeldBlocks, Inv, InvPending, Pooled;
      var targets;
      if lease.Some? {
        targets := {lease.value};
      } else {
        targets := set id | id in leases && leases[id].cluster == c;
        if incarnation != "" && c in clusters && clusters[c].incarnation != "" && incarnation != clusters[c].incarnation {
          return 0;
        }
      }
      targets := set id | id in targets && id in leases && leases[id].cluster == c;
      assert targets == ReleaseTargets(Model(), c, lease, incarnation);
      returned := ReclaimAll(targets, counted);
    }

    // --- heartbeat and commit -----------------------------------------------------

    /** Refresh this cluster's leases and report the authoritative view back. */
    method Heartbeat(c: ClusterId, progress: map<LeaseId, int>, macroStep: real, rtt: real, ttl: real, now: real)
      returns (renewed: real, views: map<LeaseId, LeaseView>, epochComplete: bool)
      requires Valid()
      modifies this`leases, this`attempts, this`quarantined, this`clusters, state, free
      ensures Pooled({}) && Model() == LeaseModel.Heartbeat(old(Model()), c, progress, macroStep, rtt, ttl, now)
      ensures renewed == GrantedTtl(cfg, clusters[c], ttl)
      ensures views == Views(leases, epoch, c, progress.Keys)
      ensures epochComplete == EpochDone(Model())
    {
      hide LeaseModel.Reap, HeldBlocks, Inv, InvPending, Expired;
      var reclaimed := Reap(now);
      Touch(c, macroStep, rtt, now);
      ghost var t := Model();
      renewed := MinReal(MAX_TTL, MaxReal(cfg.minTtl,
                   if ttl != 0.0 then ttl else ComputeTtl(clusters[c].macroStep, clusters[c].rtt)));
      views := RenewAll(c, progress, renewed, now);
      epochComplete := committed + quarantined >= cfg.numBlocks;
    }

    method RenewAll(c: ClusterId, progress: map<LeaseId, int>, ttl: real, now: real)
      returns (views: map<LeaseId, LeaseView>)
      modifies this`leases
      ensures Model() == Renew(old(Model()), c, progress, ttl, now)
      ensures views == Views(leases, epoch, c, progress.Keys)
    {
      ghost var leases0, done := leases, {};
      var todo := progress.Keys;
      views := map[];
      hide RenewedLeases, Renewed, View, Views;
      RenewedViews(leases0, c, epoch, progress, ttl, now);
      while todo != {}
        invariant todo + done == progress.Keys && todo !! done
        invariant leases == RenewedLeases(leases0, c, epoch, progress, done, ttl, now)
        invariant views == Views(leases0, epoch, c, done)
        decreases |todo|
      {
        var id :| id in todo;
        NextRenewed(leases0, c, epoch, progress, done, id, ttl, now);
        var view := RenewOne(c, id, progress[id], ttl, now);
        views := views[id := view];
        todo, done := todo - {id}, done + {id};
      }
      assert done == progress.Keys;
    }

    method RenewOne(c: ClusterId, id: LeaseId, watermark: int, ttl: real, now: real) returns (view: LeaseView)
      modifies this`leases
      ensures leases == if id in old(leases) && old(leases)[id].cluster == c && old(leases)[id].epoch == epoch
                        then old(leases)[id := Renewed(old(leases)[id], watermark, ttl, now)] else old(leases)
      ensures view == View(old(leases), epoch, c, id)
    {
      if id !in leases || leases[id].cluster != c || leases[id].epoch != epoch {
        return Lost;
      }
      var l := Renewed(leases[id], watermark, ttl, now);
      leases := leases[id := l];
      return Held(l.end, l.committedEnd);
    }

    /** Mark [committedEnd, through) durably processed. */
    method Commit(c: ClusterId, id: LeaseId, through: int, now: real) returns (r: Result<CommitReply, Refusal>)
      requires Valid()
      modifies this`leases, this`committed, this`clusters, state
      ensures Pooled({})
      ensures match LeaseModel.Commit(old(Model()), c, id, through, now)
              case Ok(t) => r == Ok(ReplyTo(old(Model()), id, through, t)) && Model() == t
              case Err(e) => r == Err(e) && Model() == old(Model())
    {
      if id !in leases {
        return Err(LeaseGone);
      }
      var l := leases[id];
      if l.cluster != c {
        return Err(NotOwner);
      }
      hide Inv, InvPending, LeaseModel.Commit, Pooled;
      assert LeaseModel.Commit(Model(), c, id, through, now).Ok? by { CommitOutcome(Model(), c, id, through, now); }
      var reply := CommitOwned(c, id, through, now);
      return Ok(reply);
    }

    method CommitOwned(c: ClusterId, id: LeaseId, through: int, now: real) returns (reply: CommitReply)
      requires Valid() && id in leases && leases[id].cluster == c
      modifies this`leases, this`committed, this`clusters, state
      ensures Pooled({})
      ensures LeaseModel.Commit(old(Model()), c, id, through, now) == Ok(Model())
      ensures reply == ReplyTo(old(Model()), id, through, Model())
    {
      hide Filled, FreeBlocks, Inv, InvPending, LeaseModel.Commit, Credited, ClampThrough, AfterCommit;
      ghost var t := Model();
      CommitOutcome(t, c, id, through, now);
      var l := leases[id];
      var to := ClampThrough(l, through);
      var newly := to - l.committedEnd;
      if newly != 0 {
        CommitNewly(c, id, to, now);
        l := l.(committedEnd := to);
      }
      var closed := l.committedEnd >= l.end;
      reply := CommitReply(epoch, l.committedEnd, closed, committed, committed + quarantined >= cfg.numBlocks);
    }

    /** The blocks up to `to` become committed, and the lease closes when none is left. */
    method CommitNewly(c: ClusterId, id: LeaseId, to: int, now: real)
      requires id in leases && 0 <= leases[id].committedEnd < to <= leases[id].end <= state.Length && c in clusters
      modifies this`leases, this`committed, this`clusters, state
      ensures var t := old(Model()); var l := t.leases[id];
              Model() == t.(state := Filled(t.state, l.committedEnd, to, Committed),
                            committed := t.committed + (to - l.committedEnd),
                            leases := AfterCommit(t.leases, id, to),
                            clusters := t.clusters[c := Credited(t.clusters[c], to - l.committedEnd, now)])
    {
      var l := leases[id];
      var newly := to - l.committedEnd;
      Fill(l.committedEnd, to, Committed);
      committed := committed + newly;
      clusters := clusters[c := Credited(clusters[c], newly, now)];
      l := l.(committedEnd := to, progressEnd := Max(l.progressEnd, to));
      if l.committedEnd >= l.end {
        leases := leases - {id};
      } else {
        leases := leases[id := l];
      }
    }

    /** Hand runs of a reclaimed lease back to the pool. */
    method ReturnRuns(runs: seq<Interval>)
      requires free.Valid() && Disjoint(runs) && free.Contents() !! SpanBlocks(runs)
      requires forall i :: 0 <= i < |runs| ==> 0 <= runs[i].lo < runs[i].hi <= state.Length
      modifies state, free
      ensures state[..] == Returned(old(state[..]), SpanBlocks(runs), {})
      ensures free.Valid() && free.Contents() == old(free.Contents()) + SpanBlocks(runs)
    {
      hide Returned, SpanBlocks, Range, Filled, Disjoint, IntervalSet.Valid;
      ghost var s0, pool := state[..], free.Contents();
      NoRuns(runs, s0, pool);
      var j := 0;
      while j < |runs|
        invariant 0 <= j <= |runs|
        invariant state[..] == Returned(s0, SpanBlocks(runs[..j]), {})
        invariant free.Valid() && free.Contents() == pool + SpanBlocks(runs[..j])
      {
        NextRun(runs, j, s0, pool);
        Fill(runs[j].lo, runs[j].hi, Unassigned);
        var raised := free.Add(runs[j].lo, runs[j].hi);
        j := j + 1;
      }
      assert runs[..j] == runs;
    }

    // --- sizing a grant -----------------------------------------------------------

    method GrantSize(c: ClusterId, requested: int, clock: real) returns (size: int)
      requires Pooled({}) && c in clusters
      ensures size == LeaseModel.GrantSize(Model(), c, requested, clock)
    {
      assert free.total == |FreeBlocks(state[..])| by { assert FreeBlocks(state[..]) - {} == FreeBlocks(state[..]); }
      hide Pooled, ActiveClusters, FreeBlocks, FairShare, Scaled;
      size := Max(cfg.minBlocks, requested);
      if clusters[c].blocksCommitted == 0 {
        size := Max(cfg.minBlocks, Scaled(size, cfg.firstGrantFraction, 1.0));
      }
      size := Min(size, cfg.maxBlocks);
      assert size == Capped(cfg, clusters[c], requested);
      hide Capped;
      var active := ActiveClusters(cfg, leases, clusters, clock);
      ActiveAreKnown(cfg, leases, clusters, clock, c);
      if free.total != 0 && size > free.total / Max(1, |active|) {
        var share := Share(c, active);
        size := Max(cfg.minBlocks, Min(size, Max(share, cfg.minBlocks)));
      }
    }

    method Share(c: ClusterId, active: set<ClusterId>) returns (share: int)
      requires c in clusters && active <= clusters.Keys && active != {}
      ensures share == FairShare(Model(), c, free.total, active)
    {
      var totalRate := TotalRate(active);
      var rate := if c in active then RateOf(clusters, c) else 0.000001;
      share := Scaled(free.total, rate, totalRate);
    }

    method TotalRate(active: set<ClusterId>) returns (total: real)
      requires active <= clusters.Keys
      ensures total == SumRates(clusters, active)
    {
      total := 0.0;
      var todo := active;
      while todo != {}
        invariant todo <= active && total + SumRates(clusters, todo) == SumRates(clusters, active)
        decreases |todo|
      {
        var c :| c in todo;
        SumRatesRemove(clusters, todo, c);
        total := total + RateOf(clusters, c);
        todo := todo - {c};
      }
    }

    // --- stealing -----------------------------------------------------------------

    /** Leases worth robbing, the one that will finish last first. */
    method SortedCandidates(thief: ClusterId) returns (order: seq<LeaseId>)
      ensures SortedFor(cfg, leases, clusters, thief, order)
    {
      order := [];
      var candidates := set id | id in leases && Candidate(cfg, leases, thief, id);
      var todo := candidates;
      while todo != {}
        invariant todo <= candidates && forall id :: id in order <==> id in candidates && id !in todo
        invariant RobbingOrder(leases, clusters, order)
        decreases |todo|
      {
        var id :| id in todo;
        var k := 0;
        while k < |order| && !Slower(clusters, leases[id], leases[order[k]])
          invariant 0 <= k <= |order|
          invariant forall i :: 0 <= i < k ==> !Slower(clusters, leases[id], leases[order[i]])
        {
          k := k + 1;
        }
        InsertSorted(leases, clusters, order, k, id);
        order := order[..k] + [id] + order[k..];
        todo := todo - {id};
      }
    }

    /** Take unstarted tails from the clusters that will finish last. */
    method Steal(thief: ClusterId, want: int) returns (spans: seq<Interval>, ghost victims: seq<LeaseId>)
      requires ConfigOk(cfg)
      modifies this`leases
      ensures StoleFrom(old(Model()), thief, want, victims, spans, Model())
    {
      ghost var t := Model();
      var order := SortedCandidates(thief);
      hide Amounts, CutShort, SortedFor, SpanTotal;
      spans, victims := [], [];
      NothingStolen(t, want);
      var taken, i := 0, 0;
      while i < |order| && taken < want
        invariant 0 <= i <= |order| && taken == SpanTotal(spans)
        invariant |victims| <= i && victims == order[..|victims|]
        invariant |victims| < i ==> want - taken < cfg.stealMinBlocks
        invariant Amounts(t, want, victims, spans) && CutShort(t.leases, leases, victims, spans)
      {
        var id := order[i];
        NotYetRobbed(t, thief, order, victims, spans, leases, i);
        var amount := Min(want - taken, Max(cfg.stealMinBlocks, Stealable(leases[id]) / 2));
        var cut := Max(leases[id].end - amount, Unstarted(leases[id]));
        if leases[id].end - cut >= cfg.stealMinBlocks {
          OneMoreStolen(t, want, id, victims, spans, leases);
          spans := spans + [Interval(cut, leases[id].end)];
          victims := victims + [id];
          taken := taken + (leases[id].end - cut);
          leases := leases[id := leases[id].(end := cut)];
        }
        i := i + 1;
      }
      RobbedInOrder(t, thief, order, victims, i, want, taken);
    }

    // --- granting -----------------------------------------------------------------

    method InstallOne(c: ClusterId, s: Interval, ttl: real, now: real, ghost pending: set<int>) returns (l: Lease)
      requires cfg.numBlocks != 0 && c in clusters
      requires Pooled(pending) && Range(s.lo, s.hi) <= pending && 0 <= s.lo <= s.hi <= state.Length
      modifies this`lastNumber, this`leases, this`clusters, state
      ensures Model() == LeaseModel.InstallOne(old(Model()), c, s, ttl, now)
      ensures l == NewLease(old(Model()), c, s, old(lastNumber) + 1, ttl, now)
      ensures Pooled(pending - Range(s.lo, s.hi))
    {
      hide Filled, FreeBlocks, Range, IntervalSet.Valid;
      PoolAfterGrant(state[..], s.lo, s.hi, pending);
      lastNumber := lastNumber + 1;
      l := Lease(Issued(epoch, s.lo, lastNumber), c, epoch, s.lo, s.hi, s.lo, s.lo, now, now + ttl, ttl);
      Fill(s.lo, s.hi, Leased);
      leases := leases[l.id := l];
      clusters := clusters[c := clusters[c].(cursor := s.hi % cfg.numBlocks)];
    }

    method InstallAll(c: ClusterId, spans: seq<Interval>, ttl: real, now: real) returns (granted: seq<Lease>)
      requires cfg.numBlocks != 0 && c in clusters && Pooled(SpanBlocks(spans)) && Disjoint(spans)
      requires forall i :: 0 <= i < |spans| ==> 0 <= spans[i].lo < spans[i].hi <= state.Length
      modifies this`lastNumber, this`leases, this`clusters, state
      ensures Model() == Install(old(Model()), c, spans, ttl, now)
      ensures granted == NewLeases(old(Model()), c, spans, ttl, now)
      ensures Pooled({})
    {
      hide SpanBlocks, Pooled, LeaseModel.InstallOne, Range;
      ghost var t := Model();
      granted := [];
      var k := 0;
      assert spans[..0] == [] && spans[0..] == spans;
      while k < |spans|
        invariant 0 <= k <= |spans| && c in clusters
        invariant Model() == Install(t, c, spans[..k], ttl, now)
        invariant granted == NewLeases(t, c, spans[..k], ttl, now)
        invariant Pooled(SpanBlocks(spans[k..]))
      {
        RestOfSpans(spans, k + 1);
        NextInstalled(t, c, spans, k, ttl, now);
        var l := InstallOne(c, spans[k], ttl, now, SpanBlocks(spans[k..]));
        granted := granted + [l];
        k := k + 1;
      }
      assert spans[..k] == spans;
      assert SpanBlocks(spans[k..]) == {} by { NoSpans(spans[k..]); }
    }

    method Outstanding() returns (blocks: int)
      requires Inv(Model())
      ensures blocks >= 0 && (blocks == 0 <==> leases == map[])
    {
      EveryLeaseHolds(Model());
      hide Inv, InvPending;
      blocks := 0;
      var todo := leases.Keys;
      while todo != {}
        invariant todo <= leases.Keys && blocks >= 0 && (blocks == 0 <==> todo == leases.Keys)
        decreases |todo|
      {
        var id :| id in todo;
        blocks := blocks + (leases[id].end - leases[id].committedEnd);
        todo := todo - {id};
      }
      assert leases == map[] <==> leases.Keys == {};
    }

    /** Choose spans: from the pool if it gives any, else by stealing. */
    method Allot(c: ClusterId, want: int, maxSpans: int) returns (spans: seq<Interval>)
      requires Valid() && c in clusters
      modifies this`leases, free
      ensures Allots(old(Model()), c, want, maxSpans, spans, Model())
      ensures Pooled(SpanBlocks(spans))
    {
      hide Inv, InvPending, FreeBlocks, StoleFrom, Cut, IntervalSet.Valid, ConfigOk;
      assert ConfigOk(cfg) by { HasBlocks(Model()); }
      assert FreeBlocks(state[..]) - {} == FreeBlocks(state[..]);
      StolenAreLeased(Model(), c, want);
      spans := free.TakeNear(clusters[c].cursor, want, maxSpans);
      if spans == [] {
        assert SpanBlocks(spans) == {} by { NoSpans(spans); }
        if cfg.allowStealing {
          ghost var victims;
          spans, victims := Steal(c, want);
        }
      }
    }

    method Serve(a: AcquireCall) returns (g: Grant)
      requires Valid() && a.cluster in clusters
      modifies this`leases, this`clusters, this`lastNumber, state, free
      ensures exists spans, t1 :: Serves(old(Model()), a, spans, t1, g, Model())
      ensures Pooled({})
    {
      hide Inv, InvPending, Allots, LeaseModel.GrantSize, Pooled, SpanBlocks, Install, NewLeases;
      ghost var t := Model();
      var want := GrantSize(a.cluster, a.blocks, a.clock);
      var spans := Allot(a.cluster, want, a.maxSpans);
      ghost var t1 := Model();
      AllotKeeps(t, a.cluster, want, a.maxSpans, spans, t1);
      AllottedInRange(t1, spans);
      assert cfg.numBlocks != 0 by { HasBlocks(t); }
      if spans == [] {
        var outstanding := Outstanding();
        g := Grant(if outstanding != 0 then Drain else EpochComplete, epoch, []);
        assert SpanBlocks(spans) == {} by { NoSpans(spans); }
      } else {
        var record := clusters[a.cluster];
        var ttl := if a.ttl == 0.0 then ComputeTtl(record.macroStep, record.rtt) else a.ttl;
        ttl := MinReal(MAX_TTL, MaxReal(cfg.minTtl, ttl));
        var granted := InstallAll(a.cluster, spans, ttl, a.now);
        g := Grant(Granted, epoch, granted);
      }
      assert Serves(t, a, spans, t1, g, Model());
    }

    method Prepare(a: AcquireCall)
      requires Valid()
      modifies this`leases, this`attempts, this`quarantined, this`clusters, state, free
      ensures Pooled({}) && Model() == Prepared(old(Model()), a)
    {
      hide Inv, InvPending, LeaseModel.Reap, HeldBlocks, Expired, FreeBlocks, IntervalSet.Valid;
      var reclaimed := Reap(a.now);
      Touch(a.cluster, a.macroStep, a.rtt, a.now);
    }

    /** A finished epoch with nothing held rolls over, unless the budget is spent. */
    method Roll() returns (over: bool)
      requires Valid()
      modifies this
      ensures Valid() && fresh(Repr() - old(Repr()))
      ensures over == (Finished(old(Model())) && !CanAdvance(old(Model())))
      ensures Model() == if over then old(Model()) else Rolled(old(Model()))
    {
      assert cfg.numBlocks == state.Length >= 1;
      RolledKeeps(Model());
      hide Inv, InvPending, Pooled, Advance;
      over := false;
      if committed + quarantined >= cfg.numBlocks && leases == map[] {
        var advanced := AdvanceEpoch();
        over := !advanced;
      }
    }

    /** Atomically move blocks from UNASSIGNED to LEASED for this cluster. */
    method Acquire(a: AcquireCall) returns (g: Grant)
      requires Valid()
      modifies Repr()
      ensures Acquires(old(Model()), a, g, Model())
      ensures Pooled({}) && fresh(Repr() - old(Repr()))
    {
      hide Inv, InvPending, Prepared, AcquiresReady, Pooled;
      PreparedKeeps(Model(), a);
      Prepare(a);
      g := AcquireReady(a);
    }

    method AcquireReady(a: AcquireCall) returns (g: Grant)
      requires Valid() && a.cluster in clusters
      modifies Repr()
      ensures AcquiresReady(old(Model()), a, g, Model())
      ensures Pooled({}) && fresh(Repr() - old(Repr()))
    {
      hide Inv, InvPending, Serves, Pooled, Rolled, AcquiresReady, Finished, CanAdvance;
      HasBlocks(Model());
      ghost var t := Model();
      var over := Roll();
      if over {
        g := Grant(EpochComplete, epoch, []);
      } else {
        g := Serve(a);
      }
      ReadyAnswered(t, a, over, g, Model());
    }

    // --- replaying a recorded grant -----------------------------------------------

    /** The first run of free positions in [start, end). */
    method FindRun(start: int, end: int) returns (lo: int, hi: int)
      requires 0 <= start <= end <= state.Length
      ensures lo == FirstFree(state[..], start, end) && hi == FreeRunEnd(state[..], lo, end)
      ensures start <= lo <= hi <= end
    {
      var position := start;
      while position < end && state[position] != Unassigned
        invariant start <= position <= end
        invariant FirstFree(state[..], start, end) == FirstFree(state[..], position, end)
      {
        position := position + 1;
      }
      lo := position;
      while position < end && state[position] == Unassigned
        invariant lo <= position <= end
        invariant FreeRunEnd(state[..], lo, end) == FreeRunEnd(state[..], position, end)
      {
        position := position + 1;
      }
      hi := position;
    }

    /** Re-install a lease from the write-ahead log, clamped to what is still free. The pool
        never refuses the range. */
    method ReplayLease(l: Lease, floor: real) returns (installed: bool)
      requires Valid() && Recordable(l, state.Length)
      modifies this`leases, this`lastNumber, state, free
      ensures Model() == LeaseModel.ReplayLease(old(Model()), l, floor) && Pooled({})
      ensures installed <==> leases != old(leases)
    {
      if l.epoch != epoch || l.id in leases {
        return false;
      }
      hide Inv, InvPending, IntervalSet.Valid, FreeBlocks, Leasing, Reinstated;
      var lo, hi := FindRun(l.start, l.end);
      if hi <= lo {
        return false;
      }
      Reinstate(l, lo, hi, floor);
      return true;
    }

    method Reinstate(l: Lease, lo: int, hi: int, floor: real)
      requires Pooled({}) && 0 <= lo < hi <= state.Length && l.id !in leases
      requires forall p :: lo <= p < hi ==> state[p] == Unassigned
      modifies this`leases, this`lastNumber, state, free
      ensures Model() == Leasing(old(Model()), Reinstated(l, lo, hi, floor), Max(old(lastNumber), NumberOf(l.id)))
      ensures Pooled({})
    {
      hide Filled, FreeBlocks, Range, IntervalSet.Valid, NumberOf;
      PoolBeforeReplay(state[..], lo, hi);
      var raised := free.Remove(lo, hi);
      assert !raised;
      Fill(lo, hi, Leased);
      var lease := l.(start := lo, end := hi, committedEnd := lo,
                      progressEnd := Min(Max(l.progressEnd, lo), hi), deadline := MaxReal(l.deadline, floor));
      leases := leases[l.id := lease];
      lastNumber := Max(lastNumber, NumberOf(l.id));
    }

    // --- the executable invariant ---------------------------------------------------

    /** Assert the invariants over the whole block space; None stands for a failed assertion. */
    method Verify() returns (counts: Option<Counts>)
      requires state.Length == cfg.numBlocks
      ensures counts.Some? <==> Verified(Model(), free.total)
      ensures counts.Some? ==> counts.value == CountsOf(state[..])
    {
      hide LeasesVerified, Where, HeldBlocks, SumCommitted;
      var c := CountStates();
      var held := CoverLeases();
      if held.None? {
        return None;
      }
      if held.value != c.leased || free.total != c.unassigned || c.committed != committed || c.quarantined != quarantined {
        return None;
      }
      var byCluster := CommittedByClusters();
      if byCluster < committed {
        return None;
      }
      StatesPartition(state[..]);
      if c.unassigned + c.leased + c.committed + c.quarantined != cfg.numBlocks {
        return None;
      }
      return Some(c);
    }

    method CountStates() returns (c: Counts)
      ensures c == CountsOf(state[..])
    {
      hide Where;
      c := Counts(0, 0, 0, 0);
      var p := 0;
      assert state[..p] == [];
      NoStates();
      while p < state.Length
        invariant 0 <= p <= state.Length && c == CountsOf(state[..p])
      {
        NextState(state[..p], state[p]);
        assert state[..p + 1] == state[..p] + [state[p]];
        c := match state[p]
          case Unassigned => c.(unassigned := c.unassigned + 1)
          case Leased => c.(leased := c.leased + 1)
          case Committed => c.(committed := c.committed + 1)
          case Quarantined => c.(quarantined := c.quarantined + 1);
        p := p + 1;
      }
      assert state[..p] == state[..];
    }

    /** At most one lease covers any position, and each is marked LEASED; returns how many. */
    method CoverLeases() returns (held: Option<nat>)
      requires state.Length == cfg.numBlocks
      ensures held.Some? <==> LeasesVerified(Model(), leases.Keys)
      ensures held.Some? ==> held.value == |HeldBlocks(Model(), leases.Keys)|
    {
      var covered := new bool[cfg.numBlocks](_ => false);
      ghost var t, done := Model(), {};
      var todo := leases.Keys;
      NothingCovered(t, covered[..]);
      hide LeasesVerified, CoversExactly, HeldBlocks;
      while todo != {}
        invariant todo + done == leases.Keys && todo !! done
        invariant Model() == t && covered.Length == cfg.numBlocks
        invariant LeasesVerified(t, done) && CoversExactly(covered[..], t, done)
        decreases |todo|
      {
        var id :| id in todo;
        var ok := CoverNext(id, covered, done);
        if !ok {
          return None;
        }
        todo, done := todo - {id}, done + {id};
      }
      assert done == leases.Keys;
      var n := CountTrue(covered);
      CoveredCount(t, covered[..], done);
      return Some(n);
    }

    method CoverNext(id: LeaseId, covered: array<bool>, ghost done: set<LeaseId>) returns (ok: bool)
      requires covered.Length == state.Length == cfg.numBlocks
      requires id in leases && id !in done && done <= leases.Keys
      requires LeasesVerified(Model(), done) && CoversExactly(covered[..], Model(), done)
      modifies covered
      ensures ok ==> LeasesVerified(Model(), done + {id}) && CoversExactly(covered[..], Model(), done + {id})
      ensures !ok ==> !LeasesVerified(Model(), leases.Keys)
    {
      var l := leases[id];
      LeaseNotVerified(Model(), id);
      hide LeasesVerified, CoversExactly;
      if l.epoch != epoch {
        return false;
      }
      if !(0 <= l.start <= l.committedEnd <= l.end <= cfg.numBlocks) {
        return false;
      }
      NextCovered(Model(), covered[..], done, id);
      ok := CoverLease(l.committedEnd, l.end, covered);
    }

    method CoverLease(lo: int, hi: int, covered: array<bool>) returns (ok: bool)
      requires 0 <= lo <= hi <= covered.Length == state.Length
      modifies covered
      ensures ok <==> forall p :: lo <= p < hi ==> !old(covered[p]) && state[p] == Leased
      ensures ok ==> covered[..] == Marked(old(covered[..]), lo, hi)
    {
      var p := lo;
      while p < hi
        invariant lo <= p <= hi
        invariant covered[..] == Marked(old(covered[..]), lo, p)
        invariant forall q :: lo <= q < p ==> !old(covered[q]) && state[q] == Leased
      {
        assert covered[p] == old(covered[..])[p];
        if covered[p] {
          return false;
        }
        covered[p] := true;
        if state[p] != Leased {
          return false;
        }
        p := p + 1;
      }
      return true;
    }

    method CommittedByClusters() returns (total: int)
      ensures total == SumCommitted(clusters)
    {
      total := 0;
      var todo := clusters;
      while todo != map[]
        invariant todo.Keys <= clusters.Keys && total + SumCommitted(todo) == SumCommitted(clusters)
        invariant forall c :: c in todo ==> todo[c] == clusters[c]
        decreases |todo|
      {
        var c :| c in todo;
        SumRemove(todo, c);
        total := total + clusters[c].blocksCommitted;
        todo := todo - {c};
      }
    }

    // --- durability -----------------------------------------------------------------

    /** The full state, with the block array run-length encoded. */
    method Snapshot() returns (s: Snapshot)
      requires Valid()
      ensures IsSnapshot(Model(), s)
    {
      var runs := EncodeState();
      LeasesNamed(Model());
      hide *;
      var listed := ListLeases();
      s := Snapshots.Snapshot(cfg, epoch, epochsCompleted, committed, quarantined, lastNumber, runs, attempts,
                              listed, SaveClusters(clusters));
      Saved(Model(), s);
    }

    method ListLeases() returns (listed: seq<Lease>)
      requires forall id :: id in leases ==> leases[id].id == id
      ensures Lists(leases, listed)
    {
      listed := [];
      var todo := leases.Keys;
      while todo != {}
        invariant todo <= leases.Keys
        invariant Lists(map id | id in leases && id !in todo :: leases[id], listed)
        decreases |todo|
      {
        var id :| id in todo;
        ListNext(leases, todo, listed, id);
        listed := listed + [leases[id]];
        todo := todo - {id};
      }
      assert (map id | id in leases && id !in todo :: leases[id]) == leases;
    }

    method EncodeState() returns (runs: seq<Run>)
      ensures runs == Encode(state[..])
    {
      runs := [];
      var p := 0;
      while p < state.Length
        invariant 0 <= p <= state.Length && runs == Encode(state[..p])
      {
        assert state[..p + 1][..p] == state[..p];
        var n := |runs| - 1;
        if runs != [] && runs[n].value == state[p] {
          runs := runs[n := Run(state[p], runs[n].length + 1)];
        } else {
          runs := runs + [Run(state[p], 1)];
        }
        p := p + 1;
      }
      assert state[..p] == state[..];
    }

    /** Rebuild from a snapshot; raises when the runs do not cover the block space. */
    static method Restore(s: Snapshot, floor: real) returns (restored: Option<LeaseTable>)
      ensures match restored
              case None => Restored(s, floor) == None
              case Some(table) => fresh(table.Repr()) && table.Pooled({}) && Restored(s, floor) == Some(table.Model())
    {
      RestoredParts(s, floor);
      hide Restored, Decode, LoadLeases, LoadClusters, Normalised, NewTable, LeaseTable.Pooled, LeaseTable.Model;
      if s.cfg.numBlocks < 1 {
        return None;
      }
      var decoded := DecodeRuns(s.runs);
      if |decoded| != s.cfg.numBlocks {
        return None;
      }
      var table := new LeaseTable(s.cfg, s.epoch);
      table.Load(s, decoded, floor);
      return Some(table);
    }

    method Load(s: Snapshot, decoded: seq<BlockState>, floor: real)
      modifies this
      ensures fresh(state) && fresh(free) && fresh(Repr() - old(Repr())) && Pooled({})
      ensures Model() == Table(cfg, old(epoch), s.epochsCompleted, decoded, s.attempts, s.committed, s.quarantined,
                               LoadLeases(s.leases, floor), LoadClusters(s.clusters), s.lastNumber)
    {
      hide IntervalSet.Valid, FreeBlocks, LoadLeases, LoadClusters;
      committed, quarantined := s.committed, s.quarantined;
      epochsCompleted, lastNumber, attempts := s.epochsCompleted, s.lastNumber, s.attempts;
      state, free := RebuildState(decoded);
      clusters := LoadClusters(s.clusters);
      leases := ReadLeases(s.leases, floor);
    }

    method ChargeAttempt(position: int) returns (gone: bool)
      requires 0 <= position < state.Length
      modifies this`attempts, this`quarantined, state
      ensures gone == Exhausted(cfg, AttemptsOf(old(attempts), position) + 1)
      ensures attempts == old(attempts)[position := AttemptsOf(old(attempts), position) + 1]
      ensures state[..] == if gone then old(state[..])[position := Quarantined] else old(state[..])
      ensures quarantined == old(quarantined) + if gone then 1 else 0
    {
      var tries := AttemptsOf(attempts, position) + 1;
      attempts := attempts[position := tries];
      gone := cfg.maxAttempts != 0 && tries >= cfg.maxAttempts;
      if gone {
        state[position] := Quarantined;
        quarantined := quarantined + 1;
      }
    }
  }

  method DecodeRuns(runs: seq<Run>) returns (state: seq<BlockState>)
    ensures state == Decode(runs)
  {
    state := [];
    var k := 0;
    while k < |runs|
      invariant 0 <= k <= |runs| && state == Decode(runs[..k])
    {
      assert runs[..k + 1][..k] == runs[..k];
      state := state + Repeat(runs[k].value, runs[k].length);
      k := k + 1;
    }
    assert runs[..k] == runs;
  }

  method ReadLeases(listed: seq<Lease>, floor: real) returns (leases: map<LeaseId, Lease>)
    ensures leases == LoadLeases(listed, floor)
  {
    leases := map[];
    var k := 0;
    while k < |listed|
      invariant 0 <= k <= |listed| && leases == LoadLeases(listed[..k], floor)
    {
      assert listed[..k + 1][..k] == listed[..k];
      var lease := listed[k].(deadline := MaxReal(listed[k].deadline, floor));
      leases := leases[lease.id := lease];
      k := k + 1;
    }
    assert listed[..k] == listed;
  }

  /** The pool of a state array: every maximal run of free positions, added in turn. No addition
      ever meets a block that is already free. */
  method RebuildPool(state: seq<BlockState>) returns (pool: IntervalSet)
    ensures fresh(pool) && pool.Valid() && pool.Contents() == FreeBlocks(state)
  {
    hide IntervalSet.Valid, Range;
    pool := new IntervalSet();
    var runStart: Option<int> := None;
    var p := 0;
    while p < |state|
      invariant 0 <= p <= |state| && fresh(pool) && pool.Valid()
      invariant runStart.Some? ==> 0 <= runStart.value < p && forall q :: runStart.value <= q < p ==> state[q] == Unassigned
      invariant pool.Contents() == FreeBlocks(state[..if runStart.Some? then runStart.value else p])
    {
      if state[p] == Unassigned {
        if runStart.None? {
          runStart := Some(p);
        }
      } else if runStart.Some? {
        RunAdded(state, runStart.value, p);
        var raised := pool.Add(runStart.value, p);
        runStart := None;
      }
      p := p + 1;
      if runStart.None? { NotFree(state, p - 1); }
    }
    assert state[..p] == state;
    if runStart.Some? {
      RunAdded(state, runStart.value, p);
      var raised := pool.Add(runStart.value, p);
    }
  }

  method RebuildState(decoded: seq<BlockState>) returns (state: array<BlockState>, pool: IntervalSet)
    ensures fresh(state) && fresh(pool) && state[..] == decoded
    ensures pool.Valid() && pool.Contents() == FreeBlocks(state[..]) - {}
  {
    state := new BlockState[|decoded|](p requires 0 <= p < |decoded| => decoded[p]);
    assert state[..] == decoded;
    assert FreeBlocks(decoded) - {} == FreeBlocks(decoded);
    hide FreeBlocks;
    pool := RebuildPool(decoded);
  }

  /** A pool has one form: tables with the same states hold the same intervals. */
  lemma PoolIsDetermined(a: LeaseTable, b: LeaseTable)
    requires a.Pooled({}) && b.Pooled({}) && a.state[..] == b.state[..]
    ensures a.free.starts == b.free.starts && a.free.ends == b.free.ends && a.free.total == b.free.total
  {
    CanonicalIsUnique(a.free.starts, a.free.ends, b.free.starts, b.free.ends);
  }

  method CountTrue(a: array<bool>) returns (n: nat)
    ensures n == |TruePositions(a[..])|
  {
    n := 0;
    var p := 0;
    assert a[..p] == [];
    while p < a.Length
      invariant 0 <= p <= a.Length && n == |TruePositions(a[..p])|
    {
      assert a[..p + 1] == a[..p] + [a[p]];
      NextTrue(a[..p], a[p]);
      if a[p] { n := n + 1; }
      p := p + 1;
    }
    assert a[..p] == a[..];
  }

  /** A blank state array and the pool that goes with it. */
  method AllUnassigned(n: int) returns (state: array<BlockState>, pool: IntervalSet)
    requires n >= 0
    ensures fresh(state) && fresh(pool) && state[..] == seq(n, _ => Unassigned)
    ensures pool.Valid() && pool.Contents() == FreeBlocks(state[..])
    ensures FreeBlocks(state[..]) - {} == FreeBlocks(state[..])
  {
    hide FreeBlocks, Range, IntervalSet.Valid;
    pool := new IntervalSet();
    var raised := pool.Add(0, n);
    state := new BlockState[n](_ => Unassigned);
    assert state[..] == seq(n, _ => Unassigned);
    AllFree(state[..]);
  }
}
