/** What every call keeps: the five views of a lease table agree. */
module LeaseInvariant {
  import opened Wrappers
  import opened Intervals
  import opened Arithmetic
  import opened LeaseModel

  // --- the invariant ----------------------------------------------------------

  ghost predicate LeaseOk(l: Lease, id: LeaseId, epoch: int, blocks: int, clusters: set<ClusterId>, lastNumber: int) {
    && l.id == id && l.epoch == epoch && l.cluster in clusters
    && 0 <= l.start <= l.committedEnd <= l.progressEnd <= l.end <= blocks
    && l.committedEnd < l.end
    && NumberOf(id) <= lastNumber
  }

  ghost predicate LeasesOk(leases: map<LeaseId, Lease>, epoch: int, blocks: int, clusters: set<ClusterId>,
                           lastNumber: int)
  {
    && 0 <= lastNumber
    && (forall id :: id in leases ==> LeaseOk(leases[id], id, epoch, blocks, clusters, lastNumber))
  }

  ghost predicate Apart(leases: map<LeaseId, Lease>) {
    forall i, j :: i in leases && j in leases && i != j ==>
      leases[i].end <= leases[j].committedEnd || leases[j].end <= leases[i].committedEnd
  }

  /** What a lease holds is LEASED, and what it has committed is COMMITTED. */
  ghost predicate Backed(state: seq<BlockState>, leases: map<LeaseId, Lease>) {
    && (forall id, p :: id in leases && Holds(leases[id], p) && 0 <= p < |state| ==> state[p] == Leased)
    && (forall id, p :: id in leases && leases[id].start <= p < leases[id].committedEnd && 0 <= p < |state| ==>
          state[p] == Committed)
  }

  /** Every LEASED position is held, bar the `pending` ones that an acquire has set aside and
      not yet leased. */
  ghost predicate Coverage(state: seq<BlockState>, leases: map<LeaseId, Lease>, pending: set<int>) {
    && (forall p :: 0 <= p < |state| && state[p] == Leased ==> p in pending || Covered(leases, p))
    && (forall p :: p in pending ==> 0 <= p < |state| && (state[p] == Unassigned || state[p] == Leased))
    && (forall p :: p in pending ==> !Covered(leases, p))
  }

  ghost predicate Counted(state: seq<BlockState>, committed: int, quarantined: int) {
    && committed == |Where(state, Committed)|
    && quarantined == |Where(state, Quarantined)|
  }

  /** A block is in quarantine exactly when its failed attempts have exhausted it. */
  ghost predicate AttemptsOk(cfg: Config, state: seq<BlockState>, attempts: map<int, int>) {
    && (forall p :: p in attempts ==> 0 <= p < |state|)
    && (forall p :: 0 <= AttemptsOf(attempts, p))
    && (forall p :: 0 <= p < |state| ==>
          (state[p] == Quarantined <==> AttemptsOf(attempts, p) > 0 && Exhausted(cfg, AttemptsOf(attempts, p))))
    && (cfg.maxAttempts > 0 ==> forall p :: AttemptsOf(attempts, p) <= cfg.maxAttempts)
  }

  ghost function SumCommitted(clusters: map<ClusterId, ClusterRecord>): int {
    if clusters == map[] then 0
    else var c :| c in clusters; clusters[c].blocksCommitted + SumCommitted(clusters - {c})
  }

  ghost predicate Credit(clusters: map<ClusterId, ClusterRecord>, committed: int) {
    && (forall c :: c in clusters ==> clusters[c].blocksCommitted >= 0)
    && SumCommitted(clusters) >= committed
  }

  ghost predicate ConfigOk(cfg: Config) {
    cfg.numBlocks >= 1 && cfg.minBlocks >= 1 && cfg.stealMinBlocks >= 1
  }

  ghost predicate InvPending(t: Table, pending: set<int>) {
    && ConfigOk(t.cfg) && |t.state| == t.cfg.numBlocks
    && LeasesOk(t.leases, t.epoch, |t.state|, t.clusters.Keys, t.lastNumber)
    && Apart(t.leases)
    && Backed(t.state, t.leases)
    && Coverage(t.state, t.leases, pending)
    && Counted(t.state, t.committed, t.quarantined)
    && AttemptsOk(t.cfg, t.state, t.attempts)
    && Credit(t.clusters, t.committed)
  }

  ghost predicate Inv(t: Table) {
    InvPending(t, {})
  }

  // --- cluster records --------------------------------------------------------

  lemma {:induction false} SumRemove(m: map<ClusterId, ClusterRecord>, c: ClusterId)
    requires c in m
    ensures SumCommitted(m) == m[c].blocksCommitted + SumCommitted(m - {c})
    decreases |m|
  {
    var d :| d in m && SumCommitted(m) == m[d].blocksCommitted + SumCommitted(m - {d});
    if d != c {
      SumRemove(m - {d}, c);
      SumRemove(m - {c}, d);
      assert m - {d} - {c} == m - {c} - {d};
    }
  }

  lemma SumUpdate(m: map<ClusterId, ClusterRecord>, c: ClusterId, r: ClusterRecord)
    ensures SumCommitted(m[c := r]) ==
            SumCommitted(m) - (if c in m then m[c].blocksCommitted else 0) + r.blocksCommitted
  {
    SumRemove(m[c := r], c);
    if c in m {
      SumRemove(m, c);
      assert m[c := r] - {c} == m - {c};
    } else {
      assert m[c := r] - {c} == m;
    }
  }

  lemma {:induction false} SumSame(m: map<ClusterId, ClusterRecord>, m': map<ClusterId, ClusterRecord>)
    requires m.Keys == m'.Keys
    requires forall c :: c in m ==> m[c].blocksCommitted == m'[c].blocksCommitted
    ensures SumCommitted(m) == SumCommitted(m')
    decreases |m|
  {
    if m == map[] {
      assert m' == map[];
    } else {
      var c :| c in m;
      SumRemove(m, c);
      SumRemove(m', c);
      SumSame(m - {c}, m' - {c});
    }
  }

  /** Changing a record without touching its commit counter, or adding a fresh one. */
  lemma RecordsKeep(t: Table, pending: set<int>, c: ClusterId, r: ClusterRecord)
    requires InvPending(t, pending)
    requires r.blocksCommitted == if c in t.clusters then t.clusters[c].blocksCommitted else 0
    ensures InvPending(t.(clusters := t.clusters[c := r]), pending)
  {
    SumUpdate(t.clusters, c, r);
  }

  lemma TouchedKeeps(t: Table, c: ClusterId, macroStep: real, rtt: real, now: real)
    requires Inv(t)
    ensures Inv(Touched(t, c, macroStep, rtt, now))
  {
    RecordsKeep(t, {}, c, Touched(t, c, macroStep, rtt, now).clusters[c]);
  }

  lemma RegisterKeeps(t: Table, c: ClusterId, digest: string, ranks: int, incarnation: string,
                      checkConflict: bool, now: real)
    requires Inv(t)
    ensures var r := Register(t, c, digest, ranks, incarnation, checkConflict, now); r.Ok? ==> Inv(r.value)
  {
    RecordsKeep(t, {}, c, Announced(RecordOf(t, c, now), ranks, incarnation, now));
  }

  // --- reclaiming -------------------------------------------------------------

  lemma HitIsLeased(t: Table, ids: set<LeaseId>, p: int)
    requires Inv(t) && p in HeldBlocks(t, ids)
    ensures t.state[p] == Leased
  {
    var id :| id in ids && id in t.leases && Holds(t.leases[id], p);
  }

  lemma ReturnedCounts(state: seq<BlockState>, hit: set<int>, poisoned: set<int>, committed: int, quarantined: int)
    requires Counted(state, committed, quarantined)
    requires poisoned <= hit && forall p :: p in hit ==> 0 <= p < |state| && state[p] == Leased
    ensures Counted(Returned(state, hit, poisoned), committed, quarantined + |poisoned|)
  {
    var state' := Returned(state, hit, poisoned);
    assert Where(state', Committed) == Where(state, Committed);
    assert Where(state', Quarantined) == Where(state, Quarantined) + poisoned;
  }

  lemma ReclaimBacked(state: seq<BlockState>, leases: map<LeaseId, Lease>, ids: set<LeaseId>, hit: set<int>,
                      poisoned: set<int>)
    requires Apart(leases) && Backed(state, leases)
    requires forall p :: p in hit <==> 0 <= p < |state| && CoveredBy(leases, ids, p)
    requires poisoned <= hit
    ensures Backed(Returned(state, hit, poisoned), leases - ids)
  {
    forall id, p | id in leases && id !in ids && Holds(leases[id], p) ensures p !in hit {
      if CoveredBy(leases, ids, p) {
        assert false;
      }
    }
    forall p | p in hit ensures state[p] == Leased {
      var i :| i in ids && i in leases && Holds(leases[i], p);
    }
  }

  lemma ReclaimCoverage(state: seq<BlockState>, leases: map<LeaseId, Lease>, ids: set<LeaseId>, hit: set<int>,
                        poisoned: set<int>)
    requires Coverage(state, leases, {})
    requires forall p :: p in hit <==> 0 <= p < |state| && CoveredBy(leases, ids, p)
    requires poisoned <= hit
    ensures Coverage(Returned(state, hit, poisoned), leases - ids, {})
  {
    var state' := Returned(state, hit, poisoned);
    forall p | 0 <= p < |state| && state'[p] == Leased ensures Covered(leases - ids, p) {
      assert p !in hit && Covered(leases, p);
      var id :| id in leases && Holds(leases[id], p);
      assert id !in ids;
      assert id in leases - ids && Holds((leases - ids)[id], p);
    }
  }

  lemma ReturnedAttempts(cfg: Config, state: seq<BlockState>, attempts: map<int, int>, hit: set<int>,
                         poisoned: set<int>)
    requires AttemptsOk(cfg, state, attempts)
    requires forall p :: p in hit ==> 0 <= p < |state| && state[p] == Leased
    requires forall p :: p in poisoned <==> p in hit && Exhausted(cfg, AttemptsOf(attempts, p) + 1)
    ensures AttemptsOk(cfg, Returned(state, hit, poisoned), Blamed(attempts, hit))
  {
  }

  lemma ReclaimKeeps(t: Table, ids: set<LeaseId>, counted: bool)
    requires Inv(t)
    ensures Inv(Reclaim(t, ids, counted))
  {
    hide *;
    var hit := HeldBlocks(t, ids);
    var poisoned := if counted then Poisoned(t.cfg, t.attempts, hit) else {};
    Hit(t, ids, counted);
    ReturnedCounts(t.state, hit, poisoned, t.committed, t.quarantined);
    ReclaimBacked(t.state, t.leases, ids, hit, poisoned);
    ReclaimCoverage(t.state, t.leases, ids, hit, poisoned);
    FewerApart(t.leases, ids);
    if counted {
      ReturnedAttempts(t.cfg, t.state, t.attempts, hit, poisoned);
    } else {
      UncountedAttempts(t.cfg, t.state, t.attempts, hit);
    }
    ReclaimParts(t, ids, counted, hit, poisoned);
  }

  lemma Hit(t: Table, ids: set<LeaseId>, counted: bool)
    requires Inv(t)
    ensures var hit := HeldBlocks(t, ids); var poisoned := if counted then Poisoned(t.cfg, t.attempts, hit) else {};
            && (forall p :: p in hit ==> 0 <= p < |t.state| && t.state[p] == Leased)
            && (forall p :: p in hit <==> 0 <= p < |t.state| && CoveredBy(t.leases, ids, p))
            && poisoned <= hit
            && (counted ==> forall p :: p in poisoned <==> p in hit && Exhausted(t.cfg, AttemptsOf(t.attempts, p) + 1))
    ensures Counted(t.state, t.committed, t.quarantined) && Backed(t.state, t.leases) && Apart(t.leases)
    ensures Coverage(t.state, t.leases, {}) && AttemptsOk(t.cfg, t.state, t.attempts)
  {
    hide Backed, Coverage, Apart, AttemptsOk, Counted, Credit, LeasesOk;
    forall p | p in HeldBlocks(t, ids) ensures t.state[p] == Leased {
      HitIsLeased(t, ids, p);
    }
  }

  /** The parts of the invariant, one by one, for a table some leases have been taken from. */
  lemma ReclaimParts(t: Table, ids: set<LeaseId>, counted: bool, hit: set<int>, poisoned: set<int>)
    requires Inv(t) && hit == HeldBlocks(t, ids)
    requires poisoned == if counted then Poisoned(t.cfg, t.attempts, hit) else {}
    requires Apart(t.leases - ids) && Backed(Returned(t.state, hit, poisoned), t.leases - ids)
    requires Coverage(Returned(t.state, hit, poisoned), t.leases - ids, {})
    requires Counted(Returned(t.state, hit, poisoned), t.committed, t.quarantined + |poisoned|)
    requires AttemptsOk(t.cfg, Returned(t.state, hit, poisoned), if counted then Blamed(t.attempts, hit) else t.attempts)
    ensures Inv(Reclaim(t, ids, counted))
  {
    assert |Returned(t.state, hit, poisoned)| == |t.state|;
    hide Backed, Coverage, Apart, AttemptsOk, Counted, Credit, HeldBlocks, Poisoned, Returned, Blamed;
  }

  lemma UncountedAttempts(cfg: Config, state: seq<BlockState>, attempts: map<int, int>, hit: set<int>)
    requires AttemptsOk(cfg, state, attempts)
    requires forall p :: p in hit ==> 0 <= p < |state| && state[p] == Leased
    ensures AttemptsOk(cfg, Returned(state, hit, {}), attempts)
  {
  }

  lemma FewerApart(leases: map<LeaseId, Lease>, ids: set<LeaseId>)
    requires Apart(leases)
    ensures Apart(leases - ids)
  {
  }

  // --- committing -------------------------------------------------------------

  lemma FillCounts(s: seq<BlockState>, lo: int, hi: int, committed: int, quarantined: int)
    requires 0 <= lo <= hi <= |s| && forall p :: lo <= p < hi ==> s[p] == Leased
    requires Counted(s, committed, quarantined)
    ensures Counted(Filled(s, lo, hi, Committed), committed + (hi - lo), quarantined)
  {
    var s' := Filled(s, lo, hi, Committed);
    assert Where(s', Committed) == Where(s, Committed) + Range(lo, hi);
    UnionSize(Where(s, Committed), lo, hi);
    assert Where(s', Quarantined) == Where(s, Quarantined);
  }

  /** The lease map after a commit through `to`. */
  ghost function AfterCommit(leases: map<LeaseId, Lease>, id: LeaseId, to: int): map<LeaseId, Lease>
    requires id in leases
  {
    if to >= leases[id].end then leases - {id}
    else leases[id := leases[id].(committedEnd := to, progressEnd := Max(leases[id].progressEnd, to))]
  }

  lemma CommitShape(t: Table, c: ClusterId, id: LeaseId, through: int, now: real)
    requires Inv(t) && id in t.leases && t.leases[id].cluster == c
    ensures var l := t.leases[id]; var to := ClampThrough(l, through); var newly := to - l.committedEnd;
            && 0 <= l.committedEnd <= to <= l.end <= |t.state| && c in t.clusters
            && (forall p :: l.committedEnd <= p < to ==> t.state[p] == Leased)
            && Commit(t, c, id, through, now) ==
               Ok(t.(state := Filled(t.state, l.committedEnd, to, Committed), committed := t.committed + newly,
                     leases := AfterCommit(t.leases, id, to),
                     clusters := if newly != 0 then t.clusters[c := Credited(t.clusters[c], newly, now)] else t.clusters))
  {
    var l := t.leases[id];
    var to := ClampThrough(l, through);
    assert LeaseOk(l, id, t.epoch, |t.state|, t.clusters.Keys, t.lastNumber);
    forall p | l.committedEnd <= p < to ensures t.state[p] == Leased {
      assert Holds(l, p);
    }
    if to == l.committedEnd {
      assert t.leases[id := l] == t.leases;
      assert l == l.(committedEnd := to, progressEnd := Max(l.progressEnd, to));
    }
  }

  lemma CommitNothing(t: Table, c: ClusterId, id: LeaseId, through: int, now: real)
    requires Inv(t) && id in t.leases && t.leases[id].cluster == c
    requires ClampThrough(t.leases[id], through) == t.leases[id].committedEnd
    ensures Commit(t, c, id, through, now) == Ok(t)
  {
    var l := t.leases[id];
    assert LeaseOk(l, id, t.epoch, |t.state|, t.clusters.Keys, t.lastNumber);
    assert t.leases[id := l] == t.leases;
    assert Filled(t.state, l.committedEnd, l.committedEnd, Committed) == t.state;
  }

  lemma CommitLeases(leases: map<LeaseId, Lease>, id: LeaseId, to: int, epoch: int, blocks: int,
                     clusters: set<ClusterId>, lastNumber: int)
    requires LeasesOk(leases, epoch, blocks, clusters, lastNumber) && Apart(leases)
    requires id in leases && leases[id].committedEnd <= to <= leases[id].end
    ensures LeasesOk(AfterCommit(leases, id, to), epoch, blocks, clusters, lastNumber)
    ensures Apart(AfterCommit(leases, id, to))
  {
    assert LeaseOk(leases[id], id, epoch, blocks, clusters, lastNumber);
  }

  lemma CommitBacked(state: seq<BlockState>, leases: map<LeaseId, Lease>, id: LeaseId, to: int)
    requires Backed(state, leases) && Apart(leases)
    requires id in leases && 0 <= leases[id].committedEnd <= to <= leases[id].end <= |state|
    ensures Backed(Filled(state, leases[id].committedEnd, to, Committed), AfterCommit(leases, id, to))
  {
    var l := leases[id];
    var state', leases' := Filled(state, l.committedEnd, to, Committed), AfterCommit(leases, id, to);
    forall i, p | i in leases' && Holds(leases'[i], p) && 0 <= p < |state| ensures state'[p] == Leased {
      assert Holds(leases[i], p);
      if i != id && l.committedEnd <= p < to {
        assert false;
      }
    }
  }

  lemma CommitCoverage(state: seq<BlockState>, leases: map<LeaseId, Lease>, id: LeaseId, to: int)
    requires Coverage(state, leases, {})
    requires id in leases && 0 <= leases[id].committedEnd <= to <= leases[id].end <= |state|
    ensures Coverage(Filled(state, leases[id].committedEnd, to, Committed), AfterCommit(leases, id, to), {})
  {
    var l := leases[id];
    var state', leases' := Filled(state, l.committedEnd, to, Committed), AfterCommit(leases, id, to);
    forall p | 0 <= p < |state| && state'[p] == Leased ensures Covered(leases', p) {
      assert Covered(leases, p);
      var i :| i in leases && Holds(leases[i], p);
      assert i in leases' && Holds(leases'[i], p);
    }
  }

  lemma FillAttempts(cfg: Config, s: seq<BlockState>, attempts: map<int, int>, lo: int, hi: int, v: BlockState)
    requires AttemptsOk(cfg, s, attempts) && v != Quarantined
    requires forall p :: lo <= p < hi && 0 <= p < |s| ==> s[p] != Quarantined
    ensures AttemptsOk(cfg, Filled(s, lo, hi, v), attempts)
  {
  }

  lemma CommitCredit(clusters: map<ClusterId, ClusterRecord>, c: ClusterId, newly: int, now: real, committed: int)
    requires Credit(clusters, committed) && c in clusters && newly >= 0
    ensures SumCommitted(clusters[c := Credited(clusters[c], newly, now)]) == SumCommitted(clusters) + newly
    ensures Credit(clusters[c := Credited(clusters[c], newly, now)], committed + newly)
  {
    SumUpdate(clusters, c, Credited(clusters[c], newly, now));
  }

  lemma CommitKeeps(t: Table, c: ClusterId, id: LeaseId, through: int, now: real)
    requires Inv(t)
    ensures var r := Commit(t, c, id, through, now); r.Ok? ==> Inv(r.value)
  {
    if id in t.leases && t.leases[id].cluster == c {
      CommitShape(t, c, id, through, now);
      hide Backed, Coverage, Apart, AttemptsOk, Counted, Credit, LeasesOk, Commit, ClampThrough, AfterCommit, Filled;
      var lo, to := t.leases[id].committedEnd, ClampThrough(t.leases[id], through);
      FillCounts(t.state, lo, to, t.committed, t.quarantined);
      CommitLeases(t.leases, id, to, t.epoch, |t.state|, t.clusters.Keys, t.lastNumber);
      CommitBacked(t.state, t.leases, id, to);
      CommitCoverage(t.state, t.leases, id, to);
      FillAttempts(t.cfg, t.state, t.attempts, lo, to, Committed);
      CommitCredit(t.clusters, c, to - lo, now, t.committed);
      assert t.clusters[c := Credited(t.clusters[c], to - lo, now)].Keys == t.clusters.Keys;
    }
  }

  // --- heartbeats, epochs -----------------------------------------------------

  /** Lease maps that differ only in progress, deadline and ttl. */
  ghost predicate SameSpans(leases: map<LeaseId, Lease>, leases': map<LeaseId, Lease>) {
    && leases.Keys == leases'.Keys
    && (forall id :: id in leases ==>
          && leases'[id].start == leases[id].start
          && leases'[id].end == leases[id].end
          && leases'[id].committedEnd == leases[id].committedEnd)
  }

  lemma SameSpansCover(state: seq<BlockState>, leases: map<LeaseId, Lease>, leases': map<LeaseId, Lease>)
    requires SameSpans(leases, leases')
    requires Apart(leases) && Backed(state, leases) && Coverage(state, leases, {})
    ensures Apart(leases') && Backed(state, leases') && Coverage(state, leases', {})
  {
    forall p | Covered(leases, p) ensures Covered(leases', p) {
      var i :| i in leases && Holds(leases[i], p);
      assert i in leases' && Holds(leases'[i], p);
    }
    forall i, p | i in leases' && Holds(leases'[i], p) ensures Holds(leases[i], p) {
    }
  }

  lemma RenewLeases(t: Table, c: ClusterId, progress: map<LeaseId, int>, ttl: real, now: real)
    requires LeasesOk(t.leases, t.epoch, |t.state|, t.clusters.Keys, t.lastNumber)
    ensures var t' := Renew(t, c, progress, ttl, now);
            && LeasesOk(t'.leases, t.epoch, |t.state|, t.clusters.Keys, t.lastNumber)
            && SameSpans(t.leases, t'.leases)
  {
    var t' := Renew(t, c, progress, ttl, now);
    forall id | id in t'.leases
      ensures LeaseOk(t'.leases[id], id, t.epoch, |t.state|, t.clusters.Keys, t.lastNumber)
    {
      assert LeaseOk(t.leases[id], id, t.epoch, |t.state|, t.clusters.Keys, t.lastNumber);
    }
  }

  lemma RenewKeeps(t: Table, c: ClusterId, progress: map<LeaseId, int>, ttl: real, now: real)
    requires Inv(t)
    ensures Inv(Renew(t, c, progress, ttl, now))
  {
    hide Backed, Coverage, Apart, AttemptsOk, Counted, Credit, LeasesOk, SameSpans;
    RenewLeases(t, c, progress, ttl, now);
    SameSpansCover(t.state, t.leases, Renew(t, c, progress, ttl, now).leases);
  }

  lemma HeartbeatKeeps(t: Table, c: ClusterId, progress: map<LeaseId, int>, macroStep: real, rtt: real,
                       ttl: real, now: real)
    requires Inv(t)
    ensures Inv(Heartbeat(t, c, progress, macroStep, rtt, ttl, now))
  {
    hide InvPending;
    ReclaimKeeps(t, Expired(t, now), true);
    TouchedKeeps(Reap(t, now), c, macroStep, rtt, now);
    var t1 := Touched(Reap(t, now), c, macroStep, rtt, now);
    RenewKeeps(t1, c, progress, GrantedTtl(t1.cfg, t1.clusters[c], ttl), now);
  }

  lemma AdvanceKeeps(t: Table)
    requires Inv(t)
    ensures Inv(Advance(t))
  {
    var t' := Advance(t);
    if CanAdvance(t) {
      assert Where(t'.state, Committed) == {} && Where(t'.state, Quarantined) == {};
      SumSame(t.clusters, t'.clusters);
      assert t.committed >= 0;
    }
  }

  // --- the executable check ---------------------------------------------------

  ghost predicate LeaseVerified(t: Table, id: LeaseId)
    requires id in t.leases
  {
    var l := t.leases[id];
    && l.epoch == t.epoch
    && 0 <= l.start <= l.committedEnd <= l.end <= |t.state|
    && forall p :: Holds(l, p) && 0 <= p < |t.state| ==> t.state[p] == Leased
  }

  ghost predicate LeasesVerified(t: Table, ids: set<LeaseId>) {
    && (forall id :: id in ids && id in t.leases ==> LeaseVerified(t, id))
    && (forall i, j, p :: i in ids && j in ids && i in t.leases && j in t.leases && i != j && Holds(t.leases[i], p) ==>
          !Holds(t.leases[j], p))
  }

  /** Everything the program asserts of a table and its free pool's total. */
  ghost predicate Verified(t: Table, freeTotal: int) {
    && LeasesVerified(t, t.leases.Keys)
    && |HeldBlocks(t, t.leases.Keys)| == |Where(t.state, Leased)|
    && freeTotal == |Where(t.state, Unassigned)|
    && t.committed == |Where(t.state, Committed)|
    && t.quarantined == |Where(t.state, Quarantined)|
    && SumCommitted(t.clusters) >= t.committed
  }

  /** No sound table fails the check. */
  lemma InvIsVerified(t: Table)
    requires Inv(t)
    ensures Verified(t, |FreeBlocks(t.state)|)
  {
    forall id | id in t.leases ensures LeaseVerified(t, id) {
      assert LeaseOk(t.leases[id], id, t.epoch, |t.state|, t.clusters.Keys, t.lastNumber);
    }
    forall p ensures p in HeldBlocks(t, t.leases.Keys) <==> p in Where(t.state, Leased) {
      if p in Where(t.state, Leased) {
        var id :| id in t.leases && Holds(t.leases[id], p);
        assert CoveredBy(t.leases, t.leases.Keys, p);
      }
      if p in HeldBlocks(t, t.leases.Keys) {
        HitIsLeased(t, t.leases.Keys, p);
      }
    }
    assert HeldBlocks(t, t.leases.Keys) == Where(t.state, Leased);
  }
}
