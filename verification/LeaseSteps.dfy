/** How the in-place steps of the lease table add up to the steps of the model. */
module LeaseSteps {
  import opened Wrappers
  import opened Intervals
  import opened LeaseModel
  import opened LeaseInvariant
  import opened AcquireInvariant
  import opened Snapshots

  // --- bookkeeping of a reclaimed lease ---------------------------------------------

  /** Disjoint non-empty runs covering [lo, hi) minus `gone`. */
  ghost predicate RunsBetween(runs: seq<Interval>, lo: int, hi: int, gone: set<int>) {
    && Disjoint(runs)
    && (forall i :: 0 <= i < |runs| ==> lo <= runs[i].lo < runs[i].hi <= hi)
    && SpanBlocks(runs) == Range(lo, hi) - gone
  }

  lemma NoneCounted(cfg: Config, attempts: map<int, int>, s: seq<BlockState>, lo: int)
    ensures Range(lo, lo) == {} && Poisoned(cfg, attempts, {}) == {} && Blamed(attempts, {}) == attempts
    ensures Returned(s, {}, {}) == s
    ensures RunsBetween([], lo, lo, {})
  {
  }

  lemma NextCounted(cfg: Config, attempts: map<int, int>, s: seq<BlockState>, lo: int, runStart: int, k: int,
                    poisoned: set<int>)
    requires 0 <= lo <= runStart <= k < |s|
    ensures AttemptsOf(Blamed(attempts, Range(lo, k)), k) == AttemptsOf(attempts, k)
    ensures Blamed(attempts, Range(lo, k + 1)) == Blamed(attempts, Range(lo, k))[k := AttemptsOf(attempts, k) + 1]
    ensures Poisoned(cfg, attempts, Range(lo, k + 1)) ==
            if Exhausted(cfg, AttemptsOf(attempts, k) + 1) then Poisoned(cfg, attempts, Range(lo, k)) + {k}
            else Poisoned(cfg, attempts, Range(lo, k))
    ensures Returned(s, {}, poisoned + {k}) == Returned(s, {}, poisoned)[k := Quarantined]
    ensures k !in Poisoned(cfg, attempts, Range(lo, k))
    ensures Range(runStart, k + 1) == Range(runStart, k) + {k}
    ensures Range(k + 1, k + 1) == {}
  {
    var b, b' := Blamed(attempts, Range(lo, k)), Blamed(attempts, Range(lo, k + 1));
    assert Range(lo, k + 1) == Range(lo, k) + {k};
    forall p | p in b' ensures b'[p] == b[k := AttemptsOf(attempts, k) + 1][p] {
      assert AttemptsOf(b', p) == b'[p];
      if p != k { assert AttemptsOf(b, p) == b[p]; }
    }
  }

  /** The run [start, end) closes the gap since the last one. */
  lemma RunsAppend(runs: seq<Interval>, lo: int, start: int, end: int, gone: set<int>)
    requires RunsBetween(runs, lo, start, gone) && lo <= start < end && gone !! Range(start, end)
    ensures RunsBetween(runs + [Interval(start, end)], lo, end, gone)
  {
    hide Range, SpanBlocks, InSpans, SpanTotal;
    SpansAppend(runs, Interval(start, end));
    var runs' := runs + [Interval(start, end)];
    assert runs'[|runs|] == Interval(start, end) && forall i :: 0 <= i < |runs| ==> runs'[i] == runs[i];
    assert Range(lo, end) - gone == (Range(lo, start) - gone) + Range(start, end);
  }

  /** A poisoned position ends the run before it, if there is one. */
  lemma RunsClose(runs: seq<Interval>, lo: int, start: int, k: int, gone: set<int>)
    requires RunsBetween(runs, lo, start, gone) && lo <= start <= k && gone !! Range(start, k)
    ensures RunsBetween(if start < k then runs + [Interval(start, k)] else runs, lo, k + 1, gone + {k})
  {
    if start < k {
      RunsAppend(runs, lo, start, k, gone);
    }
    hide SpanBlocks, InSpans, SpanTotal, Disjoint;
    assert Range(lo, k + 1) - (gone + {k}) == Range(lo, k) - gone;
  }

  lemma NoRuns(runs: seq<Interval>, s: seq<BlockState>, pool: set<int>)
    ensures runs[..0] == [] && Returned(s, SpanBlocks([]), {}) == s && pool + SpanBlocks([]) == pool
  {
  }

  lemma NextRun(runs: seq<Interval>, j: nat, s: seq<BlockState>, pool: set<int>)
    requires j < |runs| && Disjoint(runs) && pool !! SpanBlocks(runs)
    requires forall i :: 0 <= i < |runs| ==> 0 <= runs[i].lo < runs[i].hi <= |s|
    ensures pool + SpanBlocks(runs[..j + 1]) == (pool + SpanBlocks(runs[..j])) + Range(runs[j].lo, runs[j].hi)
    ensures (pool + SpanBlocks(runs[..j])) !! Range(runs[j].lo, runs[j].hi)
    ensures Filled(Returned(s, SpanBlocks(runs[..j]), {}), runs[j].lo, runs[j].hi, Unassigned) ==
            Returned(s, SpanBlocks(runs[..j + 1]), {})
  {
    hide Returned, Filled, SpanBlocks;
    assert runs[..j + 1] == runs[..j] + [runs[j]];
    SpansAppend(runs[..j], runs[j]);
    RunNotYet(runs, j, pool);
    FreeRun(s, SpanBlocks(runs[..j]), runs[j].lo, runs[j].hi);
  }

  lemma RunNotYet(runs: seq<Interval>, j: nat, pool: set<int>)
    requires j < |runs| && Disjoint(runs) && pool !! SpanBlocks(runs)
    ensures (pool + SpanBlocks(runs[..j])) !! Range(runs[j].lo, runs[j].hi)
  {
    forall p | p in Range(runs[j].lo, runs[j].hi) ensures p !in pool && p !in SpanBlocks(runs[..j]) {
      assert InSpans(runs, p);
    }
  }

  lemma FreeRun(s: seq<BlockState>, hit: set<int>, lo: int, hi: int)
    requires 0 <= lo <= hi <= |s|
    ensures Filled(Returned(s, hit, {}), lo, hi, Unassigned) == Returned(s, hit + Range(lo, hi), {})
  {
  }

  /** The blocks one lease holds. */
  lemma OneLeaseHeld(t: Table, id: LeaseId)
    requires id in t.leases && 0 <= t.leases[id].committedEnd <= t.leases[id].end <= |t.state|
    ensures HeldBlocks(t, {id}) == Range(t.leases[id].committedEnd, t.leases[id].end)
    ensures |HeldBlocks(t, {id})| == t.leases[id].end - t.leases[id].committedEnd
  {
    var r := Range(t.leases[id].committedEnd, t.leases[id].end);
    forall p ensures p in HeldBlocks(t, {id}) <==> p in r {
      assert CoveredBy(t.leases, {id}, p) <==> Holds(t.leases[id], p);
    }
    assert HeldBlocks(t, {id}) == r;
    RangeSize(t.leases[id].committedEnd, t.leases[id].end);
  }

  /** The model's step for one lease, and how the pool and the state array get there. */
  lemma OneLeaseReclaimed(t: Table, id: LeaseId, counted: bool)
    requires id in t.leases && 0 <= t.leases[id].committedEnd <= t.leases[id].end <= |t.state|
    requires forall p :: t.leases[id].committedEnd <= p < t.leases[id].end ==> t.state[p] == Leased
    ensures var lo, hi := t.leases[id].committedEnd, t.leases[id].end;
            var poisoned := if counted then Poisoned(t.cfg, t.attempts, Range(lo, hi)) else {};
            var rest, s' := Range(lo, hi) - poisoned, Returned(t.state, Range(lo, hi), poisoned);
            && LeaseModel.Reclaim(t, {id}, counted) ==
               t.(state := s', attempts := if counted then Blamed(t.attempts, Range(lo, hi)) else t.attempts,
                  quarantined := t.quarantined + |poisoned|, leases := t.leases - {id})
            && |HeldBlocks(t, {id})| == hi - lo
            && Returned(Returned(t.state, {}, poisoned), rest, {}) == s'
            && (FreeBlocks(t.state) - {}) !! rest
            && (FreeBlocks(t.state) - {}) + rest == FreeBlocks(s') - {}
  {
    hide FreeBlocks, Returned, Blamed, Range;
    var lo, hi := t.leases[id].committedEnd, t.leases[id].end;
    var poisoned := if counted then Poisoned(t.cfg, t.attempts, Range(lo, hi)) else {};
    OneLeaseHeld(t, id);
    ReclaimedPool(t.state, Range(lo, hi), poisoned);
  }

  lemma NoneReclaimed(t: Table, counted: bool)
    ensures LeaseModel.Reclaim(t, {}, counted) == t && HeldBlocks(t, {}) == {}
  {
    forall p ensures !CoveredBy(t.leases, {}, p) {
    }
    assert HeldBlocks(t, {}) == {};
    assert Returned(t.state, {}, {}) == t.state && Blamed(t.attempts, {}) == t.attempts;
    assert t.leases - {} == t.leases;
  }

  /** Reclaiming leases one at a time is reclaiming them together. */
  lemma NextReclaimed(t: Table, done: set<LeaseId>, id: LeaseId, counted: bool)
    requires Inv(t) && id in t.leases && id !in done
    ensures var t1 := LeaseModel.Reclaim(t, done, counted);
            && id in t1.leases && 0 <= t1.leases[id].committedEnd <= t1.leases[id].end <= |t1.state|
            && (forall p :: t1.leases[id].committedEnd <= p < t1.leases[id].end ==> t1.state[p] == Leased)
            && LeaseModel.Reclaim(t1, {id}, counted) == LeaseModel.Reclaim(t, done + {id}, counted)
            && |HeldBlocks(t, done + {id})| == |HeldBlocks(t, done)| + |HeldBlocks(t1, {id})|
  {
    var t1 := LeaseModel.Reclaim(t, done, counted);
    ReclaimKeeps(t, done, counted);
    HeldLeaseIsBacked(t1, id);
    NextHeld(t, done, id, counted);
    hide Inv, InvPending, HeldBlocks, Returned, Blamed, Poisoned;
    var h, h1 := HeldBlocks(t, done), HeldBlocks(t1, {id});
    ReturnedTwice(t.cfg, t.state, t.attempts, h, h1, counted);
    assert t.leases - done - {id} == t.leases - (done + {id});
  }

  lemma HeldLeaseIsBacked(t: Table, id: LeaseId)
    requires Inv(t) && id in t.leases
    ensures 0 <= t.leases[id].committedEnd < t.leases[id].end <= |t.state|
    ensures forall p :: t.leases[id].committedEnd <= p < t.leases[id].end ==> t.state[p] == Leased
  {
    assert LeaseOk(t.leases[id], id, t.epoch, |t.state|, t.clusters.Keys, t.lastNumber);
    forall p | t.leases[id].committedEnd <= p < t.leases[id].end ensures t.state[p] == Leased {
      assert Holds(t.leases[id], p);
    }
  }

  lemma NextHeld(t: Table, done: set<LeaseId>, id: LeaseId, counted: bool)
    requires Inv(t) && id in t.leases && id !in done
    ensures var h1 := HeldBlocks(LeaseModel.Reclaim(t, done, counted), {id});
            HeldBlocks(t, done + {id}) == HeldBlocks(t, done) + h1 && HeldBlocks(t, done) !! h1
  {
    var t1 := LeaseModel.Reclaim(t, done, counted);
    forall p ensures CoveredBy(t1.leases, {id}, p) <==> Holds(t.leases[id], p)
      ensures CoveredBy(t.leases, done + {id}, p) <==> CoveredBy(t.leases, done, p) || Holds(t.leases[id], p)
      ensures CoveredBy(t.leases, done, p) ==> !Holds(t.leases[id], p)
    {
      if Holds(t.leases[id], p) {
        assert id in t1.leases && Holds(t1.leases[id], p);
      }
    }
  }

  lemma ReturnedTwice(cfg: Config, s: seq<BlockState>, attempts: map<int, int>, h: set<int>, h1: set<int>, counted: bool)
    requires h !! h1
    ensures var p := if counted then Poisoned(cfg, attempts, h) else {};
            var a := if counted then Blamed(attempts, h) else attempts;
            var p1 := if counted then Poisoned(cfg, a, h1) else {};
            var p2 := if counted then Poisoned(cfg, attempts, h + h1) else {};
            && Returned(Returned(s, h, p), h1, p1) == Returned(s, h + h1, p2)
            && |p2| == |p| + |p1|
            && (counted ==> Blamed(a, h1) == Blamed(attempts, h + h1))
  {
    var p := if counted then Poisoned(cfg, attempts, h) else {};
    var a := if counted then Blamed(attempts, h) else attempts;
    var p1 := if counted then Poisoned(cfg, a, h1) else {};
    var p2 := if counted then Poisoned(cfg, attempts, h + h1) else {};
    assert p2 == p + p1 by { PoisonedTwice(cfg, attempts, h, h1, counted); }
    if counted { BlamedTwice(attempts, h, h1); }
    hide Blamed, Poisoned;
    assert Returned(Returned(s, h, p), h1, p1) == Returned(s, h + h1, p2);
  }

  lemma PoisonedTwice(cfg: Config, attempts: map<int, int>, h: set<int>, h1: set<int>, counted: bool)
    requires h !! h1
    ensures Poisoned(cfg, attempts, h) + Poisoned(cfg, Blamed(attempts, h), h1) == Poisoned(cfg, attempts, h + h1)
    ensures Poisoned(cfg, attempts, h) !! Poisoned(cfg, Blamed(attempts, h), h1)
    ensures Poisoned(cfg, attempts, h) <= h && Poisoned(cfg, Blamed(attempts, h), h1) <= h1
  {
  }

  lemma BlamedTwice(attempts: map<int, int>, h: set<int>, h1: set<int>)
    requires h !! h1
    ensures Blamed(Blamed(attempts, h), h1) == Blamed(attempts, h + h1)
  {
  }

  lemma NextRenewed(leases: map<LeaseId, Lease>, c: ClusterId, epoch: int, progress: map<LeaseId, int>,
                    done: set<LeaseId>, id: LeaseId, ttl: real, now: real)
    requires done <= progress.Keys && id in progress && id !in done
    ensures var before := RenewedLeases(leases, c, epoch, progress, done, ttl, now);
            var after := RenewedLeases(leases, c, epoch, progress, done + {id}, ttl, now);
            && before.Keys == leases.Keys
            && (id in leases ==> before[id] == leases[id])
            && Views(leases, epoch, c, done + {id}) == Views(leases, epoch, c, done)[id := View(before, epoch, c, id)]
            && after == if id in leases && leases[id].cluster == c && leases[id].epoch == epoch
                        then before[id := Renewed(leases[id], progress[id], ttl, now)] else before
  {
  }

  /** Renewing a lease does not change what the reply says of it. */
  lemma RenewedViews(leases: map<LeaseId, Lease>, c: ClusterId, epoch: int, progress: map<LeaseId, int>,
                     ttl: real, now: real)
    ensures leases == RenewedLeases(leases, c, epoch, progress, {}, ttl, now) && Views(leases, epoch, c, {}) == map[]
    ensures Views(RenewedLeases(leases, c, epoch, progress, progress.Keys, ttl, now), epoch, c, progress.Keys) ==
            Views(leases, epoch, c, progress.Keys)
  {
    var leases' := RenewedLeases(leases, c, epoch, progress, progress.Keys, ttl, now);
    forall id ensures View(leases', epoch, c, id) == View(leases, epoch, c, id) {
    }
  }

  lemma CommitOutcome(t: Table, c: ClusterId, id: LeaseId, through: int, now: real)
    requires Inv(t) && id in t.leases && t.leases[id].cluster == c
    ensures var l := t.leases[id]; var to := ClampThrough(l, through);
            && 0 <= l.committedEnd <= to <= l.end <= |t.state| && c in t.clusters
            && FreeBlocks(Filled(t.state, l.committedEnd, to, Committed)) == FreeBlocks(t.state)
            && (to == l.committedEnd ==>
                  Commit(t, c, id, through, now) == Ok(t) && l.committedEnd < l.end)
            && (to != l.committedEnd ==>
                  Commit(t, c, id, through, now) ==
                  Ok(t.(state := Filled(t.state, l.committedEnd, to, Committed),
                        committed := t.committed + (to - l.committedEnd),
                        leases := AfterCommit(t.leases, id, to),
                        clusters := t.clusters[c := Credited(t.clusters[c], to - l.committedEnd, now)])))
            && (id !in AfterCommit(t.leases, id, to) <==> to >= l.end)
  {
    var l := t.leases[id];
    var to := ClampThrough(l, through);
    CommitShape(t, c, id, through, now);
    PoolUntouched(t.state, l.committedEnd, to);
    assert LeaseOk(l, id, t.epoch, |t.state|, t.clusters.Keys, t.lastNumber);
    if to == l.committedEnd {
      CommitNothing(t, c, id, through, now);
    }
  }

  lemma PoolUntouched(s: seq<BlockState>, lo: int, hi: int)
    requires 0 <= lo <= hi <= |s| && forall p :: lo <= p < hi ==> s[p] == Leased
    ensures FreeBlocks(Filled(s, lo, hi, Committed)) == FreeBlocks(s)
    ensures lo == hi ==> Filled(s, lo, hi, Committed) == s
  {
  }

  /** Marking the poisoned positions and then returning the rest is one step of the model,
      and the pool follows. */
  lemma ReclaimedPool(s: seq<BlockState>, hit: set<int>, poisoned: set<int>)
    requires poisoned <= hit && forall p :: p in hit ==> 0 <= p < |s| && s[p] == Leased
    ensures Returned(Returned(s, {}, poisoned), hit - poisoned, {}) == Returned(s, hit, poisoned)
    ensures FreeBlocks(Returned(s, {}, poisoned)) == FreeBlocks(s)
    ensures FreeBlocks(Returned(s, hit, poisoned)) == FreeBlocks(s) + (hit - poisoned)
    ensures (FreeBlocks(s) - {}) !! (hit - poisoned)
    ensures (FreeBlocks(s) - {}) + (hit - poisoned) == (FreeBlocks(s) + (hit - poisoned)) - {}
  {
  }

  lemma AllFree(s: seq<BlockState>)
    requires forall p :: 0 <= p < |s| ==> s[p] == Unassigned
    ensures FreeBlocks(s) == Range(0, |s|) == {} + Range(0, |s|)
  {
  }

  // --- sizing a grant -----------------------------------------------------------

  lemma ActiveAreKnown(cfg: Config, leases: map<LeaseId, Lease>, clusters: map<ClusterId, ClusterRecord>, clock: real,
                       c: ClusterId)
    requires c in clusters
    ensures var active := ActiveClusters(cfg, leases, clusters, clock); active <= clusters.Keys && active != {}
  {
    assert c in clusters.Keys;
  }

  lemma {:induction false} SumRatesRemove(clusters: map<ClusterId, ClusterRecord>, cs: set<ClusterId>, c: ClusterId)
    requires cs <= clusters.Keys && c in cs
    ensures SumRates(clusters, cs) == RateOf(clusters, c) + SumRates(clusters, cs - {c})
    decreases |cs|
  {
    var d :| d in cs && SumRates(clusters, cs) == RateOf(clusters, d) + SumRates(clusters, cs - {d});
    if d != c {
      SumRatesRemove(clusters, cs - {d}, c);
      SumRatesRemove(clusters, cs - {c}, d);
      assert cs - {d} - {c} == cs - {c} - {d};
    }
  }

  // --- stealing -----------------------------------------------------------------

  ghost predicate RobbingOrder(leases: map<LeaseId, Lease>, clusters: map<ClusterId, ClusterRecord>, order: seq<LeaseId>) {
    && (forall i :: 0 <= i < |order| ==> order[i] in leases)
    && (forall i, j :: 0 <= i < j < |order| ==> order[i] != order[j])
    && (forall i, j :: 0 <= i < j < |order| ==> !Slower(clusters, leases[order[j]], leases[order[i]]))
  }

  ghost predicate SortedFor(cfg: Config, leases: map<LeaseId, Lease>, clusters: map<ClusterId, ClusterRecord>,
                            thief: ClusterId, order: seq<LeaseId>)
  {
    && RobbingOrder(leases, clusters, order)
    && (forall id :: id in order <==> Candidate(cfg, leases, thief, id))
  }

  lemma InsertSorted(leases: map<LeaseId, Lease>, clusters: map<ClusterId, ClusterRecord>, order: seq<LeaseId>, k: nat,
                     id: LeaseId)
    requires RobbingOrder(leases, clusters, order) && k <= |order| && id in leases && id !in order
    requires forall i :: 0 <= i < k ==> !Slower(clusters, leases[id], leases[order[i]])
    requires k < |order| ==> Slower(clusters, leases[id], leases[order[k]])
    ensures RobbingOrder(leases, clusters, order[..k] + [id] + order[k..])
    ensures forall x :: x in order[..k] + [id] + order[k..] <==> x in order || x == id
  {
    forall i | k <= i < |order| ensures !Slower(clusters, leases[order[i]], leases[id]) {
    }
    assert order == order[..k] + order[k..];
  }

  lemma NothingStolen(t: Table, want: int)
    ensures SpanTotal([]) == 0 && Amounts(t, want, [], []) && CutShort(t.leases, t.leases, [], [])
  {
  }

  lemma NotYetRobbed(t: Table, thief: ClusterId, order: seq<LeaseId>, victims: seq<LeaseId>, spans: seq<Interval>,
                     leases: map<LeaseId, Lease>, i: nat)
    requires SortedFor(t.cfg, t.leases, t.clusters, thief, order)
    requires |victims| <= i < |order| && victims == order[..|victims|] && CutShort(t.leases, leases, victims, spans)
    ensures order[i] in t.leases && order[i] in leases && leases[order[i]] == t.leases[order[i]] && order[i] !in victims
    ensures Stealable(t.leases[order[i]]) >= t.cfg.stealMinBlocks * 2
  {
    assert Candidate(t.cfg, t.leases, thief, order[i]);
    assert order[i] !in order[..|victims|];
  }

  /** One more victim, cut by the amount the model gives. */
  lemma OneMoreStolen(t: Table, want: int, id: LeaseId, victims: seq<LeaseId>, spans: seq<Interval>,
                      leases: map<LeaseId, Lease>)
    requires ConfigOk(t.cfg) && id in t.leases && id !in victims
    requires Stealable(t.leases[id]) >= t.cfg.stealMinBlocks * 2
    requires Amounts(t, want, victims, spans) && CutShort(t.leases, leases, victims, spans)
    ensures var l := t.leases[id];
            var amount := StealAmount(t.cfg, l, want - SpanTotal(spans));
            var s := Interval(l.end - amount, l.end);
            && l.end - amount > Unstarted(l)
            && SpanTotal(spans + [s]) == SpanTotal(spans) + amount
            && (amount >= t.cfg.stealMinBlocks ==> Amounts(t, want, victims + [id], spans + [s]))
            && CutShort(t.leases, leases[id := l.(end := l.end - amount)], victims + [id], spans + [s])
  {
    hide SpanTotal, SpanBlocks, Amounts, CutShort, StealAmount, Unstarted, Stealable;
    var l := t.leases[id];
    var amount := StealAmount(t.cfg, l, want - SpanTotal(spans));
    AmountBound(t.cfg, l, want - SpanTotal(spans));
    SpansAppend(spans, Interval(l.end - amount, l.end));
    if amount >= t.cfg.stealMinBlocks {
      AmountsAppend(t, want, id, victims, spans, amount);
    }
    CutShortAppend(t.leases, leases, id, victims, spans, amount);
  }

  lemma AmountsAppend(t: Table, want: int, id: LeaseId, victims: seq<LeaseId>, spans: seq<Interval>, amount: int)
    requires Amounts(t, want, victims, spans) && id in t.leases
    requires amount == StealAmount(t.cfg, t.leases[id], want - SpanTotal(spans)) && amount >= t.cfg.stealMinBlocks
    ensures Amounts(t, want, victims + [id], spans + [Interval(t.leases[id].end - amount, t.leases[id].end)])
  {
    hide SpanTotal, StealAmount;
    var spans', victims' := spans + [Interval(t.leases[id].end - amount, t.leases[id].end)], victims + [id];
    forall k | 0 <= k < |victims| ensures spans'[..k] == spans[..k] && victims'[k] == victims[k] && spans'[k] == spans[k] {
    }
    assert spans'[..|victims|] == spans;
  }

  lemma CutShortAppend(leases0: map<LeaseId, Lease>, leases: map<LeaseId, Lease>, id: LeaseId, victims: seq<LeaseId>,
                       spans: seq<Interval>, amount: int)
    requires CutShort(leases0, leases, victims, spans) && id in leases0 && id !in victims
    ensures var l := leases0[id];
            CutShort(leases0, leases[id := l.(end := l.end - amount)], victims + [id],
                     spans + [Interval(l.end - amount, l.end)])
  {
  }

  lemma RobbedInOrder(t: Table, thief: ClusterId, order: seq<LeaseId>, victims: seq<LeaseId>, i: nat, want: int, taken: int)
    requires ConfigOk(t.cfg) && SortedFor(t.cfg, t.leases, t.clusters, thief, order)
    requires i <= |order| && (i < |order| ==> taken >= want)
    requires |victims| <= i && victims == order[..|victims|]
    requires |victims| < i ==> want - taken < t.cfg.stealMinBlocks
    ensures SlowestFirst(t, thief, victims)
    ensures (exists id :: Candidate(t.cfg, t.leases, thief, id) && id !in victims) ==> want - taken < t.cfg.stealMinBlocks
  {
    forall k | 0 <= k < |victims| ensures victims[k] == order[k] {
    }
    forall id, k | Candidate(t.cfg, t.leases, thief, id) && id !in victims && 0 <= k < |victims|
      ensures !Slower(t.clusters, t.leases[id], t.leases[victims[k]])
    {
      var j :| 0 <= j < |order| && order[j] == id;
      assert j >= |victims|;
    }
    if |victims| == |order| {
      assert victims == order;
    }
  }

  // --- granting -----------------------------------------------------------------

  lemma PoolAfterGrant(s: seq<BlockState>, lo: int, hi: int, pending: set<int>)
    requires 0 <= lo <= hi <= |s| && Range(lo, hi) <= pending
    ensures FreeBlocks(Filled(s, lo, hi, Leased)) - (pending - Range(lo, hi)) == FreeBlocks(s) - pending
  {
  }

  lemma NextInstalled(t: Table, c: ClusterId, spans: seq<Interval>, k: nat, ttl: real, now: real)
    requires c in t.clusters && t.cfg.numBlocks != 0 && k < |spans|
    ensures Install(t, c, spans[..k + 1], ttl, now) ==
            LeaseModel.InstallOne(Install(t, c, spans[..k], ttl, now), c, spans[k], ttl, now)
    ensures NewLeases(t, c, spans[..k + 1], ttl, now) ==
            NewLeases(t, c, spans[..k], ttl, now)
            + [NewLease(Install(t, c, spans[..k], ttl, now), c, spans[k], t.lastNumber + k + 1, ttl, now)]
  {
    assert spans[..k + 1][..k] == spans[..k];
  }

  lemma NoSpans(spans: seq<Interval>)
    requires spans == []
    ensures SpanBlocks(spans) == {}
  {
  }

  lemma EveryLeaseHolds(t: Table)
    requires Inv(t)
    ensures forall id :: id in t.leases ==> t.leases[id].committedEnd < t.leases[id].end
  {
    forall id | id in t.leases ensures t.leases[id].committedEnd < t.leases[id].end {
      assert LeaseOk(t.leases[id], id, t.epoch, |t.state|, t.clusters.Keys, t.lastNumber);
    }
  }

  /** Stealing leaves the pool alone. */
  lemma StolenAreLeased(t: Table, thief: ClusterId, want: int)
    requires Inv(t)
    ensures forall victims, spans, t' :: StoleFrom(t, thief, want, victims, spans, t') ==>
      FreeBlocks(t'.state) - SpanBlocks(spans) == FreeBlocks(t.state) - {}
  {
    forall victims, spans, t' | StoleFrom(t, thief, want, victims, spans, t')
      ensures FreeBlocks(t'.state) - SpanBlocks(spans) == FreeBlocks(t.state) - {}
    {
      StolenNotFree(t, thief, want, victims, spans, t');
    }
  }

  lemma StolenNotFree(t: Table, thief: ClusterId, want: int, victims: seq<LeaseId>, spans: seq<Interval>, t': Table)
    requires Inv(t) && StoleFrom(t, thief, want, victims, spans, t')
    ensures FreeBlocks(t'.state) - SpanBlocks(spans) == FreeBlocks(t.state) - {}
  {
    assert ConfigOk(t.cfg) && Apart(t.leases) && Backed(t.state, t.leases) && t'.state == t.state;
    hide *;
    StealTrims(t, thief, want, victims, spans, t');
    TrimmedNotFree(t.state, t.leases, t'.leases, victims, spans);
  }

  lemma TrimmedNotFree(state: seq<BlockState>, leases: map<LeaseId, Lease>, leases': map<LeaseId, Lease>,
                       victims: seq<LeaseId>, spans: seq<Interval>)
    requires Trimmed(leases, leases', victims, spans) && Apart(leases) && Backed(state, leases)
    ensures FreeBlocks(state) - SpanBlocks(spans) == FreeBlocks(state) - {}
  {
    hide Apart;
    forall p | InSpans(spans, p) ensures p !in FreeBlocks(state) {
      var i :| 0 <= i < |spans| && spans[i].lo <= p < spans[i].hi;
      TrimmedAway(leases, leases', victims, spans, i, p);
    }
  }

  lemma AllottedInRange(t: Table, spans: seq<Interval>)
    requires InvPending(t, SpanBlocks(spans))
    requires forall i :: 0 <= i < |spans| ==> spans[i].lo < spans[i].hi
    ensures forall i :: 0 <= i < |spans| ==> 0 <= spans[i].lo < spans[i].hi <= |t.state|
  {
    forall i | 0 <= i < |spans| ensures 0 <= spans[i].lo && spans[i].hi <= |t.state| {
      assert InSpans(spans, spans[i].lo) && InSpans(spans, spans[i].hi - 1);
      assert spans[i].lo in SpanBlocks(spans) && spans[i].hi - 1 in SpanBlocks(spans);
    }
  }

  lemma ReadyAnswered(t: Table, a: AcquireCall, over: bool, g: Grant, t': Table)
    requires t.cfg.numBlocks != 0 && a.cluster in t.clusters && over == (Finished(t) && !CanAdvance(t))
    requires over ==> t' == t && g == Grant(EpochComplete, t.epoch, [])
    requires !over ==> exists spans, t1 :: Serves(Rolled(t), a, spans, t1, g, t')
    ensures AcquiresReady(t, a, g, t')
  {
  }

  lemma PoolBeforeReplay(s: seq<BlockState>, lo: int, hi: int)
    requires 0 <= lo < hi <= |s| && forall p :: lo <= p < hi ==> s[p] == Unassigned
    ensures Range(lo, hi) <= FreeBlocks(s) - {}
    ensures (FreeBlocks(s) - {}) - Range(lo, hi) == FreeBlocks(Filled(s, lo, hi, Leased)) - {}
    ensures Filled(s, lo, hi, Leased) != s
  {
    assert Filled(s, lo, hi, Leased)[lo] != s[lo];
  }

  // --- the executable invariant -----------------------------------------------------

  datatype Counts = Counts(unassigned: nat, leased: nat, committed: nat, quarantined: nat)

  ghost function CountsOf(s: seq<BlockState>): Counts {
    Counts(|Where(s, Unassigned)|, |Where(s, Leased)|, |Where(s, Committed)|, |Where(s, Quarantined)|)
  }

  lemma NoStates()
    ensures CountsOf([]) == Counts(0, 0, 0, 0)
  {
  }

  lemma NextState(s: seq<BlockState>, v: BlockState)
    ensures forall u :: |Where(s + [v], u)| == |Where(s, u)| + if u == v then 1 else 0
  {
    forall u ensures |Where(s + [v], u)| == |Where(s, u)| + if u == v then 1 else 0 {
      assert Where(s + [v], u) == if u == v then Where(s, u) + {|s|} else Where(s, u);
    }
  }

  lemma {:induction false} StatesPartition(s: seq<BlockState>)
    ensures |Where(s, Unassigned)| + |Where(s, Leased)| + |Where(s, Committed)| + |Where(s, Quarantined)| == |s|
  {
    if s != [] {
      var n := |s| - 1;
      StatesPartition(s[..n]);
      NextState(s[..n], s[n]);
      assert s == s[..n] + [s[n]];
    }
  }

  ghost function TruePositions(a: seq<bool>): set<int> {
    set p | 0 <= p < |a| && a[p]
  }

  lemma NextTrue(a: seq<bool>, v: bool)
    ensures |TruePositions(a + [v])| == |TruePositions(a)| + if v then 1 else 0
  {
    assert TruePositions(a + [v]) == if v then TruePositions(a) + {|a|} else TruePositions(a);
  }

  ghost function Marked(a: seq<bool>, lo: int, hi: int): seq<bool> {
    seq(|a|, p requires 0 <= p < |a| => a[p] || lo <= p < hi)
  }

  ghost predicate CoversExactly(a: seq<bool>, t: Table, ids: set<LeaseId>) {
    && |a| == |t.state|
    && forall p :: 0 <= p < |a| ==> (a[p] <==> CoveredBy(t.leases, ids, p))
  }

  lemma NothingCovered(t: Table, a: seq<bool>)
    requires |a| == |t.state| && forall p :: 0 <= p < |a| ==> !a[p]
    ensures LeasesVerified(t, {}) && CoversExactly(a, t, {})
  {
  }

  lemma LeaseNotVerified(t: Table, id: LeaseId)
    requires id in t.leases
    ensures !LeaseVerified(t, id) ==> !LeasesVerified(t, t.leases.Keys)
  {
  }

  /** Checking one more lease against the positions covered so far decides whether it may join. */
  lemma NextCovered(t: Table, a: seq<bool>, done: set<LeaseId>, id: LeaseId)
    requires LeasesVerified(t, done) && CoversExactly(a, t, done) && done <= t.leases.Keys
    requires id in t.leases && id !in done
    requires t.leases[id].epoch == t.epoch
    requires 0 <= t.leases[id].start <= t.leases[id].committedEnd <= t.leases[id].end <= |t.state|
    ensures var lo, hi := t.leases[id].committedEnd, t.leases[id].end;
            && ((forall p :: lo <= p < hi ==> !a[p] && t.state[p] == Leased) ==>
                  LeasesVerified(t, done + {id}) && CoversExactly(Marked(a, lo, hi), t, done + {id}))
            && (!(forall p :: lo <= p < hi ==> !a[p] && t.state[p] == Leased) ==> !LeasesVerified(t, t.leases.Keys))
  {
    var lo, hi := t.leases[id].committedEnd, t.leases[id].end;
    if forall p :: lo <= p < hi ==> !a[p] && t.state[p] == Leased {
      CoveredJoin(t, done, id);
      forall i, p | i in done && Holds(t.leases[id], p) ensures !Holds(t.leases[i], p) {
        if Holds(t.leases[i], p) { assert CoveredBy(t.leases, done, p); }
      }
    } else {
      var p :| lo <= p < hi && (a[p] || t.state[p] != Leased);
      assert Holds(t.leases[id], p);
      if a[p] {
        var i :| i in done && i in t.leases && Holds(t.leases[i], p);
        assert i != id;
      }
    }
  }

  lemma CoveredJoin(t: Table, done: set<LeaseId>, id: LeaseId)
    requires id in t.leases
    ensures forall p :: CoveredBy(t.leases, done + {id}, p) <==> CoveredBy(t.leases, done, p) || Holds(t.leases[id], p)
  {
  }

  lemma CoveredCount(t: Table, a: seq<bool>, ids: set<LeaseId>)
    requires CoversExactly(a, t, ids)
    ensures |TruePositions(a)| == |HeldBlocks(t, ids)|
  {
    assert TruePositions(a) == HeldBlocks(t, ids);
  }

  lemma HasBlocks(t: Table)
    requires Inv(t)
    ensures t.cfg.numBlocks != 0 && ConfigOk(t.cfg)
  {
  }

  // --- saving and restoring -----------------------------------------------------

  lemma LeasesNamed(t: Table)
    requires Inv(t)
    ensures forall id :: id in t.leases ==> t.leases[id].id == id
  {
    forall id | id in t.leases ensures t.leases[id].id == id {
      assert LeaseOk(t.leases[id], id, t.epoch, |t.state|, t.clusters.Keys, t.lastNumber);
    }
  }

  lemma Saved(t: Table, s: Snapshot)
    requires s.cfg == t.cfg && s.epoch == t.epoch && s.epochsCompleted == t.epochsCompleted
    requires s.committed == t.committed && s.quarantined == t.quarantined && s.lastNumber == t.lastNumber
    requires s.runs == Encode(t.state) && s.attempts == t.attempts
    requires Lists(t.leases, s.leases) && s.clusters == SaveClusters(t.clusters)
    ensures IsSnapshot(t, s)
  {
  }

  lemma RestoredParts(s: Snapshot, floor: real)
    ensures Restored(s, floor) ==
      if s.cfg.numBlocks < 1 || |Decode(s.runs)| != s.cfg.numBlocks then None
      else Some(Table(Normalised(s.cfg), s.epoch, s.epochsCompleted, Decode(s.runs), s.attempts, s.committed,
                      s.quarantined, LoadLeases(s.leases, floor), LoadClusters(s.clusters), s.lastNumber))
  {
  }

  lemma ListNext(leases: map<LeaseId, Lease>, todo: set<LeaseId>, listed: seq<Lease>, id: LeaseId)
    requires id in todo && todo <= leases.Keys && leases[id].id == id
    requires Lists(map i | i in leases && i !in todo :: leases[i], listed)
    ensures Lists(map i | i in leases && i !in todo - {id} :: leases[i], listed + [leases[id]])
  {
    var before := map i | i in leases && i !in todo :: leases[i];
    var after := map i | i in leases && i !in todo - {id} :: leases[i];
    var longer := listed + [leases[id]];
    forall i | i in after ensures exists k :: 0 <= k < |longer| && longer[k].id == i {
      if i == id {
        assert longer[|listed|].id == i;
      } else {
        assert i in before;
        var k :| 0 <= k < |listed| && listed[k].id == i;
        assert longer[k].id == i;
      }
    }
  }

  lemma RunAdded(s: seq<BlockState>, lo: int, hi: int)
    requires 0 <= lo < hi <= |s| && forall q :: lo <= q < hi ==> s[q] == Unassigned
    ensures FreeBlocks(s[..lo]) !! Range(lo, hi)
    ensures FreeBlocks(s[..lo]) + Range(lo, hi) == FreeBlocks(s[..hi])
  {
  }

  lemma NotFree(s: seq<BlockState>, p: int)
    requires 0 <= p < |s|
    ensures s[p] != Unassigned ==> FreeBlocks(s[..p + 1]) == FreeBlocks(s[..p])
  {
  }
}
