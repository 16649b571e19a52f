/** An epoch cannot churn for ever: with quarantine on, every call that changes a block or the
    set of leases uses up some of a finite weight. */
module EpochTermination {
  import opened Wrappers
  import opened Intervals
  import opened LeaseModel
  import opened LeaseInvariant
  import opened AcquireInvariant
  import opened LeaseRuns

  // --- the measure ------------------------------------------------------------

  /** Failed attempts the first n blocks still have before quarantine. */
  ghost function Slack(attempts: map<int, int>, limit: int, n: nat): int {
    if n == 0 then 0 else Slack(attempts, limit, n - 1) + limit - AttemptsOf(attempts, n - 1)
  }

  /** Digits, most significant first: attempts left, blocks not committed, blocks free, and
      room for leases. */
  ghost predicate Below(t: Table, u: Table) {
    var s, s' := Slack(t.attempts, t.cfg.maxAttempts, |t.state|), Slack(u.attempts, u.cfg.maxAttempts, |u.state|);
    s < s' || (s == s' &&
      (t.committed > u.committed || (t.committed == u.committed &&
        (|FreeBlocks(t.state)| < |FreeBlocks(u.state)| || (|FreeBlocks(t.state)| == |FreeBlocks(u.state)| &&
          |t.leases| > |u.leases|)))))
  }

  function Digits(s: int, c: int, f: int, n: int, base: int): int {
    ((s * base + c) * base + f) * base + n
  }

  ghost function Weight(t: Table): int {
    Digits(Slack(t.attempts, t.cfg.maxAttempts, |t.state|), |t.state| - t.committed, |FreeBlocks(t.state)|,
           |t.state| - |t.leases|, |t.state| + 1)
  }

  lemma Digit(a: int, b: int, a': int, b': int, base: int)
    requires 0 <= b < base && 0 <= b' < base
    requires a' < a || (a' == a && b' < b)
    ensures a' * base + b' < a * base + b
  {
    if a' < a {
      ProductGrows(a' + 1, a, base);
      assert (a' + 1) * base == a' * base + base;
    }
  }

  lemma {:induction false} ProductGrows(a: int, a': int, base: int)
    requires a <= a' && base >= 0
    ensures a * base <= a' * base
    decreases a' - a
  {
    if a < a' {
      ProductGrows(a, a' - 1, base);
      assert a' * base == (a' - 1) * base + base;
    }
  }

  lemma {:induction false} SlackBounds(t: Table, n: nat)
    requires Inv(t) && t.cfg.maxAttempts >= 1 && n <= |t.state|
    ensures 0 <= Slack(t.attempts, t.cfg.maxAttempts, n) <= t.cfg.maxAttempts * n
  {
    if n > 0 {
      SlackBounds(t, n - 1);
      assert 0 <= AttemptsOf(t.attempts, n - 1) <= t.cfg.maxAttempts;
    }
  }

  /** Leases are disjoint and not empty, so there are no more of them than blocks. */
  lemma LeasesFit(t: Table)
    requires Inv(t)
    ensures |t.leases| <= |t.state|
  {
    forall i | i in t.leases ensures 0 <= t.leases[i].committedEnd < t.leases[i].end <= |t.state| {
      assert LeaseOk(t.leases[i], i, t.epoch, |t.state|, t.clusters.Keys, t.lastNumber);
    }
    forall i, j | i in t.leases && j in t.leases && i != j
      ensures t.leases[i].committedEnd != t.leases[j].committedEnd
    {
    }
    StartsAreDistinct(t.leases, t.leases.Keys);
    var starts := set i | i in t.leases :: t.leases[i].committedEnd;
    RangeSize(0, |t.state|);
    SubsetSize(starts, Range(0, |t.state|));
    assert |t.leases| == |t.leases.Keys|;
  }

  lemma {:induction false} StartsAreDistinct(leases: map<LeaseId, Lease>, ids: set<LeaseId>)
    requires ids <= leases.Keys
    requires forall i, j :: i in ids && j in ids && i != j ==> leases[i].committedEnd != leases[j].committedEnd
    ensures |set i | i in ids :: leases[i].committedEnd| == |ids|
  {
    if ids != {} {
      var k :| k in ids;
      StartsAreDistinct(leases, ids - {k});
      assert (set i | i in ids :: leases[i].committedEnd) ==
             (set i | i in ids - {k} :: leases[i].committedEnd) + {leases[k].committedEnd};
    }
  }

  lemma DigitBounds(t: Table)
    requires Inv(t)
    ensures 0 <= |t.state| - t.committed <= |t.state| && 0 <= |FreeBlocks(t.state)| <= |t.state|
    ensures 0 <= |t.state| - |t.leases| <= |t.state|
  {
    LeasesFit(t);
    RangeSize(0, |t.state|);
    SubsetSize(Where(t.state, Committed), Range(0, |t.state|));
    SubsetSize(FreeBlocks(t.state), Range(0, |t.state|));
  }

  lemma BelowIsLighter(t: Table, u: Table)
    requires Inv(t) && Inv(u) && |t.state| == |u.state| && Below(t, u)
    ensures Weight(t) < Weight(u)
  {
    hide Inv, InvPending, Digits, Slack, FreeBlocks;
    DigitBounds(t);
    DigitBounds(u);
    var b := |t.state| + 1;
    var s, s' := Slack(t.attempts, t.cfg.maxAttempts, |t.state|), Slack(u.attempts, u.cfg.maxAttempts, |u.state|);
    LexDigits(s, |t.state| - t.committed, |FreeBlocks(t.state)|, |t.state| - |t.leases|,
              s', |t.state| - u.committed, |FreeBlocks(u.state)|, |t.state| - |u.leases|, b);
  }

  lemma LexDigits(s: int, c: int, f: int, n: int, s': int, c': int, f': int, n': int, base: int)
    requires 0 <= c < base && 0 <= c' < base && 0 <= f < base && 0 <= f' < base && 0 <= n < base && 0 <= n' < base
    requires s < s' || (s == s' && (c < c' || (c == c' && (f < f' || (f == f' && n < n')))))
    ensures Digits(s, c, f, n, base) < Digits(s', c', f', n', base)
  {
    if s < s' || c < c' {
      Digit(s', c', s, c, base);
    }
    if s < s' || c < c' || f < f' {
      Digit(s' * base + c', f', s * base + c, f, base);
    }
    Digit((s' * base + c') * base + f', n', (s * base + c) * base + f, n, base);
  }

  // --- what uses it up --------------------------------------------------------

  lemma {:induction false} BlameLowers(attempts: map<int, int>, hit: set<int>, limit: int, n: nat)
    ensures Slack(Blamed(attempts, hit), limit, n) <= Slack(attempts, limit, n)
    ensures (exists p :: p in hit && 0 <= p < n) ==> Slack(Blamed(attempts, hit), limit, n) < Slack(attempts, limit, n)
  {
    if n > 0 {
      BlameLowers(attempts, hit, limit, n - 1);
    }
  }

  lemma HoldsSomething(t: Table, ids: set<LeaseId>, id: LeaseId)
    requires Inv(t) && id in ids && id in t.leases
    ensures exists p :: p in HeldBlocks(t, ids) && 0 <= p < |t.state|
  {
    var l := t.leases[id];
    assert LeaseOk(l, id, t.epoch, |t.state|, t.clusters.Keys, t.lastNumber);
    assert Holds(l, l.committedEnd);
    assert l.committedEnd in HeldBlocks(t, ids);
  }

  /** Reclaiming any lease at all, with the attempt counted, lowers the first digit. */
  lemma ReclaimLowers(t: Table, ids: set<LeaseId>)
    requires Inv(t) && ids <= t.leases.Keys
    ensures ids == {} ==> Reclaim(t, ids, true) == t
    ensures ids != {} ==> Below(Reclaim(t, ids, true), t)
  {
    hide *;
    if ids == {} {
      NothingLowered(t, ids);
    } else {
      var id :| id in ids;
      HoldsSomething(t, ids, id);
      BlameLowers(t.attempts, HeldBlocks(t, ids), t.cfg.maxAttempts, |t.state|);
      LessSlack(t, ids);
    }
  }

  lemma NothingLowered(t: Table, ids: set<LeaseId>)
    requires ids == {}
    ensures Reclaim(t, ids, true) == t
  {
    assert HeldBlocks(t, ids) == {};
    assert Returned(t.state, {}, {}) == t.state && Blamed(t.attempts, {}) == t.attempts && t.leases - {} == t.leases;
  }

  lemma LessSlack(t: Table, ids: set<LeaseId>)
    requires Slack(Blamed(t.attempts, HeldBlocks(t, ids)), t.cfg.maxAttempts, |t.state|) < Slack(t.attempts, t.cfg.maxAttempts, |t.state|)
    ensures Below(Reclaim(t, ids, true), t)
  {
    hide Slack, Blamed, HeldBlocks, Poisoned, FreeBlocks;
  }

  /** Anything that differs from the table before it in a block or a lease. */
  ghost predicate Progressed(t: Table, t': Table) {
    t'.state != t.state || t'.leases.Keys != t.leases.Keys
  }

  /** The blocks, attempts and leases are where they were, though records or timings may not be. */
  ghost predicate SameFooting(t: Table, t': Table) {
    && t'.cfg == t.cfg && t'.epoch == t.epoch && t'.state == t.state && t'.attempts == t.attempts
    && t'.committed == t.committed && t'.leases.Keys == t.leases.Keys
  }

  ghost predicate LighterOrSame(t: Table, t': Table) {
    && |t'.state| == |t.state| && t'.cfg == t.cfg
    && (SameFooting(t, t') || Below(t', t))
  }

  lemma SameWeight(t: Table, t': Table)
    requires SameFooting(t, t')
    ensures Weight(t') == Weight(t)
  {
    assert |t'.leases| == |t'.leases.Keys| && |t.leases| == |t.leases.Keys|;
  }

  lemma WeightFalls(t: Table, t': Table)
    requires Inv(t) && Inv(t') && LighterOrSame(t, t')
    ensures Weight(t') <= Weight(t)
    ensures !SameFooting(t, t') ==> Weight(t') < Weight(t)
  {
    if SameFooting(t, t') {
      SameWeight(t, t');
    } else {
      BelowIsLighter(t', t);
    }
  }

  lemma ReclaimFalls(t: Table, ids: set<LeaseId>)
    requires Inv(t) && ids <= t.leases.Keys
    ensures LighterOrSame(t, Reclaim(t, ids, true))
  {
    ReclaimLowers(t, ids);
  }

  lemma CommitFalls(t: Table, c: ClusterId, id: LeaseId, through: int, now: real)
    requires Inv(t)
    ensures LighterOrSame(t, OrSame(Commit(t, c, id, through, now), t))
  {
    if id in t.leases && t.leases[id].cluster == c {
      CommitShape(t, c, id, through, now);
      var l := t.leases[id];
      if ClampThrough(l, through) == l.committedEnd {
        CommitNothing(t, c, id, through, now);
      }
    }
  }

  /** A grant from the pool uses up free blocks; a grant by stealing uses up room for leases. */
  lemma ServesFalls(t: Table, a: AcquireCall, spans: seq<Interval>, t1: Table, g: Grant, t': Table)
    requires Inv(t) && a.cluster in t.clusters && Serves(t, a, spans, t1, g, t')
    ensures LighterOrSame(t, t')
  {
    hide Inv, InvPending, Allots, GrantSize, Install, FreeBlocks;
    var want := GrantSize(t, a.cluster, a.blocks, a.clock);
    ServesState(t, a, spans, t1, g, t');
    NumbersBelow(t);
    AllotLeaseKeys(t, a.cluster, want, a.maxSpans, spans, t1);
    if spans == [] {
      assert t'.state == t.state;
    } else {
      var ttl := GrantedTtl(t.cfg, t.clusters[a.cluster], a.ttl);
      InstallAddsLeases(t1, a.cluster, spans, |spans|, ttl, a.now);
      assert spans[..|spans|] == spans;
      FreeShrinks(t.state, t'.state, spans);
    }
  }

  lemma NumbersBelow(t: Table)
    requires Inv(t)
    ensures 0 <= t.lastNumber && t.cfg.numBlocks != 0
    ensures forall id :: id in t.leases ==> NumberOf(id) <= t.lastNumber
  {
    forall id | id in t.leases ensures NumberOf(id) <= t.lastNumber {
      assert LeaseOk(t.leases[id], id, t.epoch, |t.state|, t.clusters.Keys, t.lastNumber);
    }
  }

  lemma FreeShrinks(s: seq<BlockState>, s': seq<BlockState>, spans: seq<Interval>)
    requires |s'| == |s| && forall p :: 0 <= p < |s| ==> s'[p] == if InSpans(spans, p) then Leased else s[p]
    ensures |FreeBlocks(s')| <= |FreeBlocks(s)|
  {
    SubsetSize(FreeBlocks(s'), FreeBlocks(s));
  }

  lemma AllotLeaseKeys(t: Table, c: ClusterId, want: int, maxSpans: int, spans: seq<Interval>, t1: Table)
    requires c in t.clusters && Allots(t, c, want, maxSpans, spans, t1)
    ensures t1.leases.Keys == t.leases.Keys && t1.lastNumber == t.lastNumber && t1.cfg == t.cfg
  {
  }

  /** Every span of a grant becomes a lease under a new id. */
  lemma {:induction false} InstallAddsLeases(t: Table, c: ClusterId, spans: seq<Interval>, k: nat, ttl: real, now: real)
    requires c in t.clusters && t.cfg.numBlocks != 0 && k <= |spans|
    requires forall id :: id in t.leases ==> NumberOf(id) <= t.lastNumber
    requires 0 <= t.lastNumber
    ensures var t' := Install(t, c, spans[..k], ttl, now);
            && |t'.leases| == |t.leases| + k && t.leases.Keys <= t'.leases.Keys
            && forall id :: id in t'.leases ==> NumberOf(id) <= t'.lastNumber
  {
    if k > 0 {
      InstallAddsLeases(t, c, spans, k - 1, ttl, now);
      assert spans[..k][..k - 1] == spans[..k - 1];
      hide *;
      InstallNext(t, c, spans, k, ttl, now);
      OneMoreLease(Install(t, c, spans[..k - 1], ttl, now), c, spans[k - 1], ttl, now);
    }
  }

  lemma InstallNext(t: Table, c: ClusterId, spans: seq<Interval>, k: nat, ttl: real, now: real)
    requires c in t.clusters && t.cfg.numBlocks != 0 && 0 < k <= |spans|
    ensures var before := Install(t, c, spans[..k - 1], ttl, now);
            && c in before.clusters && before.cfg.numBlocks != 0 && before.lastNumber == t.lastNumber + k - 1
            && Install(t, c, spans[..k], ttl, now) == InstallOne(before, c, spans[k - 1], ttl, now)
  {
    assert spans[..k][..k - 1] == spans[..k - 1];
  }

  lemma OneMoreLease(t: Table, c: ClusterId, s: Interval, ttl: real, now: real)
    requires c in t.clusters && t.cfg.numBlocks != 0 && forall id :: id in t.leases ==> NumberOf(id) <= t.lastNumber
    ensures var t' := InstallOne(t, c, s, ttl, now);
            && |t'.leases| == |t.leases| + 1 && t.leases.Keys <= t'.leases.Keys
            && forall id :: id in t'.leases ==> NumberOf(id) <= t'.lastNumber
  {
    var l := NewLease(t, c, s, t.lastNumber + 1, ttl, now);
    assert l.id !in t.leases;
  }

  // --- whole runs -------------------------------------------------------------

  predicate Accountable(call: Call) {
    call.CallRelease? ==> call.counted
  }

  lemma CallFalls(t: Table, call: Call, t': Table)
    requires Inv(t) && t.cfg.maxAttempts >= 1 && Next(t, call, t') && Accountable(call) && t'.epoch == t.epoch
    ensures Inv(t') && t'.cfg == t.cfg && Weight(t') <= Weight(t)
    ensures Progressed(t, t') ==> Weight(t') < Weight(t)
  {
    hide Inv, InvPending, Weight, Progressed, Acquires, Register, Heartbeat, Commit, Release, Reap, Advance, LighterOrSame;
    NextKeeps(t, call, t');
    match call
    case CallRegister(c, digest, ranks, incarnation, check, now) =>
      RegisterStands(t, c, digest, ranks, incarnation, check, now);
      Stands(t, t');
    case CallAcquire(a) =>
      var g :| Acquires(t, a, g, t');
      AcquireFalls(t, a, g, t');
    case CallHeartbeat(c, progress, macroStep, rtt, ttl, now) => HeartbeatFalls(t, c, progress, macroStep, rtt, ttl, now);
    case CallCommit(c, id, through, now) =>
      CommitFalls(t, c, id, through, now);
      Falls(t, t');
    case CallRelease(c, target, incarnation, counted) =>
      ReleaseFalls(t, c, target, incarnation);
      Falls(t, t');
    case CallReap(now) => ReapFalls(t, now);
    case CallAdvance => AdvanceStands(t);
  }

  lemma Stands(t: Table, t': Table)
    requires SameFooting(t, t')
    ensures t'.cfg == t.cfg && Weight(t') <= Weight(t) && !Progressed(t, t')
  {
    SameWeight(t, t');
  }

  lemma Falls(t: Table, t': Table)
    requires Inv(t) && Inv(t') && LighterOrSame(t, t')
    ensures t'.cfg == t.cfg && Weight(t') <= Weight(t)
    ensures Progressed(t, t') ==> Weight(t') < Weight(t)
  {
    hide Inv, InvPending, Weight, Below;
    WeightFalls(t, t');
  }

  lemma RegisterStands(t: Table, c: ClusterId, digest: string, ranks: int, incarnation: string, check: bool, now: real)
    ensures SameFooting(t, OrSame(Register(t, c, digest, ranks, incarnation, check, now), t))
  {
  }

  lemma AdvanceStands(t: Table)
    requires Advance(t).epoch == t.epoch
    ensures Advance(t) == t && !Progressed(t, t)
  {
  }

  lemma ReleaseFalls(t: Table, c: ClusterId, target: Option<LeaseId>, incarnation: string)
    requires Inv(t)
    ensures LighterOrSame(t, Release(t, c, target, incarnation, true))
  {
    hide Inv, InvPending, LighterOrSame, Reclaim;
    ReclaimFalls(t, ReleaseTargets(t, c, target, incarnation));
  }

  lemma HeartbeatFalls(t: Table, c: ClusterId, progress: map<LeaseId, int>, macroStep: real, rtt: real, ttl: real, now: real)
    requires Inv(t)
    ensures var t' := Heartbeat(t, c, progress, macroStep, rtt, ttl, now);
            && t'.cfg == t.cfg && Weight(t') <= Weight(t)
            && (Progressed(t, t') ==> Weight(t') < Weight(t))
  {
    hide Inv, InvPending, Weight, Reap;
    ReapFalls(t, now);
    SameWeight(Reap(t, now), Heartbeat(t, c, progress, macroStep, rtt, ttl, now));
  }

  lemma ReapFalls(t: Table, now: real)
    requires Inv(t)
    ensures Weight(Reap(t, now)) <= Weight(t) && Reap(t, now).cfg == t.cfg && Reap(t, now).epoch == t.epoch
    ensures Progressed(t, Reap(t, now)) ==> Weight(Reap(t, now)) < Weight(t)
  {
    ReclaimFalls(t, Expired(t, now));
    ReapKeeps(t, now);
    hide Inv, InvPending, Weight, Below, Reclaim;
    WeightFalls(t, Reap(t, now));
  }

  lemma AcquireFalls(t: Table, a: AcquireCall, g: Grant, t': Table)
    requires Inv(t) && Inv(t') && t.cfg.maxAttempts >= 1 && Acquires(t, a, g, t') && t'.epoch == t.epoch
    ensures Weight(t') <= Weight(t) && t'.cfg == t.cfg
    ensures Progressed(t, t') ==> Weight(t') < Weight(t)
  {
    var ready := Prepared(t, a);
    PreparedFalls(t, a);
    PreparedKeeps(t, a);
    if !(Finished(ready) && !CanAdvance(ready)) {
      var spans, t1 :| Serves(Rolled(ready), a, spans, t1, g, t');
      RolledKeeps(ready);
      ServesState(Rolled(ready), a, spans, t1, g, t');
      assert Rolled(ready) == ready;
      ServesFalls(ready, a, spans, t1, g, t');
      hide Inv, InvPending, Weight, Below, Serves, Prepared, Rolled;
      WeightFalls(ready, t');
    }
  }

  lemma PreparedFalls(t: Table, a: AcquireCall)
    requires Inv(t)
    ensures var ready := Prepared(t, a);
            && Weight(ready) <= Weight(t) && ready.cfg == t.cfg && ready.epoch == t.epoch
            && (Progressed(t, ready) ==> Weight(ready) < Weight(t))
  {
    ReapFalls(t, a.now);
    hide Weight, Reap;
    SameWeight(Reap(t, a.now), Prepared(t, a));
  }

  /** How many of the first k calls of a run changed a block or the set of leases. */
  ghost function ProgressCount(trace: seq<Table>, calls: seq<Call>, k: nat): nat
    requires k <= |calls| < |trace|
  {
    if k == 0 then 0
    else ProgressCount(trace, calls, k - 1) + if Progressed(trace[k - 1], trace[k]) then 1 else 0
  }

  /** Within one epoch the calls that make any difference are bounded by the weight at the start,
      whatever the clients do and however often leases expire. */
  lemma {:induction false} EpochTerminates(trace: seq<Table>, calls: seq<Call>, k: nat)
    requires IsRun(trace, calls) && Inv(trace[0]) && trace[0].cfg.maxAttempts >= 1 && k <= |calls|
    requires forall i :: 0 <= i < |calls| ==> Accountable(calls[i])
    requires forall i :: 0 <= i < |trace| ==> trace[i].epoch == trace[0].epoch
    ensures Inv(trace[k]) && trace[k].cfg == trace[0].cfg
    ensures 0 <= Weight(trace[k]) && ProgressCount(trace, calls, k) + Weight(trace[k]) <= Weight(trace[0])
  {
    hide *;
    ProgressUnfolds(trace, calls, k);
    if k > 0 {
      EpochTerminates(trace, calls, k - 1);
      StepOf(trace, calls, k - 1);
      CallFalls(trace[k - 1], calls[k - 1], trace[k]);
    }
    WeightIsNatural(trace[k]);
  }

  lemma ProgressUnfolds(trace: seq<Table>, calls: seq<Call>, k: nat)
    requires IsRun(trace, calls) && k <= |calls|
    ensures |trace| == |calls| + 1
    ensures ProgressCount(trace, calls, k) ==
            if k == 0 then 0 else ProgressCount(trace, calls, k - 1) + if Progressed(trace[k - 1], trace[k]) then 1 else 0
  {
  }

  lemma WeightIsNatural(t: Table)
    requires Inv(t) && t.cfg.maxAttempts >= 1
    ensures 0 <= Weight(t)
  {
    hide Inv, InvPending, Slack, FreeBlocks, Digits;
    DigitBounds(t);
    SlackBounds(t, |t.state|);
    NaturalDigits(Slack(t.attempts, t.cfg.maxAttempts, |t.state|), |t.state| - t.committed, |FreeBlocks(t.state)|,
                  |t.state| - |t.leases|, |t.state| + 1);
  }

  lemma NaturalDigits(s: int, c: int, f: int, n: int, base: int)
    requires 0 <= s && 0 <= c && 0 <= f && 0 <= n && 0 <= base
    ensures 0 <= Digits(s, c, f, n, base)
  {
    ProductGrows(0, s, base);
    ProductGrows(0, s * base + c, base);
    ProductGrows(0, (s * base + c) * base + f, base);
  }
}
