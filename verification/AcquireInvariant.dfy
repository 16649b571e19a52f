/** Granting keeps the table's views in agreement: leases cut from the pool, stolen from
    stragglers, or reinstated from a recorded grant. */
module AcquireInvariant {
  import opened Intervals
  import opened Arithmetic
  import opened LeaseModel
  import opened LeaseInvariant

  // --- installing one lease -----------------------------------------------------

  ghost predicate Grantable(state: seq<BlockState>, leases: map<LeaseId, Lease>, lo: int, hi: int) {
    && 0 <= lo < hi <= |state|
    && (forall p :: lo <= p < hi ==> (state[p] == Unassigned || state[p] == Leased) && !Covered(leases, p))
  }

  lemma GrantApart(state: seq<BlockState>, leases: map<LeaseId, Lease>, l: Lease)
    requires Apart(leases) && Grantable(state, leases, l.start, l.end) && l.committedEnd == l.start
    requires forall id :: id in leases ==> leases[id].committedEnd < leases[id].end
    requires l.id !in leases
    ensures Apart(leases[l.id := l])
  {
    forall i | i in leases ensures leases[i].end <= l.start || l.end <= leases[i].committedEnd {
      if leases[i].end > l.start && l.end > leases[i].committedEnd {
        assert Covered(leases, Max(leases[i].committedEnd, l.start)) by {
          assert Holds(leases[i], Max(leases[i].committedEnd, l.start));
        }
        assert false;
      }
    }
  }

  lemma GrantBacked(state: seq<BlockState>, leases: map<LeaseId, Lease>, l: Lease)
    requires Backed(state, leases) && Grantable(state, leases, l.start, l.end) && l.committedEnd == l.start
    ensures Backed(Filled(state, l.start, l.end, Leased), leases[l.id := l])
  {
    var state', leases' := Filled(state, l.start, l.end, Leased), leases[l.id := l];
    forall id, p | id in leases' && Holds(leases'[id], p) && 0 <= p < |state| ensures state'[p] == Leased {
      if id != l.id { assert Holds(leases[id], p); }
    }
    forall id, p | id in leases' && leases'[id].start <= p < leases'[id].committedEnd && 0 <= p < |state|
      ensures state'[p] == Committed
    {
      assert id != l.id && state[p] == Committed;
    }
  }

  lemma GrantCoverage(state: seq<BlockState>, leases: map<LeaseId, Lease>, l: Lease, pending: set<int>)
    requires Coverage(state, leases, pending) && Grantable(state, leases, l.start, l.end)
    requires l.committedEnd == l.start && l.id !in leases
    ensures Coverage(Filled(state, l.start, l.end, Leased), leases[l.id := l], pending - Range(l.start, l.end))
  {
    var state', leases' := Filled(state, l.start, l.end, Leased), leases[l.id := l];
    forall p ensures Covered(leases', p) <==> Covered(leases, p) || l.start <= p < l.end {
      if Covered(leases, p) {
        var i :| i in leases && Holds(leases[i], p);
        assert i in leases' && Holds(leases'[i], p);
      }
      if l.start <= p < l.end { assert Holds(leases'[l.id], p); }
    }
  }

  lemma GrantCounts(state: seq<BlockState>, lo: int, hi: int, committed: int, quarantined: int)
    requires Counted(state, committed, quarantined) && 0 <= lo <= hi <= |state|
    requires forall p :: lo <= p < hi ==> state[p] == Unassigned || state[p] == Leased
    ensures Counted(Filled(state, lo, hi, Leased), committed, quarantined)
  {
    var state' := Filled(state, lo, hi, Leased);
    assert Where(state', Committed) == Where(state, Committed);
    assert Where(state', Quarantined) == Where(state, Quarantined);
  }

  lemma GrantLeases(leases: map<LeaseId, Lease>, l: Lease, epoch: int, blocks: int, clusters: set<ClusterId>,
                    lastNumber: int, lastNumber': int)
    requires LeasesOk(leases, epoch, blocks, clusters, lastNumber)
    requires lastNumber <= lastNumber' && LeaseOk(l, l.id, epoch, blocks, clusters, lastNumber')
    ensures LeasesOk(leases[l.id := l], epoch, blocks, clusters, lastNumber')
  {
    forall id | id in leases && id != l.id
      ensures LeaseOk(leases[id], id, epoch, blocks, clusters, lastNumber')
    {
      assert LeaseOk(leases[id], id, epoch, blocks, clusters, lastNumber);
    }
  }

  /** Any new lease over grantable positions, whoever it is for and however it was found. */
  lemma GrantKeeps(t: Table, l: Lease, pending: set<int>, lastNumber: int)
    requires InvPending(t, pending) && Grantable(t.state, t.leases, l.start, l.end)
    requires l.committedEnd == l.start && l.id !in t.leases && t.lastNumber <= lastNumber
    requires LeaseOk(l, l.id, t.epoch, |t.state|, t.clusters.Keys, lastNumber)
    ensures InvPending(Leasing(t, l, lastNumber), pending - Range(l.start, l.end))
  {
    forall id | id in t.leases ensures t.leases[id].committedEnd < t.leases[id].end {
      assert LeaseOk(t.leases[id], id, t.epoch, |t.state|, t.clusters.Keys, t.lastNumber);
    }
    forall p | l.start <= p < l.end && 0 <= p < |t.state| ensures t.state[p] != Quarantined {
    }
    assert forall p :: l.start <= p < l.end ==> t.state[p] == Unassigned || t.state[p] == Leased;
    hide Backed, Coverage, Apart, AttemptsOk, Counted, Credit, LeasesOk, Grantable, Filled;
    GrantLeases(t.leases, l, t.epoch, |t.state|, t.clusters.Keys, t.lastNumber, lastNumber);
    GrantApart(t.state, t.leases, l);
    GrantBacked(t.state, t.leases, l);
    GrantCoverage(t.state, t.leases, l, pending);
    GrantCounts(t.state, l.start, l.end, t.committed, t.quarantined);
    FillAttempts(t.cfg, t.state, t.attempts, l.start, l.end, Leased);
  }

  lemma LeasingKeeps(t: Table, c: ClusterId, s: Interval, ttl: real, now: real, pending: set<int>)
    requires InvPending(t, pending) && c in t.clusters
    requires s.lo < s.hi && Range(s.lo, s.hi) <= pending
    ensures InvPending(Leasing(t, NewLease(t, c, s, t.lastNumber + 1, ttl, now), t.lastNumber + 1),
                       pending - Range(s.lo, s.hi))
  {
    var l := NewLease(t, c, s, t.lastNumber + 1, ttl, now);
    PendingGrantable(t, pending, s);
    FreshId(t, pending, l.id);
    GrantKeeps(t, l, pending, t.lastNumber + 1);
  }

  lemma CursorKeeps(t: Table, pending: set<int>, c: ClusterId, cursor: int)
    requires InvPending(t, pending) && c in t.clusters
    ensures InvPending(WithCursor(t, c, cursor), pending)
  {
    RecordsKeep(t, pending, c, t.clusters[c].(cursor := cursor));
  }

  lemma InstallOneKeeps(t: Table, c: ClusterId, s: Interval, ttl: real, now: real, pending: set<int>)
    requires InvPending(t, pending) && c in t.clusters
    requires s.lo < s.hi && Range(s.lo, s.hi) <= pending
    ensures InvPending(InstallOne(t, c, s, ttl, now), pending - Range(s.lo, s.hi))
  {
    var t1 := Leasing(t, NewLease(t, c, s, t.lastNumber + 1, ttl, now), t.lastNumber + 1);
    assert c in t1.clusters && InstallOne(t, c, s, ttl, now) == WithCursor(t1, c, s.hi % t.cfg.numBlocks);
    hide *;
    LeasingKeeps(t, c, s, ttl, now, pending);
    CursorKeeps(t1, pending - Range(s.lo, s.hi), c, s.hi % t.cfg.numBlocks);
  }

  lemma FreshId(t: Table, pending: set<int>, id: LeaseId)
    requires InvPending(t, pending) && NumberOf(id) > t.lastNumber
    ensures id !in t.leases
  {
    assert id in t.leases ==> LeaseOk(t.leases[id], id, t.epoch, |t.state|, t.clusters.Keys, t.lastNumber);
  }

  lemma PendingGrantable(t: Table, pending: set<int>, s: Interval)
    requires InvPending(t, pending) && s.lo < s.hi && Range(s.lo, s.hi) <= pending
    ensures Grantable(t.state, t.leases, s.lo, s.hi) && 0 <= t.lastNumber
  {
    assert s.lo in pending && s.hi - 1 in pending;
    forall p | s.lo <= p < s.hi
      ensures 0 <= p < |t.state| && (t.state[p] == Unassigned || t.state[p] == Leased) && !Covered(t.leases, p)
    {
      assert p in pending;
    }
  }

  // --- installing a whole grant ---------------------------------------------------

  lemma {:induction false} InstallKeeps(t: Table, c: ClusterId, spans: seq<Interval>, k: nat, ttl: real, now: real)
    requires c in t.clusters && k <= |spans|
    requires InvPending(t, SpanBlocks(spans)) && Disjoint(spans)
    requires forall i :: 0 <= i < |spans| ==> spans[i].lo < spans[i].hi
    ensures InvPending(Install(t, c, spans[..k], ttl, now), SpanBlocks(spans[k..]))
    decreases k
  {
    if k == 0 {
      assert spans[k..] == spans;
    } else {
      InstallKeeps(t, c, spans, k - 1, ttl, now);
      var s := spans[k - 1];
      assert spans[..k][..k - 1] == spans[..k - 1];
      RestOfSpans(spans, k);
      hide InvPending, InstallOne, SpanBlocks;
      InstallOneKeeps(Install(t, c, spans[..k - 1], ttl, now), c, s, ttl, now, SpanBlocks(spans[k - 1..]));
    }
  }

  lemma RestOfSpans(spans: seq<Interval>, k: nat)
    requires 0 < k <= |spans| && Disjoint(spans)
    ensures Range(spans[k - 1].lo, spans[k - 1].hi) <= SpanBlocks(spans[k - 1..])
    ensures SpanBlocks(spans[k..]) == SpanBlocks(spans[k - 1..]) - Range(spans[k - 1].lo, spans[k - 1].hi)
  {
    var a, b := spans[k - 1..], spans[k..];
    forall p ensures InSpans(a, p) <==> InSpans(b, p) || spans[k - 1].lo <= p < spans[k - 1].hi {
      if InSpans(b, p) {
        var i :| 0 <= i < |b| && b[i].lo <= p < b[i].hi;
        assert a[i + 1] == b[i];
      }
      if InSpans(a, p) {
        var i :| 0 <= i < |a| && a[i].lo <= p < a[i].hi;
        if i > 0 { assert b[i - 1] == a[i]; }
      }
      if spans[k - 1].lo <= p < spans[k - 1].hi { assert a[0].lo <= p < a[0].hi; }
    }
    forall p | spans[k - 1].lo <= p < spans[k - 1].hi ensures !InSpans(b, p) {
      forall i | 0 <= i < |b| ensures !(b[i].lo <= p < b[i].hi) {
        assert b[i] == spans[k + i];
      }
    }
  }

  /** Spans taken from the free pool are set aside, not yet leased. */
  lemma TakenPending(t: Table, pool: set<int>, spans: seq<Interval>)
    requires Inv(t) && pool == FreeBlocks(t.state)
    requires forall p :: InSpans(spans, p) ==> p in pool
    ensures InvPending(t, SpanBlocks(spans))
  {
    forall p | p in SpanBlocks(spans)
      ensures 0 <= p < |t.state| && t.state[p] == Unassigned && !Covered(t.leases, p)
    {
      assert p in pool;
    }
  }

  // --- stealing -------------------------------------------------------------------

  /** Each victim's lease loses exactly its span, off the far end, and keeps more than half
      of what it had not started. */
  ghost predicate Trimmed(leases: map<LeaseId, Lease>, leases': map<LeaseId, Lease>, victims: seq<LeaseId>,
                          spans: seq<Interval>)
  {
    && |victims| == |spans| && leases'.Keys == leases.Keys
    && (forall i, j :: 0 <= i < j < |victims| ==> victims[i] != victims[j])
    && (forall i :: 0 <= i < |victims| ==>
          && victims[i] in leases
          && spans[i].hi == leases[victims[i]].end
          && Unstarted(leases[victims[i]]) < spans[i].lo < spans[i].hi
          && leases'[victims[i]] == leases[victims[i]].(end := spans[i].lo))
    && (forall id :: id in leases && id !in victims ==> leases'[id] == leases[id])
  }

  /** The holder keeps at least half of its unstarted tail, so no steal empties a lease. */
  lemma AmountBound(cfg: Config, l: Lease, left: int)
    requires ConfigOk(cfg) && Stealable(l) >= cfg.stealMinBlocks * 2
    ensures 2 * StealAmount(cfg, l, left) <= Stealable(l)
    ensures Unstarted(l) < l.end - StealAmount(cfg, l, left)
  {
  }

  lemma StealTrims(t: Table, thief: ClusterId, want: int, victims: seq<LeaseId>, spans: seq<Interval>, t': Table)
    requires ConfigOk(t.cfg) && StoleFrom(t, thief, want, victims, spans, t')
    ensures Trimmed(t.leases, t'.leases, victims, spans)
  {
    forall i | 0 <= i < |victims|
      ensures Unstarted(t.leases[victims[i]]) < spans[i].lo < spans[i].hi == t.leases[victims[i]].end
    {
      assert Candidate(t.cfg, t.leases, thief, victims[i]);
      AmountBound(t.cfg, t.leases[victims[i]], want - SpanTotal(spans[..i]));
    }
  }

  lemma TrimmedLeases(leases: map<LeaseId, Lease>, leases': map<LeaseId, Lease>, victims: seq<LeaseId>,
                      spans: seq<Interval>, epoch: int, blocks: int, clusters: set<ClusterId>, lastNumber: int)
    requires Trimmed(leases, leases', victims, spans) && LeasesOk(leases, epoch, blocks, clusters, lastNumber)
    ensures LeasesOk(leases', epoch, blocks, clusters, lastNumber)
    ensures forall id :: id in leases ==>
      leases'[id].start == leases[id].start && leases'[id].committedEnd == leases[id].committedEnd
      && leases'[id].end <= leases[id].end
  {
    forall id | id in leases'
      ensures LeaseOk(leases'[id], id, epoch, blocks, clusters, lastNumber)
      ensures leases'[id].start == leases[id].start && leases'[id].committedEnd == leases[id].committedEnd
      ensures leases'[id].end <= leases[id].end
    {
      assert LeaseOk(leases[id], id, epoch, blocks, clusters, lastNumber);
      if id in victims {
        var i :| 0 <= i < |victims| && victims[i] == id;
      }
    }
  }

  lemma ShrunkApart(state: seq<BlockState>, leases: map<LeaseId, Lease>, leases': map<LeaseId, Lease>)
    requires Apart(leases) && Backed(state, leases) && leases'.Keys == leases.Keys
    requires forall id :: id in leases ==>
      leases'[id].start == leases[id].start && leases'[id].committedEnd == leases[id].committedEnd
      && leases'[id].end <= leases[id].end
    ensures Apart(leases') && Backed(state, leases')
  {
    forall id, p | id in leases' && Holds(leases'[id], p) ensures Holds(leases[id], p) {
    }
  }

  lemma TrimmedDisjoint(leases: map<LeaseId, Lease>, leases': map<LeaseId, Lease>, victims: seq<LeaseId>,
                        spans: seq<Interval>)
    requires Trimmed(leases, leases', victims, spans) && Apart(leases)
    ensures Disjoint(spans)
  {
    forall i, j | 0 <= i < j < |spans| ensures spans[i].hi <= spans[j].lo || spans[j].hi <= spans[i].lo {
      var a, b := leases[victims[i]], leases[victims[j]];
      assert a.committedEnd <= Unstarted(a) && b.committedEnd <= Unstarted(b);
    }
  }

  /** A stolen position was its victim's, and is nobody's until the thief's lease is installed. */
  lemma TrimmedAway(leases: map<LeaseId, Lease>, leases': map<LeaseId, Lease>, victims: seq<LeaseId>,
                    spans: seq<Interval>, k: nat, p: int)
    requires Trimmed(leases, leases', victims, spans) && Apart(leases)
    requires k < |spans| && spans[k].lo <= p < spans[k].hi
    ensures Holds(leases[victims[k]], p) && !Covered(leases', p)
  {
    assert leases[victims[k]].committedEnd <= Unstarted(leases[victims[k]]);
    forall id | id in leases' ensures !Holds(leases'[id], p) {
      if id in victims {
        var j :| 0 <= j < |victims| && victims[j] == id;
        assert leases'[id].end <= leases[id].end;
      }
    }
  }

  lemma TrimmedCovered(state: seq<BlockState>, leases: map<LeaseId, Lease>, leases': map<LeaseId, Lease>,
                       victims: seq<LeaseId>, spans: seq<Interval>, p: int)
    requires Trimmed(leases, leases', victims, spans) && Covered(leases, p)
    ensures InSpans(spans, p) || Covered(leases', p)
  {
    var id :| id in leases && Holds(leases[id], p);
    if id in victims {
      var i :| 0 <= i < |victims| && victims[i] == id;
      if p >= spans[i].lo { assert InSpans(spans, p); } else { assert Holds(leases'[id], p); }
    } else {
      assert Holds(leases'[id], p);
    }
  }

  lemma TrimmedCoverage(state: seq<BlockState>, leases: map<LeaseId, Lease>, leases': map<LeaseId, Lease>,
                        victims: seq<LeaseId>, spans: seq<Interval>)
    requires Trimmed(leases, leases', victims, spans) && Apart(leases) && Backed(state, leases)
    requires Coverage(state, leases, {}) && forall id :: id in leases ==> 0 <= leases[id].committedEnd && leases[id].end <= |state|
    ensures Coverage(state, leases', SpanBlocks(spans))
  {
    forall p | InSpans(spans, p) ensures 0 <= p < |state| && state[p] == Leased && !Covered(leases', p) {
      var i :| 0 <= i < |spans| && spans[i].lo <= p < spans[i].hi;
      TrimmedAway(leases, leases', victims, spans, i, p);
    }
    forall p | 0 <= p < |state| && state[p] == Leased ensures InSpans(spans, p) || Covered(leases', p) {
      TrimmedCovered(state, leases, leases', victims, spans, p);
    }
  }

  lemma StealKeeps(t: Table, thief: ClusterId, want: int, victims: seq<LeaseId>, spans: seq<Interval>, t': Table)
    requires Inv(t) && StoleFrom(t, thief, want, victims, spans, t')
    ensures InvPending(t', SpanBlocks(spans)) && Disjoint(spans)
    ensures forall i :: 0 <= i < |spans| ==> spans[i].lo < spans[i].hi
  {
    StealTrims(t, thief, want, victims, spans, t');
    assert t' == t.(leases := t'.leases);
    assert forall i :: 0 <= i < |spans| ==> spans[i].lo < spans[i].hi;
    forall id | id in t.leases ensures 0 <= t.leases[id].committedEnd && t.leases[id].end <= |t.state| {
      assert LeaseOk(t.leases[id], id, t.epoch, |t.state|, t.clusters.Keys, t.lastNumber);
    }
    StealKeepsParts(t, victims, spans, t'.leases);
  }

  lemma StealKeepsParts(t: Table, victims: seq<LeaseId>, spans: seq<Interval>, leases': map<LeaseId, Lease>)
    requires Inv(t) && Trimmed(t.leases, leases', victims, spans)
    requires forall id :: id in t.leases ==> 0 <= t.leases[id].committedEnd && t.leases[id].end <= |t.state|
    ensures InvPending(t.(leases := leases'), SpanBlocks(spans)) && Disjoint(spans)
  {
    hide Backed, Coverage, Apart, AttemptsOk, Counted, Credit, LeasesOk, SpanBlocks, Disjoint;
    TrimmedLeases(t.leases, leases', victims, spans, t.epoch, |t.state|, t.clusters.Keys, t.lastNumber);
    ShrunkApart(t.state, t.leases, leases');
    TrimmedDisjoint(t.leases, leases', victims, spans);
    TrimmedCoverage(t.state, t.leases, leases', victims, spans);
  }

  // --- acquiring ------------------------------------------------------------------

  lemma PreparedKeeps(t: Table, a: AcquireCall)
    requires Inv(t)
    ensures Inv(Prepared(t, a))
  {
    hide InvPending;
    ReclaimKeeps(t, Expired(t, a.now), true);
    TouchedKeeps(Reap(t, a.now), a.cluster, a.macroStep, a.rtt, a.now);
  }

  lemma RolledKeeps(t: Table)
    requires Inv(t)
    ensures Inv(Rolled(t))
  {
    AdvanceKeeps(t);
  }

  lemma AllotKeeps(t: Table, c: ClusterId, want: int, maxSpans: int, spans: seq<Interval>, t': Table)
    requires Inv(t) && c in t.clusters && Allots(t, c, want, maxSpans, spans, t')
    ensures InvPending(t', SpanBlocks(spans)) && Disjoint(spans) && t'.clusters == t.clusters
    ensures forall i :: 0 <= i < |spans| ==> spans[i].lo < spans[i].hi
    ensures spans == [] ==> t' == t
  {
    assert spans == [] ==> SpanBlocks(spans) == {};
    if FreeBlocks(t.state) == {} || want <= 0 || maxSpans <= 0 {
      if t.cfg.allowStealing {
        var victims :| StoleFrom(t, c, want, victims, spans, t');
        assert t'.clusters == t.clusters && (spans == [] ==> t'.leases == t.leases);
        hide *;
        StealKeeps(t, c, want, victims, spans, t');
      }
    } else {
      hide InvPending;
      TakenPending(t, FreeBlocks(t.state), spans);
    }
  }

  lemma ServesKeeps(t: Table, a: AcquireCall, spans: seq<Interval>, t1: Table, g: Grant, t': Table)
    requires Inv(t) && a.cluster in t.clusters && Serves(t, a, spans, t1, g, t')
    ensures Inv(t')
  {
    AllotKeeps(t, a.cluster, GrantSize(t, a.cluster, a.blocks, a.clock), a.maxSpans, spans, t1);
    if spans != [] {
      var ttl := GrantedTtl(t.cfg, t.clusters[a.cluster], a.ttl);
      hide InvPending, SpanBlocks, Disjoint, Allots, Install, GrantSize;
      InstallKeeps(t1, a.cluster, spans, |spans|, ttl, a.now);
      assert spans[..|spans|] == spans;
      assert spans[|spans|..] == [] && SpanBlocks([]) == {};
    }
  }

  lemma AcquireKeeps(t: Table, a: AcquireCall, g: Grant, t': Table)
    requires Inv(t) && Acquires(t, a, g, t')
    ensures Inv(t')
  {
    PreparedKeeps(t, a);
    var ready := Prepared(t, a);
    if !(Finished(ready) && !CanAdvance(ready)) {
      RolledKeeps(ready);
      var spans, t1 :| Serves(Rolled(ready), a, spans, t1, g, t');
      ServesKeeps(Rolled(ready), a, spans, t1, g, t');
    }
  }

  // --- replaying a recorded grant -------------------------------------------------

  lemma ReplayLeaseKeeps(t: Table, l: Lease, floor: real)
    requires Inv(t) && Recordable(l, |t.state|) && l.cluster in t.clusters
    ensures Inv(ReplayLease(t, l, floor))
  {
    var lo := FirstFree(t.state, l.start, l.end);
    var hi := FreeRunEnd(t.state, lo, l.end);
    if l.epoch == t.epoch && l.id !in t.leases && lo < hi {
      FreeGrantable(t, lo, hi);
      var n := Max(t.lastNumber, NumberOf(l.id));
      assert LeaseOk(Reinstated(l, lo, hi, floor), l.id, t.epoch, |t.state|, t.clusters.Keys, n);
      hide InvPending, Grantable, LeaseOk, Leasing;
      GrantKeeps(t, Reinstated(l, lo, hi, floor), {}, n);
      assert {} - Range(lo, hi) == {};
    }
  }

  lemma FreeGrantable(t: Table, lo: int, hi: int)
    requires Inv(t) && 0 <= lo < hi <= |t.state|
    requires forall p :: lo <= p < hi ==> t.state[p] == Unassigned
    ensures Grantable(t.state, t.leases, lo, hi) && 0 <= t.lastNumber
  {
    forall p | lo <= p < hi ensures !Covered(t.leases, p) {
      assert t.state[p] == Unassigned;
    }
  }
}
