/** What an acquire grants, field by field: the leases, the records and the size of the request it honours. */
module Grants {
  import opened Intervals
  import opened LeaseModel
  import opened LeaseRuns
  import DrainSafety

  // --- before the answer ------------------------------------------------------------

  /** Before it answers, an acquire reaps: overdue leases are gone and the others as they were. */
  lemma ReapedFirst(t: Table, a: AcquireCall)
    ensures forall id :: id in Prepared(t, a).leases <==> id in t.leases && t.leases[id].deadline >= a.now
    ensures forall id :: id in Prepared(t, a).leases ==> Prepared(t, a).leases[id] == t.leases[id]
    ensures Prepared(t, a) == Reap(t, a.now).(clusters := Prepared(t, a).clusters)
  {
    hide HeldBlocks, Returned, Poisoned, Blamed;
  }

  /** A new epoch begins exactly when every block is settled, nobody holds a lease any more, and the budget
      allows one; where it does not, the answer is that all is over. */
  lemma RollsOverExactly(t: Table, a: AcquireCall, g: Grant, t': Table)
    requires Acquires(t, a, g, t')
    ensures var ready := Prepared(t, a);
            var settled := ready.committed + ready.quarantined >= ready.cfg.numBlocks && ready.leases.Keys == {};
            && (t'.epoch == t.epoch + 1 <==> settled && t.epoch + 1 < t.cfg.maxEpochs)
            && (settled && t.epoch + 1 >= t.cfg.maxEpochs ==> t' == ready && g == Grant(EpochComplete, t.epoch, []))
  {
    hide *;
    var ready := Prepared(t, a);
    PreparedRecords(t, a);
    RolledEpoch(ready);
    if Finished(ready) && !(t.epoch + 1 < t.cfg.maxEpochs) {
      AnsweredOver(t, a, g, t');
    } else {
      var spans, t1 := AnsweredRolled(t, a, g, t');
      ServedRecords(Rolled(ready), a, spans, t1, g, t');
    }
  }

  lemma AnsweredRolled(t: Table, a: AcquireCall, g: Grant, t': Table) returns (spans: seq<Interval>, t1: Table)
    requires Acquires(t, a, g, t')
    requires var ready := Prepared(t, a); !(Finished(ready) && !(ready.epoch + 1 < ready.cfg.maxEpochs))
    ensures var rolled := Rolled(Prepared(t, a));
            a.cluster in rolled.clusters && rolled.cfg.numBlocks != 0 && Serves(rolled, a, spans, t1, g, t')
  {
    hide Prepared, Serves, Finished;
    spans, t1 :| Serves(Rolled(Prepared(t, a)), a, spans, t1, g, t');
  }

  lemma RolledEpoch(t: Table)
    ensures Finished(t) <==> t.committed + t.quarantined >= t.cfg.numBlocks && t.leases.Keys == {}
    ensures Rolled(t).epoch == t.epoch + 1 <==> Finished(t) && t.epoch + 1 < t.cfg.maxEpochs
  {
    assert t.leases == map[] <==> t.leases.Keys == {};
  }

  lemma AnsweredOver(t: Table, a: AcquireCall, g: Grant, t': Table)
    requires Acquires(t, a, g, t') && Finished(Prepared(t, a))
    requires !(Prepared(t, a).epoch + 1 < Prepared(t, a).cfg.maxEpochs)
    ensures t' == Prepared(t, a) && g == Grant(EpochComplete, t'.epoch, [])
  {
    hide Prepared, Serves;
  }

  // --- the records ----------------------------------------------------------------

  /** Where the next search of the pool starts: where the last span of the grant ends, wrapping around;
      without a grant where it was, and at 0 in a new epoch. */
  function NextCursor(t: Table, a: AcquireCall, g: Grant, t': Table): int {
    if g.leases != [] && t.cfg.numBlocks != 0 then g.leases[|g.leases| - 1].end % t.cfg.numBlocks
    else if t'.epoch == t.epoch && a.cluster in t.clusters then t.clusters[a.cluster].cursor
    else 0
  }

  /** The asker was seen now, with the timings it reported, if any, and searches on from the end of its
      grant; of the other records only a new epoch rewinds the cursor. */
  lemma RecordFields(t: Table, a: AcquireCall, g: Grant, t': Table)
    requires Acquires(t, a, g, t')
    ensures t'.clusters.Keys == t.clusters.Keys + {a.cluster} && (t'.epoch == t.epoch || t'.epoch == t.epoch + 1)
    ensures forall d :: d in t.clusters && d != a.cluster ==>
              t'.clusters[d] == t.clusters[d].(cursor := if t'.epoch == t.epoch then t.clusters[d].cursor else 0)
    ensures a.cluster in t.clusters ==>
              var r := t.clusters[a.cluster];
              t'.clusters[a.cluster] ==
                r.(lastSeen := a.now, macroStep := if a.macroStep != 0.0 then a.macroStep else r.macroStep,
                   rtt := if a.rtt != 0.0 then a.rtt else r.rtt, cursor := NextCursor(t, a, g, t'))
    ensures a.cluster !in t.clusters ==>
              t'.clusters[a.cluster] ==
                ClusterRecord(a.now, a.now, 0, 0, a.macroStep, a.rtt, 0.0, NextCursor(t, a, g, t'), "", 0, 0.0)
  {
    hide *;
    var ready := Prepared(t, a);
    PreparedRecords(t, a);
    RolledRecords(ready);
    var served, spans, t1 := DrainSafety.Answer(t, a, g, t');
    CursorIs(t, a, g, t');
    if served {
      ServedRecords(Rolled(ready), a, spans, t1, g, t');
    }
  }

  lemma CursorIs(t: Table, a: AcquireCall, g: Grant, t': Table)
    ensures NextCursor(t, a, g, t') ==
            if g.leases != [] && t.cfg.numBlocks != 0 then g.leases[|g.leases| - 1].end % t.cfg.numBlocks
            else if t'.epoch == t.epoch && a.cluster in t.clusters then t.clusters[a.cluster].cursor
            else 0
  {
  }

  lemma PreparedRecords(t: Table, a: AcquireCall)
    ensures var t' := Prepared(t, a);
            && t'.epoch == t.epoch && t'.lastNumber == t.lastNumber && t'.cfg == t.cfg
            && t'.clusters.Keys == t.clusters.Keys + {a.cluster}
            && (forall d :: d in t.clusters && d != a.cluster ==> t'.clusters[d] == t.clusters[d])
            && (a.cluster in t.clusters ==>
                  var r := t.clusters[a.cluster];
                  t'.clusters[a.cluster] ==
                    r.(lastSeen := a.now, macroStep := if a.macroStep != 0.0 then a.macroStep else r.macroStep,
                       rtt := if a.rtt != 0.0 then a.rtt else r.rtt))
            && (a.cluster !in t.clusters ==>
                  t'.clusters[a.cluster] == ClusterRecord(a.now, a.now, 0, 0, a.macroStep, a.rtt, 0.0, 0, "", 0, 0.0))
  {
    hide HeldBlocks, Returned, Poisoned, Blamed, Expired;
  }

  lemma RolledRecords(t: Table)
    ensures var t' := Rolled(t);
            && (t'.epoch == t.epoch || t'.epoch == t.epoch + 1) && t'.lastNumber == t.lastNumber && t'.cfg == t.cfg
            && t'.clusters.Keys == t.clusters.Keys
            && forall d :: d in t.clusters ==>
                 t'.clusters[d] == t.clusters[d].(cursor := if t'.epoch == t.epoch then t.clusters[d].cursor else 0)
  {
  }

  lemma ServedRecords(t: Table, a: AcquireCall, spans: seq<Interval>, t1: Table, g: Grant, t': Table)
    requires a.cluster in t.clusters && t.cfg.numBlocks != 0 && Serves(t, a, spans, t1, g, t')
    ensures |g.leases| == |spans| && t'.epoch == t.epoch
    ensures forall i :: 0 <= i < |spans| ==> g.leases[i].start == spans[i].lo && g.leases[i].end == spans[i].hi
    ensures t'.clusters == t.clusters[a.cluster :=
              t.clusters[a.cluster].(cursor := if g.leases != [] then g.leases[|g.leases| - 1].end % t.cfg.numBlocks
                                               else t.clusters[a.cluster].cursor)]
  {
    ServedSpans(t, a, spans, t1, g, t');
    AllotState(t, a.cluster, GrantSize(t, a.cluster, a.blocks, a.clock), a.maxSpans, spans, t1);
    hide Serves, Allots, GrantSize;
    if spans != [] {
      InstalledRecords(t1, a.cluster, spans, GrantedTtl(t.cfg, t.clusters[a.cluster], a.ttl), a.now);
    }
  }

  lemma ServedSpans(t: Table, a: AcquireCall, spans: seq<Interval>, t1: Table, g: Grant, t': Table)
    requires a.cluster in t.clusters && t.cfg.numBlocks != 0 && Serves(t, a, spans, t1, g, t')
    ensures |g.leases| == |spans| && t1.cfg == t.cfg && a.cluster in t1.clusters
    ensures Allots(t, a.cluster, GrantSize(t, a.cluster, a.blocks, a.clock), a.maxSpans, spans, t1)
    ensures spans == [] ==> t' == t1
    ensures spans != [] ==> t' == Install(t1, a.cluster, spans, GrantedTtl(t.cfg, t.clusters[a.cluster], a.ttl), a.now)
    ensures forall i :: 0 <= i < |spans| ==> g.leases[i].start == spans[i].lo && g.leases[i].end == spans[i].hi
  {
    hide Install, GrantSize, GrantedTtl, Allots;
  }

  lemma {:induction false} InstalledRecords(t: Table, c: ClusterId, spans: seq<Interval>, ttl: real, now: real)
    requires c in t.clusters && t.cfg.numBlocks != 0
    ensures Install(t, c, spans, ttl, now).clusters ==
            if spans == [] then t.clusters
            else t.clusters[c := t.clusters[c].(cursor := spans[|spans| - 1].hi % t.cfg.numBlocks)]
  {
    if spans != [] {
      InstalledRecords(t, c, spans[..|spans| - 1], ttl, now);
    }
  }

  // --- the leases -----------------------------------------------------------------

  /** The leases of a grant: the asker's, in the present epoch, nothing of them started, numbered on from
      the last number, granted now and running from now for as long as the asker's timings give. */
  lemma LeaseFields(t: Table, a: AcquireCall, g: Grant, t': Table)
    requires Acquires(t, a, g, t')
    ensures a.cluster in t'.clusters && g.epoch == t'.epoch
    ensures var ttl := GrantedTtl(t.cfg, t'.clusters[a.cluster], a.ttl);
            forall i :: 0 <= i < |g.leases| ==>
              var l := g.leases[i];
              && l.id == Issued(t'.epoch, l.start, t.lastNumber + 1 + i)
              && l.cluster == a.cluster && l.epoch == t'.epoch
              && l.committedEnd == l.start && l.progressEnd == l.start
              && l.grantedAt == a.now && l.ttl == ttl && l.deadline == a.now + ttl
  {
    hide *;
    var ready := Prepared(t, a);
    PreparedRecords(t, a);
    RolledRecords(ready);
    RecordFields(t, a, g, t');
    var served, spans, t1 := DrainSafety.Answer(t, a, g, t');
    if served {
      ServedLeases(Rolled(ready), a, spans, t1, g, t');
      ServedRecords(Rolled(ready), a, spans, t1, g, t');
      SameTtl(t.cfg, Rolled(ready).clusters[a.cluster], t'.clusters[a.cluster], a.ttl);
    }
  }

  lemma SameTtl(cfg: Config, r: ClusterRecord, r': ClusterRecord, ttl: real)
    requires r'.macroStep == r.macroStep && r'.rtt == r.rtt
    ensures GrantedTtl(cfg, r, ttl) == GrantedTtl(cfg, r', ttl)
  {
  }

  lemma ServedLeases(t: Table, a: AcquireCall, spans: seq<Interval>, t1: Table, g: Grant, t': Table)
    requires a.cluster in t.clusters && t.cfg.numBlocks != 0 && Serves(t, a, spans, t1, g, t')
    ensures g.epoch == t.epoch
    ensures var ttl := GrantedTtl(t.cfg, t.clusters[a.cluster], a.ttl);
            forall i :: 0 <= i < |g.leases| ==>
              var l := g.leases[i];
              && l.id == Issued(t.epoch, l.start, t.lastNumber + 1 + i)
              && l.cluster == a.cluster && l.epoch == t.epoch
              && l.committedEnd == l.start && l.progressEnd == l.start
              && l.grantedAt == a.now && l.ttl == ttl && l.deadline == a.now + ttl
  {
    AllotState(t, a.cluster, GrantSize(t, a.cluster, a.blocks, a.clock), a.maxSpans, spans, t1);
    hide Install, Allots, GrantSize, GrantedTtl;
  }

  // --- where the blocks come from ---------------------------------------------------

  function SpansOf(leases: seq<Lease>): seq<Interval> {
    seq(|leases|, i requires 0 <= i < |leases| => Interval(leases[i].start, leases[i].end))
  }

  /** While a block is free, what is granted comes from the pool alone, from where the asker's last grant
      ended, and nobody's lease is touched. */
  lemma PoolFirst(t: Table, a: AcquireCall, g: Grant, t': Table)
    requires Acquires(t, a, g, t') && t'.epoch == t.epoch && a.maxSpans > 0
    requires var ready := Prepared(t, a);
             FreeBlocks(ready.state) != {} && GrantSize(ready, a.cluster, a.blocks, a.clock) > 0
    requires !Finished(Prepared(t, a))
    ensures var ready := Prepared(t, a);
            && TakenNear(FreeBlocks(ready.state), if a.cluster in t.clusters then t.clusters[a.cluster].cursor else 0,
                         GrantSize(ready, a.cluster, a.blocks, a.clock), a.maxSpans, SpansOf(g.leases))
            && forall id :: id in ready.leases && NumberOf(id) <= t.lastNumber ==>
                 id in t'.leases && t'.leases[id] == ready.leases[id]
  {
    hide *;
    var ready := Prepared(t, a);
    PreparedRecords(t, a);
    RolledStays(ready);
    var served, spans, t1 := DrainSafety.Answer(t, a, g, t');
    ServedRecords(ready, a, spans, t1, g, t');
    assert SpansOf(g.leases) == spans by { SpansAre(g.leases, spans); }
    PoolServed(ready, a, spans, t1, g, t');
  }

  lemma SpansAre(leases: seq<Lease>, spans: seq<Interval>)
    requires |leases| == |spans|
    requires forall i :: 0 <= i < |spans| ==> leases[i].start == spans[i].lo && leases[i].end == spans[i].hi
    ensures SpansOf(leases) == spans
  {
  }

  lemma RolledStays(t: Table)
    requires !Finished(t)
    ensures Rolled(t) == t
  {
  }

  lemma PoolServed(t: Table, a: AcquireCall, spans: seq<Interval>, t1: Table, g: Grant, t': Table)
    requires a.cluster in t.clusters && t.cfg.numBlocks != 0 && Serves(t, a, spans, t1, g, t')
    requires FreeBlocks(t.state) != {} && GrantSize(t, a.cluster, a.blocks, a.clock) > 0 && a.maxSpans > 0
    ensures TakenNear(FreeBlocks(t.state), t.clusters[a.cluster].cursor,
                      GrantSize(t, a.cluster, a.blocks, a.clock), a.maxSpans, spans)
    ensures forall id :: id in t.leases && NumberOf(id) <= t.lastNumber ==> id in t'.leases && t'.leases[id] == t.leases[id]
  {
    if spans != [] {
      OlderStand(t1, a.cluster, spans, GrantedTtl(t.cfg, t.clusters[a.cluster], a.ttl), a.now);
    }
    hide Install, GrantSize, TakenNear, FreeBlocks;
  }

  lemma {:induction false} OlderStand(t: Table, c: ClusterId, spans: seq<Interval>, ttl: real, now: real)
    requires c in t.clusters && t.cfg.numBlocks != 0
    ensures forall id :: id in t.leases && NumberOf(id) <= t.lastNumber ==>
              id in Install(t, c, spans, ttl, now).leases && Install(t, c, spans, ttl, now).leases[id] == t.leases[id]
  {
    if spans != [] {
      OlderStand(t, c, spans[..|spans| - 1], ttl, now);
    }
  }
}
