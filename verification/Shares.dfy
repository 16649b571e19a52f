/** How much of a request an acquire honours: the caps, who counts as active, and the share of what is left
    that a cluster's measured rate earns it. */
module Shares {
  import opened Arithmetic
  import opened LeaseModel

  // --- who is active --------------------------------------------------------------

  /** Holding a lease, or heard from less than the minimum time to live ago, or less than ten of its round trips. */
  ghost predicate Plausible(t: Table, c: ClusterId, clock: real)
    requires c in t.clusters
  {
    || (exists id :: id in t.leases && t.leases[id].cluster == c)
    || clock - t.clusters[c].lastSeen < t.cfg.minTtl
    || clock - t.clusters[c].lastSeen < 10.0 * t.clusters[c].rtt
  }

  /** The plausibly live clusters, or all of them if there are none. */
  lemma ActiveExactly(t: Table, clock: real)
    ensures forall c :: c in ActiveClusters(t.cfg, t.leases, t.clusters, clock) <==>
              c in t.clusters && (Plausible(t, c, clock) || forall d :: d in t.clusters ==> !Plausible(t, d, clock))
  {
    var live := set c | c in t.clusters && IsLive(t.cfg, t.leases, t.clusters[c], c, clock);
    forall c | c in t.clusters ensures IsLive(t.cfg, t.leases, t.clusters[c], c, clock) <==> Plausible(t, c, clock) {
    }
    hide IsLive, Plausible;
    if live == {} {
      forall c | c in t.clusters ensures c !in live {
      }
    } else {
      var d :| d in live;
    }
  }

  // --- the caps -------------------------------------------------------------------

  /** A cluster that has committed something gets what it asked for, between the two settings; one that has
      not gets the configured part of that, rounded down, unless a setting stands in the way. */
  lemma CappedExactly(cfg: Config, r: ClusterRecord, requested: int)
    ensures var n := Capped(cfg, r, requested);
            var asked := if requested >= cfg.minBlocks then requested else cfg.minBlocks;
            && n <= cfg.maxBlocks && (n < cfg.minBlocks ==> n == cfg.maxBlocks)
            && (r.blocksCommitted != 0 ==> n == if asked <= cfg.maxBlocks then asked else cfg.maxBlocks)
            && (r.blocksCommitted == 0 && cfg.minBlocks >= 0 && cfg.firstGrantFraction >= 0.0 ==>
                  && (n <= cfg.minBlocks || n as real <= asked as real * cfg.firstGrantFraction)
                  && (n == cfg.maxBlocks || asked as real * cfg.firstGrantFraction < n as real + 1.0))
  {
    var asked := if requested >= cfg.minBlocks then requested else cfg.minBlocks;
    if r.blocksCommitted == 0 && cfg.minBlocks >= 0 && cfg.firstGrantFraction >= 0.0 {
      Scale(cfg.firstGrantFraction, 0.0, asked as real);
    }
  }

  // --- shares ---------------------------------------------------------------------

  /** A measured rate, or a millionth of a block a second where nothing that fast was measured. */
  function Speed(t: Table, c: ClusterId): real {
    if c in t.clusters && t.clusters[c].rate >= 0.000001 then t.clusters[c].rate else 0.000001
  }

  /** The sum of the rates does not depend on the order in which they are added. */
  lemma {:induction false} AnyRateFirst(t: Table, cs: set<ClusterId>, c: ClusterId)
    requires cs <= t.clusters.Keys && c in cs
    ensures SumRates(t.clusters, cs) == Speed(t, c) + SumRates(t.clusters, cs - {c})
    decreases |cs|
  {
    var d: ClusterId :| d in cs && SumRates(t.clusters, cs) == RateOf(t.clusters, d) + SumRates(t.clusters, cs - {d});
    assert c in t.clusters.Keys && d in t.clusters.Keys;
    SpeedIs(t, c);
    SpeedIs(t, d);
    hide Speed, RateOf;
    if d != c {
      AnyRateFirst(t, cs - {d}, c);
      AnyRateFirst(t, cs - {c}, d);
      assert cs - {d} - {c} == cs - {c} - {d};
    }
  }

  lemma SpeedIs(t: Table, c: ClusterId)
    requires c in t.clusters
    ensures RateOf(t.clusters, c) == Speed(t, c)
  {
  }

  /** Of `blocks` blocks, part over total makes no less than n and not as much as n + 1. */
  predicate WholePart(n: int, blocks: int, part: real, total: real) {
    Within(n, blocks, part, total) && !Within(n + 1, blocks, part, total)
  }

  /** n blocks are at most part over total of `blocks` blocks. */
  predicate Within(n: int, blocks: int, part: real, total: real) {
    n as real * total <= blocks as real * part
  }

  /** A share is the whole part of what the rate earns: of `free` blocks, rate over the sum of the rates. */
  lemma ShareExactly(t: Table, c: ClusterId, free: int, active: set<ClusterId>)
    requires c in t.clusters && active <= t.clusters.Keys && active != {} && free >= 0
    ensures var share := FairShare(t, c, free, active);
            && 0 <= share
            && WholePart(share, free, if c in active then Speed(t, c) else 0.000001, SumRates(t.clusters, active))
  {
    var total := SumRates(t.clusters, active);
    var speed := if c in active then Speed(t, c) else 0.000001;
    SpeedIs(t, c);
    assert FairShare(t, c, free, active) == Scaled(free, speed, total);
    hide *;
    PartOf(free, speed, total);
  }

  lemma PartOf(blocks: int, part: real, total: real)
    requires blocks >= 0 && part >= 0.0 && total > 0.0
    ensures Scaled(blocks, part, total) >= 0 && WholePart(Scaled(blocks, part, total), blocks, part, total)
  {
    var n, earned := Scaled(blocks, part, total), blocks as real * part;
    Scale(part, 0.0, blocks as real);
    var x := Quotient(earned, total);
    assert 0 <= n && n as real <= x < (n + 1) as real;
    hide *;
    Bracketed(n, x, blocks, part, total);
  }

  lemma Bracketed(n: int, x: real, blocks: int, part: real, total: real)
    requires n as real <= x < (n + 1) as real && total > 0.0 && x * total == blocks as real * part
    ensures WholePart(n, blocks, part, total)
  {
    Times(n as real, x, total);
    TimesLess(x, (n + 1) as real, total);
  }

  lemma Quotient(y: real, z: real) returns (x: real)
    requires y >= 0.0 && z > 0.0
    ensures x == y / z && x * z == y && x >= 0.0
  {
    x := y / z;
    if x < 0.0 {
      TimesLess(x, 0.0, z);
    }
  }

  lemma Times(x: real, y: real, z: real)
    requires x <= y && z > 0.0
    ensures x * z <= y * z
  {
  }

  lemma TimesLess(x: real, y: real, z: real)
    requires x < y && z > 0.0
    ensures x * z < y * z
  {
  }

  lemma Scale(z: real, x: real, y: real)
    requires z >= 0.0 && x <= y
    ensures z * x <= z * y
  {
  }

  lemma LessIsWithin(m: int, n: int, blocks: int, part: real, total: real)
    requires m <= n && total > 0.0 && Within(n, blocks, part, total)
    ensures Within(m, blocks, part, total)
  {
    Times(m as real, n as real, total);
  }

  lemma MoreIsWithin(n: int, blocks: int, part: real, larger: real, total: real)
    requires part <= larger && blocks >= 0 && Within(n, blocks, part, total)
    ensures Within(n, blocks, larger, total)
  {
    Scale(blocks as real, part, larger);
  }

  lemma AllIsWithin(n: int, blocks: int, part: real, total: real)
    requires part <= total && total > 0.0 && blocks >= 0 && Within(n, blocks, part, total)
    ensures n <= blocks
  {
    Scale(blocks as real, part, total);
    if n > blocks {
      TimesLess(blocks as real, n as real, total);
    }
  }

  lemma BothWithin(m: int, n: int, blocks: int, x: real, y: real, total: real)
    requires Within(m, blocks, x, total) && Within(n, blocks, y, total)
    ensures Within(m + n, blocks, x + y, total)
  {
    assert (m + n) as real * total == m as real * total + n as real * total;
    assert blocks as real * (x + y) == blocks as real * x + blocks as real * y;
  }

  /** Whoever is faster gets no smaller a share. */
  lemma FasterShares(t: Table, c: ClusterId, d: ClusterId, free: int, active: set<ClusterId>)
    requires active <= t.clusters.Keys && c in active && d in active && free >= 0
    requires t.clusters[c].rate >= t.clusters[d].rate
    ensures FairShare(t, c, free, active) >= FairShare(t, d, free, active)
  {
    ShareExactly(t, c, free, active);
    ShareExactly(t, d, free, active);
    var total, mine, other := SumRates(t.clusters, active), FairShare(t, c, free, active), FairShare(t, d, free, active);
    assert Speed(t, c) >= Speed(t, d);
    hide SumRates, FairShare, Speed, Within;
    if mine < other {
      LessIsWithin(mine + 1, other, free, Speed(t, d), total);
      MoreIsWithin(mine + 1, free, Speed(t, d), Speed(t, c), total);
    }
  }

  ghost function SumShares(t: Table, free: int, active: set<ClusterId>, order: seq<ClusterId>): int
    requires active <= t.clusters.Keys && active != {} && forall i :: 0 <= i < |order| ==> order[i] in active
  {
    if order == [] then 0
    else FairShare(t, order[0], free, active) + SumShares(t, free, active, order[1..])
  }

  /** All shares together are no more than there is. */
  lemma {:induction false} SharesFit(t: Table, free: int, active: set<ClusterId>, order: seq<ClusterId>)
    requires active <= t.clusters.Keys && active != {} && free >= 0
    requires forall i, j :: 0 <= i < j < |order| ==> order[i] != order[j]
    requires forall i :: 0 <= i < |order| ==> order[i] in active
    ensures 0 <= SumShares(t, free, active, order) <= free
  {
    var some := set c | c in order;
    EarnedFits(t, free, active, order);
    RatesFit(t, active, some);
    AllIsWithin(SumShares(t, free, active, order), free, SumRates(t.clusters, some), SumRates(t.clusters, active));
  }

  lemma {:induction false} EarnedFits(t: Table, free: int, active: set<ClusterId>, order: seq<ClusterId>)
    requires active <= t.clusters.Keys && active != {} && free >= 0
    requires forall i, j :: 0 <= i < j < |order| ==> order[i] != order[j]
    requires forall i :: 0 <= i < |order| ==> order[i] in active
    ensures var some := set c | c in order;
            && some <= t.clusters.Keys && 0 <= SumShares(t, free, active, order)
            && Within(SumShares(t, free, active, order), free, SumRates(t.clusters, some), SumRates(t.clusters, active))
  {
    var some := set c | c in order;
    if order == [] {
      assert some == {};
    } else {
      var rest := set c | c in order[1..];
      assert some - {order[0]} == rest;
      EarnedFits(t, free, active, order[1..]);
      ShareExactly(t, order[0], free, active);
      AnyRateFirst(t, some, order[0]);
      hide SumRates, FairShare, Speed, Within;
      BothWithin(FairShare(t, order[0], free, active), SumShares(t, free, active, order[1..]), free,
                 Speed(t, order[0]), SumRates(t.clusters, rest), SumRates(t.clusters, active));
    }
  }

  lemma {:induction false} RatesFit(t: Table, all: set<ClusterId>, some: set<ClusterId>)
    requires some <= all <= t.clusters.Keys
    ensures SumRates(t.clusters, some) <= SumRates(t.clusters, all)
    decreases |some|
  {
    if some != {} {
      var c :| c in some;
      AnyRateFirst(t, some, c);
      AnyRateFirst(t, all, c);
      RatesFit(t, all - {c}, some - {c});
    }
  }

  // --- the size -------------------------------------------------------------------

  /** With nothing free, or as much for every active cluster as this one may have, the capped request
      stands. Otherwise it is cut to the share of the asker's rate, but not below the minimum. */
  lemma SizeExactly(t: Table, c: ClusterId, requested: int, clock: real)
    requires c in t.clusters
    ensures var n, capped, free := GrantSize(t, c, requested, clock), Capped(t.cfg, t.clusters[c], requested), |FreeBlocks(t.state)|;
            var active := ActiveClusters(t.cfg, t.leases, t.clusters, clock);
            var speed := if c in active then Speed(t, c) else 0.000001;
            && active <= t.clusters.Keys && active != {}
            && (free == 0 || capped * |active| <= free ==> n == capped)
            && (free != 0 && capped * |active| > free ==>
                  && n >= t.cfg.minBlocks
                  && (n > t.cfg.minBlocks ==> n <= capped && Within(n, free, speed, SumRates(t.clusters, active)))
                  && (n < capped ==> !Within(n + 1, free, speed, SumRates(t.clusters, active))))
  {
    var capped, free := Capped(t.cfg, t.clusters[c], requested), |FreeBlocks(t.state)|;
    var active := ActiveClusters(t.cfg, t.leases, t.clusters, clock);
    SizeIs(t, c, requested, clock);
    ShareExactly(t, c, free, active);
    var share, n := FairShare(t, c, free, active), GrantSize(t, c, requested, clock);
    var total, speed := SumRates(t.clusters, active), if c in active then Speed(t, c) else 0.000001;
    SomeMember(active);
    Scarce(capped, free, |active|);
    hide GrantSize, Capped, ActiveClusters, SumRates, FairShare, FreeBlocks, Speed, Within;
    if free != 0 && capped * |active| > free {
      if n > t.cfg.minBlocks {
        LessIsWithin(n, share, free, speed, total);
      }
      if n < capped && Within(n + 1, free, speed, total) {
        LessIsWithin(share + 1, n + 1, free, speed, total);
      }
    }
  }

  lemma SizeIs(t: Table, c: ClusterId, requested: int, clock: real)
    requires c in t.clusters
    ensures var n, capped, free := GrantSize(t, c, requested, clock), Capped(t.cfg, t.clusters[c], requested), |FreeBlocks(t.state)|;
            var active := ActiveClusters(t.cfg, t.leases, t.clusters, clock);
            && active <= t.clusters.Keys && active != {}
            && n == if free != 0 && capped > free / Max(1, |active|)
                    then Max(t.cfg.minBlocks, Min(capped, Max(FairShare(t, c, free, active), t.cfg.minBlocks)))
                    else capped
  {
    assert c in t.clusters.Keys;
  }

  lemma SomeMember(s: set<ClusterId>)
    requires s != {}
    ensures |s| >= 1
  {
  }

  lemma Scarce(capped: int, free: int, n: int)
    requires n >= 1 && free >= 0
    ensures capped > free / n <==> capped * n > free
  {
    if capped > free / n {
      assert capped * n >= (free / n + 1) * n;
    } else {
      assert capped * n <= (free / n) * n;
    }
  }

  /** Of two active clusters that have both committed something and ask for the same, the faster is
      granted no less. */
  lemma FasterGetsNoLess(t: Table, c: ClusterId, d: ClusterId, requested: int, clock: real)
    requires c in t.clusters && d in t.clusters
    requires (t.clusters[c].blocksCommitted == 0) == (t.clusters[d].blocksCommitted == 0)
    requires t.clusters[c].rate >= t.clusters[d].rate
    requires Plausible(t, c, clock) && Plausible(t, d, clock)
    ensures GrantSize(t, c, requested, clock) >= GrantSize(t, d, requested, clock)
  {
    var free := |FreeBlocks(t.state)|;
    var active := ActiveClusters(t.cfg, t.leases, t.clusters, clock);
    ActiveExactly(t, clock);
    FasterShares(t, c, d, free, active);
    hide ActiveClusters, SumRates, FairShare, FreeBlocks, Plausible;
  }
}
