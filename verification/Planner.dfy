/** Splitting a request over clusters, and honouring their minimum shares. */
module Planner {
  import opened Arithmetic
  import opened Waterfill
  import opened Rounding

  // --- one split --------------------------------------------------------------

  function Resolved(sites: seq<Site>, horizon: real): (r: seq<Shape>)
    requires SitesOk(sites)
    ensures |r| == |sites|
  {
    seq(|sites|, i requires 0 <= i < |sites| => BestShapeAt(sites[i].shapes, horizon))
  }

  function Caps(shapes: seq<Shape>): (r: seq<int>)
    ensures |r| == |shapes|
  {
    seq(|shapes|, i requires 0 <= i < |shapes| => shapes[i].cap)
  }

  function Capacities(shapes: seq<Shape>, horizon: real): (r: seq<real>)
    ensures |r| == |shapes|
  {
    seq(|shapes|, i requires 0 <= i < |shapes| => ShapeCapacity(shapes[i], horizon))
  }

  function Portion(share: real, target: int, total: real): real
    requires total != 0.0
  {
    share * target as real / total
  }

  function Scaled(shares: seq<real>, target: int, total: real): (r: seq<real>)
    requires total != 0.0
    ensures |r| == |shares|
  {
    seq(|shares|, i requires 0 <= i < |shares| => Portion(shares[i], target, total))
  }

  predicate OneShapeEach(sites: seq<Site>) {
    forall i :: 0 <= i < |sites| ==> |sites[i].shapes| == 1
  }

  function Target(sites: seq<Site>, units: int): int {
    Min(units, TotalCapacity(sites))
  }

  lemma {:induction false} CapacitiesSum(sites: seq<Site>, horizon: real)
    requires SitesOk(sites)
    ensures SumReal(Capacities(Resolved(sites, horizon), horizon)) == CapacityAt(sites, horizon)
  {
    if sites != [] {
      var n := |sites| - 1;
      CapacitiesSum(sites[..n], horizon);
      assert Capacities(Resolved(sites, horizon), horizon)[..n] == Capacities(Resolved(sites[..n], horizon), horizon);
    }
  }

  lemma {:induction false} ScaledSum(shares: seq<real>, target: int, total: real)
    requires total != 0.0
    ensures SumReal(Scaled(shares, target, total)) == Portion(SumReal(shares), target, total)
  {
    hide Portion;
    if shares == [] {
      NoPortion(target, total);
    } else {
      var n := |shares| - 1;
      ScaledSum(shares[..n], target, total);
      assert Scaled(shares, target, total)[..n] == Scaled(shares[..n], target, total);
      Distribute(SumReal(shares[..n]), shares[n], target, total);
    }
  }

  lemma NoPortion(target: int, total: real)
    requires total != 0.0
    ensures Portion(0.0, target, total) == 0.0
  {
  }

  lemma Distribute(a: real, b: real, target: int, total: real)
    requires total != 0.0
    ensures Portion(a + b, target, total) == Portion(a, target, total) + Portion(b, target, total)
  {
    var x := target as real;
    assert (a + b) * x == a * x + b * x;
  }

  lemma WholePortion(target: int, total: real)
    requires total != 0.0
    ensures Portion(total, target, total) == target as real
  {
    var x := target as real;
    var q := total * x / total;
    assert q * total == total * x;
    assert (q - x) * total == 0.0;
  }

  lemma SameOrder(a: real, b: real, factor: real)
    requires factor > 0.0
    ensures a <= b <==> a * factor <= b * factor
  {
  }

  lemma PortionShrinks(share: real, target: int, total: real)
    requires 0.0 <= share && 0.0 <= target as real <= total && 0.0 < total
    ensures 0.0 <= Portion(share, target, total) <= share
  {
    var x := target as real;
    var q := share * x / total;
    assert q * total == share * x;
    assert 0.0 <= share * x;
    assert share * x <= share * total;
    SameOrder(0.0, q, total);
    SameOrder(q, share, total);
  }

  /** Whole parts lose less than a unit each. */
  lemma {:induction false} WholePartsSum(shares: seq<real>, caps: seq<int>)
    requires |shares| == |caps|
    requires forall i :: 0 <= i < |shares| ==> 0.0 <= shares[i] && Trunc(shares[i]) <= caps[i]
    ensures Sum(Whole(shares, caps)) as real <= SumReal(shares)
    ensures SumReal(shares) <= (Sum(Whole(shares, caps)) + |shares|) as real
    ensures shares != [] ==> SumReal(shares) < (Sum(Whole(shares, caps)) + |shares|) as real
  {
    if shares != [] {
      var n := |shares| - 1;
      WholePartsSum(shares[..n], caps[..n]);
      assert Whole(shares, caps)[..n] == Whole(shares[..n], caps[..n]);
    }
  }

  lemma {:induction false} CapsSum(sites: seq<Site>, horizon: real)
    requires SitesOk(sites)
    ensures Sum(Caps(Resolved(sites, horizon))) <= TotalCapacity(sites)
    ensures OneShapeEach(sites) ==> Sum(Caps(Resolved(sites, horizon))) == TotalCapacity(sites)
  {
    if sites != [] {
      var n := |sites| - 1;
      CapsSum(sites[..n], horizon);
      assert Caps(Resolved(sites, horizon))[..n] == Caps(Resolved(sites[..n], horizon));
      var best := BestShapeAt(sites[n].shapes, horizon);
      assert SiteOk(sites[n]) && best in sites[n].shapes;
    }
  }

  /** How much of each capacity at the horizon is wanted: all of it, scaled to the target. */
  function Shares(sites: seq<Site>, target: int, horizon: real): (r: seq<real>)
    requires SitesOk(sites)
    ensures |r| == |sites|
  {
    var shares := Capacities(Resolved(sites, horizon), horizon);
    var total := SumReal(shares);
    if total > 0.0 then Scaled(shares, target, total) else shares
  }

  /** A horizon that covers the target makes the shares add up to it, each within its shape's cap. */
  lemma SharesFit(sites: seq<Site>, target: int, horizon: real)
    requires SitesOk(sites) && 0 <= target && Covers(sites, horizon, target)
    ensures SumReal(Shares(sites, target, horizon)) == target as real
    ensures forall i :: 0 <= i < |sites| ==>
      0.0 <= Shares(sites, target, horizon)[i] && Trunc(Shares(sites, target, horizon)[i]) <= Resolved(sites, horizon)[i].cap
  {
    hide *;
    var resolved := Resolved(sites, horizon);
    var shares := Capacities(resolved, horizon);
    var total := SumReal(shares);
    CapacitiesFit(sites, horizon, target);
    SharesShape(sites, target, horizon);
    if total > 0.0 {
      ScaledSum(shares, target, total);
      WholePortion(target, total);
      forall i | 0 <= i < |sites| ensures 0.0 <= Shares(sites, target, horizon)[i] <= shares[i] {
        PortionShrinks(shares[i], target, total);
      }
    }
    forall i | 0 <= i < |sites| ensures Trunc(Shares(sites, target, horizon)[i]) <= resolved[i].cap {
      FloorWithin(Shares(sites, target, horizon)[i], resolved[i]);
    }
  }

  /** Shares are in proportion to what each site's chosen shape can do by the horizon. */
  lemma SharesProportional(sites: seq<Site>, target: int, horizon: real, i: nat) returns (share: real, able: real, total: real)
    requires SitesOk(sites) && i < |sites| && CapacityAt(sites, horizon) > 0.0
    ensures share == Shares(sites, target, horizon)[i] && total == CapacityAt(sites, horizon)
    ensures sites[i].shapes != [] && able == ShapeCapacity(BestShapeAt(sites[i].shapes, horizon), horizon)
    ensures share * total == able * target as real
  {
    ShareIsPortion(sites, target, horizon, i);
    share, total := Shares(sites, target, horizon)[i], CapacityAt(sites, horizon);
    able := ShapeCapacity(BestShapeAt(sites[i].shapes, horizon), horizon);
    hide *;
    PortionTimes(share, able, target, total);
  }

  lemma ShareIsPortion(sites: seq<Site>, target: int, horizon: real, i: nat)
    requires SitesOk(sites) && i < |sites| && CapacityAt(sites, horizon) > 0.0
    ensures sites[i].shapes != []
    ensures Shares(sites, target, horizon)[i]
            == Portion(ShapeCapacity(BestShapeAt(sites[i].shapes, horizon), horizon), target, CapacityAt(sites, horizon))
  {
    CapacitiesSum(sites, horizon);
    SharesShape(sites, target, horizon);
    hide Shares, Portion, SumReal, CapacityAt, ShapeCapacity, BestShapeAt;
  }

  lemma PortionTimes(got: real, share: real, target: int, total: real)
    requires total != 0.0 && got == Portion(share, target, total)
    ensures got * total == share * target as real
  {
  }

  lemma SharesShape(sites: seq<Site>, target: int, horizon: real)
    requires SitesOk(sites)
    ensures var shares := Capacities(Resolved(sites, horizon), horizon); var total := SumReal(shares);
            if total > 0.0 then
              && Shares(sites, target, horizon) == Scaled(shares, target, total)
              && forall i :: 0 <= i < |sites| ==> Shares(sites, target, horizon)[i] == Portion(shares[i], target, total)
            else Shares(sites, target, horizon) == shares
  {
    hide Capacities, Resolved, SumReal;
  }

  lemma CapacitiesFit(sites: seq<Site>, horizon: real, target: int)
    requires SitesOk(sites) && 0 <= target && Covers(sites, horizon, target)
    ensures var resolved := Resolved(sites, horizon); var shares := Capacities(resolved, horizon);
            && SumReal(shares) >= target as real
            && (SumReal(shares) <= 0.0 ==> SumReal(shares) == 0.0 == target as real)
            && forall i :: 0 <= i < |sites| ==>
                 ShapeOk(resolved[i]) && 0.0 <= shares[i] <= Full(resolved[i])
  {
    hide SumReal, ShapeCapacity, CapacityAt, ShapeOk, Full, BestShapeAt;
    var resolved := Resolved(sites, horizon);
    CapacitiesSum(sites, horizon);
    CapacityAtMonotone(sites, horizon, horizon);
    forall i | 0 <= i < |sites|
      ensures ShapeOk(resolved[i]) && 0.0 <= ShapeCapacity(resolved[i], horizon) <= Full(resolved[i])
    {
      assert SiteOk(sites[i]) && resolved[i] in sites[i].shapes;
      ShapeMonotone(resolved[i], horizon, horizon);
    }
  }

  lemma FloorWithin(share: real, s: Shape)
    requires ShapeOk(s) && 0.0 <= share <= Full(s)
    ensures Trunc(share) <= s.cap
  {
  }

  /** What a split promises: counts within the caps of the shapes chosen at a horizon that covers
      the target, adding up to the target or to those caps, whichever is less. */
  ghost predicate IsSplit(sites: seq<Site>, units: int, horizon: real, counts: seq<int>)
    requires SitesOk(sites)
  {
    var target := Target(sites, units);
    && |counts| == |sites|
    && (sites != [] ==> Covers(sites, horizon, target))
    && (forall i :: 0 <= i < |sites| ==> 0 <= counts[i] <= Resolved(sites, horizon)[i].cap)
    && Sum(counts) == Min(target, Sum(Caps(Resolved(sites, horizon))))
  }

  /** No unit is lost when every site has one shape; otherwise fewer are than there are sites. */
  lemma SplitTotal(sites: seq<Site>, units: int, horizon: real, counts: seq<int>)
    requires SitesOk(sites) && units >= 1 && IsSplit(sites, units, horizon, counts)
    ensures Sum(counts) <= Target(sites, units)
    ensures OneShapeEach(sites) ==> Sum(counts) == Target(sites, units)
    ensures sites != [] ==> Target(sites, units) - Sum(counts) < |sites|
  {
    CapsSum(sites, horizon);
    if sites != [] {
      TotalNonNegative(sites);
      var target := Target(sites, units);
      SharesFit(sites, target, horizon);
      var shares, caps := Shares(sites, target, horizon), Caps(Resolved(sites, horizon));
      WholePartsSum(shares, caps);
      SumAtMost(Whole(shares, caps), caps);
    }
  }

  // --- when no unit is lost -----------------------------------------------------

  /** The first horizon that covers the request. */
  ghost predicate Earliest(sites: seq<Site>, units: int, first: real)
    requires SitesOk(sites)
  {
    0.0 <= first && Covers(sites, first, units) && forall t :: 0.0 <= t && Covers(sites, t, units) ==> first <= t
  }

  /** Every site prefers there what it prefers until as much later as the search may be off. */
  ghost predicate Settled(sites: seq<Site>, first: real)
    requires SitesOk(sites)
  {
    forall t :: first <= t <= first + Halved(LatestOf(sites), HALVINGS) ==> Resolved(sites, t) == Resolved(sites, first)
  }

  /** No unit is lost exactly when the shapes preferred at the first covering horizon can take the whole
      request between them. */
  lemma SplitExactly(sites: seq<Site>, units: int, horizon: real, counts: seq<int>, first: real)
    requires SitesOk(sites) && units >= 1 && Target(sites, units) > 0 && IsSplit(sites, units, horizon, counts)
    requires 0.0 <= horizon && NearlyEarliest(sites, Target(sites, units), horizon)
    requires Earliest(sites, Target(sites, units), first) && Settled(sites, first)
    ensures Sum(counts) == Target(sites, units) <==> Sum(Caps(Resolved(sites, first))) >= Target(sites, units)
  {
    hide Sum, Caps, Resolved, TotalCapacity, Covers, Halved, LatestOf;
    if sites == [] {
      NoTarget(sites, units);
    } else {
      assert first <= horizon <= first + Halved(LatestOf(sites), HALVINGS);
      assert Resolved(sites, horizon) == Resolved(sites, first);
    }
  }

  lemma NoTarget(sites: seq<Site>, units: int)
    requires sites == []
    ensures Target(sites, units) <= 0
  {
  }

  /** What a shape can do in full is a whole number of units. */
  predicate WholeUnits(s: Shape) {
    Full(s) == s.cap as real
  }

  /** All that any shape of any site but k can do is a whole number of units. */
  ghost predicate WholeBut(sites: seq<Site>, k: int) {
    forall i, s :: 0 <= i < |sites| && i != k && s in sites[i].shapes ==> WholeUnits(s)
  }

  lemma {:induction false} CapsCover(sites: seq<Site>, k: int, horizon: real)
    requires SitesOk(sites) && WholeBut(sites, k)
    ensures CapacityAt(sites, horizon) < Sum(Caps(Resolved(sites, horizon))) as real + 1.0
    ensures k < 0 || k >= |sites| ==> CapacityAt(sites, horizon) <= Sum(Caps(Resolved(sites, horizon))) as real
  {
    hide ShapeCapacity, Full, BestShapeAt;
    if sites != [] {
      var n := |sites| - 1;
      CapsCover(sites[..n], k, horizon);
      assert Caps(Resolved(sites, horizon))[..n] == Caps(Resolved(sites[..n], horizon));
      LastCap(sites, k, horizon);
    }
  }

  lemma LastCap(sites: seq<Site>, k: int, horizon: real)
    requires SitesOk(sites) && WholeBut(sites, k) && sites != []
    ensures var n := |sites| - 1;
            && Capacity(sites[n], horizon) < BestShapeAt(sites[n].shapes, horizon).cap as real + 1.0
            && (k != n ==> Capacity(sites[n], horizon) <= BestShapeAt(sites[n].shapes, horizon).cap as real)
  {
    var n := |sites| - 1;
    var best := BestShapeAt(sites[n].shapes, horizon);
    assert SiteOk(sites[n]) && best in sites[n].shapes;
    hide ShapeCapacity, Full, BestShapeAt;
    ShapeMonotone(best, horizon, horizon);
    FullUnder(best);
    assert k != n ==> WholeUnits(best);
  }

  lemma FullUnder(s: Shape)
    requires ShapeOk(s)
    ensures Full(s) < s.cap as real + 1.0
  {
  }

  /** From the sites alone: no unit of any request is lost when every shape of all sites but one does
      whole units in full, or when every shape of every site is of the site's whole cap. */
  lemma NoneLost(sites: seq<Site>, units: int, horizon: real, counts: seq<int>, k: int)
    requires SitesOk(sites) && units >= 1 && IsSplit(sites, units, horizon, counts)
    requires WholeBut(sites, k) || forall i, s :: 0 <= i < |sites| && s in sites[i].shapes ==> s.cap == sites[i].cap
    ensures Sum(counts) == Target(sites, units)
  {
    if sites != [] {
      hide Sum, Covers, CapacityAt, TotalCapacity, BestShapeAt, SiteOk;
      if WholeBut(sites, k) {
        CapsCover(sites, k, horizon);
        assert CapacityAt(sites, horizon) >= Target(sites, units) as real by { CoversMeans(sites, horizon, Target(sites, units)); }
      } else {
        FullCaps(sites, horizon);
      }
    } else {
      CapsSum(sites, horizon);
    }
  }

  lemma CoversMeans(sites: seq<Site>, horizon: real, units: int)
    requires SitesOk(sites) && Covers(sites, horizon, units)
    ensures CapacityAt(sites, horizon) >= units as real
  {
  }

  lemma {:induction false} FullCaps(sites: seq<Site>, horizon: real)
    requires SitesOk(sites) && forall i, s :: 0 <= i < |sites| && s in sites[i].shapes ==> s.cap == sites[i].cap
    ensures Sum(Caps(Resolved(sites, horizon))) == TotalCapacity(sites)
  {
    if sites != [] {
      var n := |sites| - 1;
      FullCaps(sites[..n], horizon);
      assert Caps(Resolved(sites, horizon))[..n] == Caps(Resolved(sites[..n], horizon));
      assert SiteOk(sites[n]) && BestShapeAt(sites[n].shapes, horizon) in sites[n].shapes;
    }
  }

  lemma {:induction false} TotalNonNegative(sites: seq<Site>)
    requires SitesOk(sites)
    ensures TotalCapacity(sites) >= 0
  {
    if sites != [] {
      var n := |sites| - 1;
      TotalNonNegative(sites[..n]);
      assert SiteOk(sites[n]);
      var i :| 0 <= i < |sites[n].shapes| && sites[n].shapes[i].cap == sites[n].cap;
      CapNonNegative(sites[n].shapes[i]);
    }
  }

  lemma CapNonNegative(s: Shape)
    requires ShapeOk(s)
    ensures s.cap >= 0
  {
    Scale(0.0, s.usable, s.rate);
  }

  /** Integer unit counts for the sites: one waterfill, no minimums applied. */
  method Split(sites: seq<Site>, units: int) returns (counts: seq<int>, resolved: seq<Shape>, horizon: real)
    requires SitesOk(sites) && units >= 1
    ensures IsSplit(sites, units, horizon, counts) && resolved == Resolved(sites, horizon)
    ensures sites != [] && Target(sites, units) > 0 ==> 0.0 <= horizon && NearlyEarliest(sites, Target(sites, units), horizon)
    ensures sites != [] ==> Fair(Shares(sites, Target(sites, units), horizon), counts,
                                 Whole(Shares(sites, Target(sites, units), horizon), Caps(resolved)), Caps(resolved))
  {
    hide Covers, CapacityAt, Sum, SumReal, Fair, ShapeOk, Whole, SiteOk, TotalCapacity, IsSplit, EveryoneDone, Portion, NearlyEarliest, LatestOf;
    horizon := 0.0;
    if sites == [] {
      NothingToSplit(sites, units);
      return [], [], 0.0;
    }
    TotalNonNegative(sites);
    var target := Target(sites, units);
    var h := HorizonFor(sites, target);
    SplitCovers(sites, target, h);
    resolved := Resolved(sites, h);
    horizon := h;
    var shares := Capacities(resolved, h);
    var total := SumReal(shares);
    if total > 0.0 {
      shares := Scaled(shares, target, total);
    }
    assert shares == Shares(sites, target, h);
    counts := LargestRemainder(shares, Caps(resolved), target);
    Rounded(sites, units, h, shares, counts);
  }

  lemma Rounded(sites: seq<Site>, units: int, horizon: real, shares: seq<real>, counts: seq<int>)
    requires SitesOk(sites) && sites != [] && units >= 1 && Covers(sites, horizon, Target(sites, units)) && |counts| == |sites|
    requires shares == Shares(sites, Target(sites, units), horizon)
    requires var caps := Caps(Resolved(sites, horizon)); var base := Whole(shares, caps);
             && (forall i :: 0 <= i < |sites| ==> base[i] <= counts[i] <= caps[i])
             && Sum(counts) == if Sum(base) >= Target(sites, units) then Sum(base) else Min(Target(sites, units), Sum(caps))
    ensures IsSplit(sites, units, horizon, counts)
  {
    hide Covers, Sum, SumReal, Shares, SiteOk, TotalCapacity, Resolved;
    var caps := Caps(Resolved(sites, horizon));
    TotalNonNegative(sites);
    SharesFit(sites, Target(sites, units), horizon);
    WholePartsSum(shares, caps);
    SumAtMost(Whole(shares, caps), caps);
  }

  lemma NothingToSplit(sites: seq<Site>, units: int)
    requires sites == [] && units >= 1
    ensures IsSplit(sites, units, 0.0, []) && Resolved(sites, 0.0) == []
  {
  }

  lemma SplitCovers(sites: seq<Site>, target: int, horizon: real)
    requires SitesOk(sites) && 0 <= target <= TotalCapacity(sites) && sites != []
    requires target == 0 || (Covers(sites, horizon, target) <==> Covers(sites, LatestOf(sites), target))
    ensures Covers(sites, horizon, target)
  {
    if target == 0 {
      CapacityAtMonotone(sites, horizon, horizon);
    } else {
      LatestCovers(sites, target);
    }
  }

  // --- where units are lost ---------------------------------------------------

  /** A shape as the candidates build it from a cluster's figures: so many units per GPU and hour, so
      long a job, so many units held in reserve. */
  predicate Built(s: Shape, perGpu: real, walltime: real, reserve: real) {
    && s.rate == perGpu * s.gpus && s.rate > 0.0
    && s.usable == walltime - reserve / s.rate && s.usable > 0.0
    && s.cap == Full(s).Floor
  }

  /** One cluster, one and a half units per GPU and hour for an hour: one GPU at once, or two much later. */
  const SMALL := Shape(1.0, 0.0, 1.0, 1.5, 1)
  const LARGE := Shape(2.0, 100.0, 1.0, 3.0, 3)

  function TwoSites(): seq<Site> {
    [Site("a", 0, [SMALL, LARGE], 3), Site("b", 0, [SMALL, LARGE], 3)]
  }

  lemma TwoShapesOk(name: string)
    ensures Built(SMALL, 1.5, 1.0, 0.0) && Built(LARGE, 1.5, 1.0, 0.0)
    ensures SiteOk(Site(name, 0, [SMALL, LARGE], 3))
  {
    assert Full(SMALL) == 1.5 && Full(LARGE) == 3.0;
    hide Full;
    assert ShapeOk(SMALL) && ShapeOk(LARGE);
    assert [SMALL, LARGE][1].cap == 3;
  }

  lemma SmallFirst(name: string, horizon: real)
    requires 0.0 <= horizon <= 2.0
    ensures var site := Site(name, 0, [SMALL, LARGE], 3);
            SiteOk(site) && BestShapeAt(site.shapes, horizon) == SMALL && Capacity(site, horizon) == MinReal(horizon, 1.0) * 1.5
  {
    TwoShapesOk(name);
    hide SiteOk;
    var shapes := [SMALL, LARGE];
    assert shapes[..1] == [SMALL];
    assert ShapeCapacity(SMALL, horizon) == MinReal(horizon, 1.0) * 1.5;
    assert ShapeCapacity(LARGE, horizon) == 0.0;
    assert !Better(LARGE, SMALL, horizon);
    hide ShapeCapacity, Better;
    assert BestShapeAt(shapes[..1], horizon) == SMALL;
  }

  lemma BothSmall(horizon: real)
    requires 0.0 <= horizon <= 2.0
    ensures SitesOk(TwoSites()) && CapacityAt(TwoSites(), horizon) == MinReal(horizon, 1.0) * 3.0
    ensures Resolved(TwoSites(), horizon) == [SMALL, SMALL]
  {
    var sites := TwoSites();
    SmallFirst("a", horizon);
    SmallFirst("b", horizon);
    hide Capacity, BestShapeAt, SiteOk;
    assert sites[..1] == [sites[0]] && sites[..1][..0] == [];
    assert CapacityAt(sites[..1], horizon) == Capacity(sites[0], horizon);
  }

  /** One hour is the first horizon to cover three units, and the small shapes are preferred well beyond. */
  lemma OneHourCovers()
    ensures SitesOk(TwoSites()) && Earliest(TwoSites(), 3, 1.0) && Settled(TwoSites(), 1.0)
    ensures forall t :: 0.0 <= t <= 1.0 + Halved(LatestOf(TwoSites()), HALVINGS) ==> Resolved(TwoSites(), t) == [SMALL, SMALL]
  {
    var sites := TwoSites();
    BothSmall(1.0);
    LatestOfTwo();
    HalvedShrinks(101.0, HALVINGS);
    hide CapacityAt, Resolved, LatestOf, Halved;
    forall t | 0.0 <= t && Covers(sites, t, 3) ensures 1.0 <= t {
      if t < 1.0 { BothSmall(t); }
    }
    forall t | 0.0 <= t <= 1.0 + Halved(LatestOf(sites), HALVINGS) ensures Resolved(sites, t) == [SMALL, SMALL] {
      BothSmall(t);
    }
  }

  /** Two sites that could take six units between them are split two of three: at the horizon that
      covers three, each offers its small shape, one and a half units that round down to one. */
  lemma SplitLosesUnits(horizon: real, counts: seq<int>)
    requires SitesOk(TwoSites()) && NearlyEarliest(TwoSites(), 3, horizon) && 0.0 <= horizon
    requires IsSplit(TwoSites(), 3, horizon, counts)
    ensures TotalCapacity(TwoSites()) == 6 && Sum(counts) == 2
  {
    var sites := TwoSites();
    OneHourCovers();
    assert horizon <= 1.0 + Halved(LatestOf(sites), HALVINGS);
    assert Resolved(sites, horizon) == [SMALL, SMALL];
    hide Halved, LatestOf, Resolved, Earliest, Settled, NearlyEarliest;
    assert sites[..1] == [sites[0]] && sites[..1][..0] == [];
    assert TotalCapacity(sites[..1]) == 3;
    assert Caps([SMALL, SMALL])[..1] == [1] && [1][..0] == [];
    assert Sum(Caps([SMALL, SMALL])) == 2;
  }

  lemma LatestOfTwo()
    ensures SitesOk(TwoSites()) && LatestOf(TwoSites()) == 101.0
  {
    TwoShapesOk("a");
    TwoShapesOk("b");
    hide SiteOk;
    var sites := TwoSites();
    assert sites[..1] == [sites[0]] && sites[..1][..0] == [];
    assert [SMALL, LARGE][..1] == [SMALL];
    assert LatestShape([SMALL]) == 1.0;
    assert LatestShape([SMALL, LARGE]) == 101.0;
    hide LatestShape;
    assert LatestOf(sites[..1]) == 101.0;
  }

  lemma {:induction false} HalvedShrinks(x: real, times: nat)
    requires x >= 0.0
    ensures 0.0 <= Halved(x, times) && (times >= 7 ==> Halved(x, times) <= x / 128.0)
    ensures times <= 7 ==> Halved(x, times) == x / (if times == 0 then 1.0 else if times == 1 then 2.0 else
                           if times == 2 then 4.0 else if times == 3 then 8.0 else if times == 4 then 16.0 else
                           if times == 5 then 32.0 else if times == 6 then 64.0 else 128.0)
  {
    if times > 0 {
      HalvedShrinks(x, times - 1);
    }
  }
}
