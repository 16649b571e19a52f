/** The planner's waterfill: how many data units each cluster can finish by a horizon, and the
    horizon by which they finish the request together. */
module Waterfill {
  import opened Arithmetic

  /** One way a cluster can be asked to run. */
  datatype Shape = Shape(gpus: real, wait: real, usable: real, rate: real, cap: int)

  datatype Site = Site(cluster: string, minUnits: int, shapes: seq<Shape>, cap: int)

  // --- what the candidates guarantee ------------------------------------------

  /** What the shape processes in the longest job it may run. */
  function Full(s: Shape): real {
    s.usable * s.rate
  }

  predicate ShapeOk(s: Shape) {
    s.rate > 0.0 && s.usable > 0.0 && s.cap == Full(s).Floor
  }

  predicate SiteOk(site: Site) {
    && site.shapes != []
    && (forall i :: 0 <= i < |site.shapes| ==> ShapeOk(site.shapes[i]) && site.shapes[i].cap <= site.cap)
    && (exists i :: 0 <= i < |site.shapes| && site.shapes[i].cap == site.cap)
  }

  predicate SitesOk(sites: seq<Site>) {
    forall i :: 0 <= i < |sites| ==> SiteOk(sites[i])
  }

  // --- capacity ---------------------------------------------------------------

  /** Units this shape finishes by the horizon: from its expected start, for as long as a job may run. */
  function ShapeCapacity(s: Shape, horizon: real): real {
    MinReal(MaxReal(horizon - s.wait, 0.0), s.usable) * s.rate
  }

  /** Preferred at the horizon: more capacity, then fewer GPUs, then the shorter wait. */
  predicate Better(a: Shape, b: Shape, horizon: real) {
    var x, y := ShapeCapacity(a, horizon), ShapeCapacity(b, horizon);
    x > y || (x == y && (a.gpus < b.gpus || (a.gpus == b.gpus && a.wait < b.wait)))
  }

  /** The first of the most preferred shapes. */
  function BestShapeAt(shapes: seq<Shape>, horizon: real): (best: Shape)
    requires shapes != []
    ensures best in shapes
    ensures forall s :: s in shapes ==> !Better(s, best, horizon)
  {
    var n := |shapes| - 1;
    if n == 0 then shapes[0]
    else
      var earlier := BestShapeAt(shapes[..n], horizon);
      assert forall s :: s in shapes ==> s in shapes[..n] || s == shapes[n];
      if Better(shapes[n], earlier, horizon) then shapes[n] else earlier
  }

  /** Nothing before the expected start, the shape's rate from then on, and what its longest job does after that. */
  lemma ShapeCapacityExactly(s: Shape, horizon: real)
    requires s.usable >= 0.0
    ensures horizon <= s.wait ==> ShapeCapacity(s, horizon) == 0.0
    ensures s.wait <= horizon <= s.wait + s.usable ==> ShapeCapacity(s, horizon) == (horizon - s.wait) * s.rate
    ensures s.wait + s.usable <= horizon ==> ShapeCapacity(s, horizon) == s.usable * s.rate
  {
  }

  /** At a horizon, b does no more than a, and where it does as much it takes no fewer GPUs, and with as many
      it waits no less. */
  predicate NoBetter(b: Shape, a: Shape, horizon: real) {
    var x, y := ShapeCapacity(a, horizon), ShapeCapacity(b, horizon);
    y <= x && (y == x ==> b.gpus >= a.gpus && (b.gpus == a.gpus ==> b.wait >= a.wait))
  }

  /** Every shape listed is no better than the chosen one, and every one listed before it is worse. */
  lemma {:induction false} FirstOfBest(shapes: seq<Shape>, horizon: real) returns (k: nat)
    requires shapes != []
    ensures k < |shapes| && shapes[k] == BestShapeAt(shapes, horizon)
    ensures forall i :: 0 <= i < |shapes| ==> NoBetter(shapes[i], shapes[k], horizon)
    ensures forall i :: 0 <= i < k ==> !NoBetter(shapes[k], shapes[i], horizon)
  {
    hide ShapeCapacity;
    var n := |shapes| - 1;
    k := 0;
    if n > 0 {
      k := FirstOfBest(shapes[..n], horizon);
      forall i | 0 <= i < n ensures shapes[..n][i] == shapes[i] {
      }
      if Better(shapes[n], shapes[k], horizon) {
        k := n;
      }
    }
  }

  function Capacity(site: Site, horizon: real): real
    requires SiteOk(site)
  {
    ShapeCapacity(BestShapeAt(site.shapes, horizon), horizon)
  }

  function CapacityAt(sites: seq<Site>, horizon: real): real
    requires SitesOk(sites)
  {
    if sites == [] then 0.0
    else CapacityAt(sites[..|sites| - 1], horizon) + Capacity(sites[|sites| - 1], horizon)
  }

  function TotalCapacity(sites: seq<Site>): int {
    if sites == [] then 0 else TotalCapacity(sites[..|sites| - 1]) + sites[|sites| - 1].cap
  }

  lemma ShapeMonotone(s: Shape, t1: real, t2: real)
    requires ShapeOk(s) && t1 <= t2
    ensures 0.0 <= ShapeCapacity(s, t1) <= ShapeCapacity(s, t2) <= Full(s)
    ensures s.wait + s.usable <= t2 ==> ShapeCapacity(s, t2) == Full(s)
  {
    HoursScale(MinReal(MaxReal(t1 - s.wait, 0.0), s.usable), MinReal(MaxReal(t2 - s.wait, 0.0), s.usable), s.usable, s.rate,
               ShapeCapacity(s, t1), ShapeCapacity(s, t2), Full(s));
  }

  lemma HoursScale(h1: real, h2: real, usable: real, rate: real, x1: real, x2: real, full: real)
    requires 0.0 <= h1 <= h2 <= usable && rate > 0.0 && x1 == h1 * rate && x2 == h2 * rate && full == usable * rate
    ensures 0.0 <= x1 <= x2 <= full && (h2 == usable ==> x2 == full)
  {
    Scale(0.0, h1, rate);
    Scale(h1, h2, rate);
    Scale(h2, usable, rate);
  }

  lemma Scale(a: real, b: real, factor: real)
    requires a <= b && factor >= 0.0
    ensures a * factor <= b * factor
  {
  }

  /** A site's capacity is that of its best shape, whichever that is by then. */
  lemma CapacityIsBest(site: Site, horizon: real)
    requires SiteOk(site)
    ensures forall i :: 0 <= i < |site.shapes| ==> ShapeCapacity(site.shapes[i], horizon) <= Capacity(site, horizon)
    ensures exists i :: 0 <= i < |site.shapes| && site.shapes[i] == BestShapeAt(site.shapes, horizon)
                        && ShapeCapacity(site.shapes[i], horizon) == Capacity(site, horizon)
  {
    var best := BestShapeAt(site.shapes, horizon);
    forall i | 0 <= i < |site.shapes| ensures ShapeCapacity(site.shapes[i], horizon) <= Capacity(site, horizon) {
      assert !Better(site.shapes[i], best, horizon);
    }
  }

  lemma CapacityMonotone(site: Site, t1: real, t2: real)
    requires SiteOk(site) && t1 <= t2
    ensures 0.0 <= Capacity(site, t1) <= Capacity(site, t2)
  {
    CapacityIsBest(site, t1);
    CapacityIsBest(site, t2);
    var i :| 0 <= i < |site.shapes| && ShapeCapacity(site.shapes[i], t1) == Capacity(site, t1);
    ShapeMonotone(site.shapes[i], t1, t2);
  }

  lemma {:induction false} CapacityAtMonotone(sites: seq<Site>, t1: real, t2: real)
    requires SitesOk(sites) && t1 <= t2
    ensures 0.0 <= CapacityAt(sites, t1) <= CapacityAt(sites, t2)
  {
    if sites != [] {
      CapacityAtMonotone(sites[..|sites| - 1], t1, t2);
      CapacityMonotone(sites[|sites| - 1], t1, t2);
    }
  }

  // --- the horizon after which waiting gains nothing --------------------------

  /** When the last shape of the last site has run as long as it may. */
  ghost predicate EveryoneDone(sites: seq<Site>, horizon: real) {
    forall i, j :: 0 <= i < |sites| && 0 <= j < |sites[i].shapes| ==>
      sites[i].shapes[j].wait + sites[i].shapes[j].usable <= horizon
  }

  lemma CapacityWhenDone(site: Site, horizon: real)
    requires SiteOk(site)
    requires forall j :: 0 <= j < |site.shapes| ==> site.shapes[j].wait + site.shapes[j].usable <= horizon
    ensures site.cap as real <= Capacity(site, horizon)
    ensures forall t :: Capacity(site, t) <= Capacity(site, horizon)
  {
    hide ShapeCapacity, Capacity, BestShapeAt, Full;
    CapacityIsBest(site, horizon);
    var k :| 0 <= k < |site.shapes| && site.shapes[k].cap == site.cap;
    ShapeMonotone(site.shapes[k], horizon, horizon);
    FullShape(site.shapes[k]);
    forall t ensures Capacity(site, t) <= Capacity(site, horizon) {
      CapacityIsBest(site, t);
      var i :| 0 <= i < |site.shapes| && ShapeCapacity(site.shapes[i], t) == Capacity(site, t);
      ShapeMonotone(site.shapes[i], t, t);
      ShapeMonotone(site.shapes[i], horizon, horizon);
    }
  }

  lemma FullShape(s: Shape)
    requires ShapeOk(s)
    ensures s.cap as real <= Full(s)
  {
  }

  lemma {:induction false} CapacityAtWhenDone(sites: seq<Site>, horizon: real, t: real)
    requires SitesOk(sites) && EveryoneDone(sites, horizon)
    ensures TotalCapacity(sites) as real <= CapacityAt(sites, horizon) && CapacityAt(sites, t) <= CapacityAt(sites, horizon)
  {
    if sites != [] {
      var n := |sites| - 1;
      assert sites[..n + 1] == sites;
      CapacityAtWhenDone(sites[..n], horizon, t);
      CapacityWhenDone(sites[n], horizon);
    }
  }

  predicate Covers(sites: seq<Site>, horizon: real, units: int)
    requires SitesOk(sites)
  {
    CapacityAt(sites, horizon) >= units as real
  }

  /** When the last shape has run as long as it may; never before now. */
  function LatestOf(sites: seq<Site>): real
    requires SitesOk(sites)
  {
    if sites == [] then 0.0 else MaxReal(LatestOf(sites[..|sites| - 1]), LatestShape(sites[|sites| - 1].shapes))
  }

  function LatestShape(shapes: seq<Shape>): real
    requires shapes != []
  {
    var s := shapes[|shapes| - 1];
    if |shapes| == 1 then s.wait + s.usable else MaxReal(LatestShape(shapes[..|shapes| - 1]), s.wait + s.usable)
  }

  lemma {:induction false} LatestShapeBounds(shapes: seq<Shape>)
    requires shapes != []
    ensures forall j :: 0 <= j < |shapes| ==> shapes[j].wait + shapes[j].usable <= LatestShape(shapes)
  {
    var n := |shapes| - 1;
    if n > 0 {
      LatestShapeBounds(shapes[..n]);
      forall j | 0 <= j < |shapes| ensures shapes[j].wait + shapes[j].usable <= LatestShape(shapes) {
        if j < n { assert shapes[..n][j] == shapes[j]; }
      }
    }
  }

  lemma {:induction false} LatestIsDone(sites: seq<Site>)
    requires SitesOk(sites)
    ensures LatestOf(sites) >= 0.0 && EveryoneDone(sites, LatestOf(sites))
  {
    if sites != [] {
      var n := |sites| - 1;
      assert SiteOk(sites[n]);
      LatestIsDone(sites[..n]);
      LatestShapeBounds(sites[n].shapes);
      assert sites == sites[..n] + [sites[n]];
    }
  }

  method LatestFinish(sites: seq<Site>) returns (high: real)
    requires SitesOk(sites)
    ensures high == LatestOf(sites)
  {
    high := 0.0;
    var i := 0;
    while i < |sites|
      invariant 0 <= i <= |sites| && high == LatestOf(sites[..i])
    {
      assert SiteOk(sites[i]) && sites[..i + 1][..i] == sites[..i];
      var shapes := sites[i].shapes;
      var latest := shapes[0].wait + shapes[0].usable;
      var j := 1;
      assert shapes[..1] == [shapes[0]];
      while j < |shapes|
        invariant 1 <= j <= |shapes| && latest == LatestShape(shapes[..j])
      {
        assert shapes[..j + 1][..j] == shapes[..j];
        latest := MaxReal(latest, shapes[j].wait + shapes[j].usable);
        j := j + 1;
      }
      assert shapes[..j] == shapes;
      high := MaxReal(high, latest);
      i := i + 1;
    }
    assert sites[..i] == sites;
  }

  function Halved(x: real, times: nat): real {
    if times == 0 then x else Halved(x, times - 1) / 2.0
  }

  const HALVINGS: nat := 60

  /** The smallest horizon that covers the request, to within 2^-60 of the latest finish. */
  ghost predicate NearlyEarliest(sites: seq<Site>, units: int, horizon: real)
    requires SitesOk(sites)
  {
    forall t :: 0.0 <= t && Covers(sites, t, units) ==> horizon - Halved(LatestOf(sites), HALVINGS) <= t
  }

  /** What the middle covers the latest finish covers, and what it does not cover nothing before it does. */
  lemma MiddleDecides(sites: seq<Site>, middle: real, latest: real, units: int)
    requires SitesOk(sites) && middle <= latest
    ensures CapacityAt(sites, middle) >= units as real ==> Covers(sites, middle, units) && Covers(sites, latest, units)
    ensures CapacityAt(sites, middle) < units as real ==> forall t :: 0.0 <= t && Covers(sites, t, units) ==> middle <= t
  {
    hide CapacityAt;
    CapacityAtMonotone(sites, middle, latest);
    forall t | CapacityAt(sites, middle) < units as real && Covers(sites, t, units) ensures middle <= t {
      if t < middle { CapacityAtMonotone(sites, t, middle); }
    }
  }

  /** Bisect for the horizon. Any horizon that covers the request is no earlier than the answer,
      give or take the last interval; and the answer covers it whenever any horizon does. */
  method HorizonFor(sites: seq<Site>, units: int) returns (horizon: real)
    requires SitesOk(sites)
    ensures sites == [] || units <= 0 ==> horizon == 0.0
    ensures sites != [] && units > 0 ==>
      && 0.0 <= horizon <= LatestOf(sites) && NearlyEarliest(sites, units, horizon)
      && (Covers(sites, horizon, units) <==> Covers(sites, LatestOf(sites), units))
  {
    if sites == [] || units <= 0 {
      return 0.0;
    }
    LatestIsDone(sites);
    hide CapacityAt, EveryoneDone, LatestOf, Covers;
    var high := LatestFinish(sites);
    ghost var latest := high;
    var low := 0.0;
    var k := 0;
    while k < HALVINGS
      invariant 0 <= k <= HALVINGS && 0.0 <= low <= high <= latest
      invariant high - low == Halved(latest, k)
      invariant Covers(sites, high, units) <==> Covers(sites, latest, units)
      invariant forall t :: 0.0 <= t && Covers(sites, t, units) ==> low <= t
    {
      var middle := (low + high) / 2.0;
      MiddleDecides(sites, middle, latest, units);
      if CapacityAt(sites, middle) >= units as real {
        high := middle;
      } else {
        low := middle;
      }
      k := k + 1;
    }
    horizon := high;
  }

  /** By the latest finish the sites have done all they ever will, and at least their whole caps. */
  lemma LatestCovers(sites: seq<Site>, units: int)
    requires SitesOk(sites)
    ensures units <= TotalCapacity(sites) ==> Covers(sites, LatestOf(sites), units)
    ensures (exists t :: Covers(sites, t, units)) ==> Covers(sites, LatestOf(sites), units)
  {
    LatestIsDone(sites);
    CapacityAtWhenDone(sites, LatestOf(sites), 0.0);
    if t :| Covers(sites, t, units) {
      CapacityAtWhenDone(sites, LatestOf(sites), t);
    }
  }
}
