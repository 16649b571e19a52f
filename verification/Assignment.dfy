/** Honouring minimum shares: drop a site whose share is too small when the others can do without it,
    keep it when they cannot. */
module Assignment {
  import opened Waterfill
  import opened Rounding
  import opened Planner

  function Without(sites: seq<Site>, i: nat): (r: seq<Site>)
    requires i < |sites|
    ensures |r| == |sites| - 1
  {
    sites[..i] + sites[i + 1..]
  }

  function Names(sites: seq<Site>): set<string> {
    set i | 0 <= i < |sites| :: sites[i].cluster
  }

  ghost predicate OncePerCluster(sites: seq<Site>) {
    forall i, j :: 0 <= i < j < |sites| ==> sites[i].cluster != sites[j].cluster
  }

  // --- totals without a site --------------------------------------------------

  lemma {:induction false} TotalWithout(sites: seq<Site>, i: nat)
    requires i < |sites|
    ensures TotalCapacity(Without(sites, i)) == TotalCapacity(sites) - sites[i].cap
  {
    var n := |sites| - 1;
    if i == n {
      assert Without(sites, i) == sites[..n];
    } else {
      TotalWithout(sites[..n], i);
      assert Without(sites, i)[..n - 1] == Without(sites[..n], i);
    }
  }

  lemma TakenOut(sites: seq<Site>, k: nat)
    requires k < |sites|
    ensures multiset(Without(sites, k)) == multiset(sites) - multiset{sites[k]}
  {
    assert sites == sites[..k] + [sites[k]] + sites[k + 1..];
    assert multiset(sites) == multiset(sites[..k]) + multiset{sites[k]} + multiset(sites[k + 1..]);
  }

  lemma CapOf(sites: seq<Site>, i: nat)
    requires SitesOk(sites) && i < |sites|
    ensures sites[i].cap >= 0
  {
    assert SiteOk(sites[i]);
    var k :| 0 <= k < |sites[i].shapes| && sites[i].shapes[k].cap == sites[i].cap;
    CapNonNegative(sites[i].shapes[k]);
  }

  /** The others could not cover the target between them. */
  ghost predicate Indispensable(sites: seq<Site>, i: nat, target: int)
    requires i < |sites|
  {
    TotalCapacity(Without(sites, i)) < target
  }

  /** A pinned site is indispensable. */
  ghost predicate PinsHold(active: seq<Site>, pinned: set<string>, target: int) {
    forall i :: 0 <= i < |active| && active[i].cluster in pinned ==> Indispensable(active, i, target)
  }

  /** What is dropped leaves the target as it was, and a site that could not be spared still cannot. */
  lemma DropKeeps(active: seq<Site>, k: nat, pinned: set<string>, units: int)
    requires SitesOk(active) && OncePerCluster(active) && k < |active| && active[k].cluster !in pinned
    requires TotalCapacity(Without(active, k)) >= Target(active, units)
    requires PinsHold(active, pinned, Target(active, units))
    ensures var rest := Without(active, k);
            && SitesOk(rest) && OncePerCluster(rest)
            && Target(rest, units) == Target(active, units)
            && PinsHold(rest, pinned, Target(active, units))
            && multiset(rest) == multiset(active) - multiset{active[k]}
  {
    var rest := Without(active, k);
    TotalWithout(active, k);
    CapOf(active, k);
    TakenOut(active, k);
    hide TotalCapacity, SiteOk;
    forall i | 0 <= i < |rest| && rest[i].cluster in pinned ensures Indispensable(rest, i, Target(active, units)) {
      var j := if i < k then i else i + 1;
      assert rest[i] == active[j];
      TotalWithout(active, j);
      TotalWithout(rest, i);
      assert Indispensable(active, j, Target(active, units));
    }
  }

  lemma PinKeeps(active: seq<Site>, k: nat, pinned: set<string>, target: int)
    requires OncePerCluster(active) && k < |active| && PinsHold(active, pinned, target)
    requires Indispensable(active, k, target)
    ensures PinsHold(active, pinned + {active[k].cluster}, target)
  {
    forall i | 0 <= i < |active| && active[i].cluster in pinned + {active[k].cluster} ensures Indispensable(active, i, target) {
      if i != k && active[i].cluster == active[k].cluster { assert false; }
    }
  }

  /** A share too small to be worth a job. */
  predicate Under(count: int, site: Site) {
    0 < count < site.minUnits
  }

  /** The smallest share among those under their minimum and not yet found indispensable. */
  method SmallestUnder(counts: seq<int>, active: seq<Site>, pinned: set<string>) returns (found: bool, k: nat)
    requires |counts| == |active|
    ensures found ==> k < |active| && Under(counts[k], active[k]) && active[k].cluster !in pinned
    ensures found ==> forall i :: 0 <= i < |active| && Under(counts[i], active[i]) && active[i].cluster !in pinned ==>
              counts[k] <= counts[i] && (i < k ==> counts[k] < counts[i])
    ensures !found ==> forall i :: 0 <= i < |active| && Under(counts[i], active[i]) ==> active[i].cluster in pinned
  {
    found, k := false, 0;
    var i := 0;
    while i < |active|
      invariant 0 <= i <= |active|
      invariant found ==> k < i && Under(counts[k], active[k]) && active[k].cluster !in pinned
      invariant found ==> forall j :: 0 <= j < i && Under(counts[j], active[j]) && active[j].cluster !in pinned ==>
                  counts[k] <= counts[j] && (j < k ==> counts[k] < counts[j])
      invariant !found ==> forall j :: 0 <= j < i && Under(counts[j], active[j]) ==> active[j].cluster in pinned
    {
      if Under(counts[i], active[i]) && active[i].cluster !in pinned && (!found || counts[i] < counts[k]) {
        found, k := true, i;
      }
      i := i + 1;
    }
  }

  /** One waterfill of the sites still in, with those found indispensable so far. */
  datatype Turn = Turn(active: seq<Site>, pinned: set<string>, counts: seq<int>, horizon: real)

  ghost predicate TurnOk(turn: Turn, units: int) {
    && SitesOk(turn.active) && OncePerCluster(turn.active) && IsSplit(turn.active, units, turn.horizon, turn.counts)
    && |turn.counts| == |turn.active|
  }

  /** The first of the smallest shares that are under their minimum goes: out if others remain that can do
      all of the target without it, and otherwise among the indispensable. */
  ghost predicate Follows(turn: Turn, active: seq<Site>, pinned: set<string>, units: int)
    requires |turn.counts| == |turn.active|
  {
    exists k: nat :: k < |turn.active| && Chosen(turn, k)
      && if |turn.active| > 1 && TotalCapacity(turn.active) - turn.active[k].cap >= Target(turn.active, units)
         then active == turn.active[..k] + turn.active[k + 1..] && pinned == turn.pinned
         else active == turn.active && pinned == turn.pinned + {turn.active[k].cluster}
  }

  ghost predicate Candidate(turn: Turn, i: int)
    requires |turn.counts| == |turn.active| && 0 <= i < |turn.active|
  {
    0 < turn.counts[i] < turn.active[i].minUnits && turn.active[i].cluster !in turn.pinned
  }

  ghost predicate Chosen(turn: Turn, k: nat)
    requires |turn.counts| == |turn.active| && k < |turn.active|
  {
    && Candidate(turn, k)
    && forall i :: 0 <= i < |turn.active| && Candidate(turn, i) ==> turn.counts[k] <= turn.counts[i] && (i < k ==> turn.counts[k] < turn.counts[i])
  }

  /** From all the sites and no pins, turn by turn, until no share is under its minimum that has not been
      found indispensable. */
  ghost predicate Turns(turns: seq<Turn>, sites: seq<Site>, units: int) {
    && turns != [] && turns[0].active == sites && turns[0].pinned == {}
    && (forall n :: 0 <= n < |turns| ==> TurnOk(turns[n], units))
    && (forall n :: 0 <= n < |turns| - 1 ==> Follows(turns[n], turns[n + 1].active, turns[n + 1].pinned, units))
  }

  ghost predicate TurnsTo(turns: seq<Turn>, active: seq<Site>, pinned: set<string>, sites: seq<Site>, units: int) {
    if turns == [] then active == sites && pinned == {}
    else Turns(turns, sites, units) && Follows(turns[|turns| - 1], active, pinned, units)
  }

  lemma TakesTurn(turns: seq<Turn>, turn: Turn, sites: seq<Site>, units: int)
    requires TurnsTo(turns, turn.active, turn.pinned, sites, units) && TurnOk(turn, units)
    ensures Turns(turns + [turn], sites, units)
  {
    hide TurnOk, Follows;
    var longer := turns + [turn];
    forall n | 0 <= n < |longer| ensures TurnOk(longer[n], units) {
    }
  }

  lemma NoTurns(sites: seq<Site>, units: int)
    ensures TurnsTo([], sites, {}, sites, units)
  {
  }

  lemma NextTurn(turns: seq<Turn>, turn: Turn, k: nat, active: seq<Site>, pinned: set<string>, sites: seq<Site>, units: int)
    requires Turns(turns + [turn], sites, units) && |turn.counts| == |turn.active| && k < |turn.active| && Chosen(turn, k)
    requires var rest := Without(turn.active, k);
             if rest != [] && TotalCapacity(rest) >= Target(turn.active, units)
             then active == rest && pinned == turn.pinned
             else active == turn.active && pinned == turn.pinned + {turn.active[k].cluster}
    ensures TurnsTo(turns + [turn], active, pinned, sites, units)
  {
    GoesOn(turn, k, active, pinned, units);
    hide Turns, Follows, TotalCapacity, Target, Chosen;
  }

  lemma GoesOn(turn: Turn, k: nat, active: seq<Site>, pinned: set<string>, units: int)
    requires |turn.counts| == |turn.active| && k < |turn.active| && Chosen(turn, k)
    requires var rest := Without(turn.active, k);
             if rest != [] && TotalCapacity(rest) >= Target(turn.active, units)
             then active == rest && pinned == turn.pinned
             else active == turn.active && pinned == turn.pinned + {turn.active[k].cluster}
    ensures Follows(turn, active, pinned, units)
  {
    TotalWithout(turn.active, k);
    hide TotalCapacity, Target, Chosen;
  }

  ghost predicate Settles(turn: Turn)
    requires |turn.counts| == |turn.active|
  {
    forall i :: 0 <= i < |turn.active| ==> !Candidate(turn, i)
  }

  /** Waterfill, then drop and waterfill again. Every site ends up with a share or dropped; the target
      never moves; and a site that keeps a share under its minimum is one the rest cannot replace. */
  method Assign(sites: seq<Site>, units: int)
    returns (counts: seq<int>, active: seq<Site>, dropped: seq<Site>, resolved: seq<Shape>, horizon: real, ghost turns: seq<Turn>)
    requires SitesOk(sites) && OncePerCluster(sites) && units >= 1
    ensures multiset(active) + multiset(dropped) == multiset(sites) && SitesOk(active)
    ensures Target(active, units) == Target(sites, units)
    ensures IsSplit(active, units, horizon, counts) && resolved == Resolved(active, horizon)
    ensures active != [] && Target(sites, units) > 0 ==> NearlyEarliest(active, Target(sites, units), horizon)
    ensures forall i :: 0 <= i < |active| && 0 < counts[i] < active[i].minUnits ==>
              TotalCapacity(Without(active, i)) < Target(sites, units)
    ensures Turns(turns, sites, units) && Settles(turns[|turns| - 1])
    ensures turns[|turns| - 1].active == active && turns[|turns| - 1].counts == counts && turns[|turns| - 1].horizon == horizon
  {
    hide SitesOk, IsSplit, Target, Fair, Resolved, Sum, Without, NearlyEarliest, TotalCapacity, TurnOk, Follows, Settles, Chosen,
         Indispensable, PinsHold, OncePerCluster, Turns, TurnsTo;
    active, dropped := sites, [];
    turns := [];
    NoPins(sites, Target(sites, units));
    NoTurns(sites, units);
    var pinned: set<string> := {};
    ghost var target := Target(sites, units);
    while true
      invariant multiset(active) + multiset(dropped) == multiset(sites)
      invariant SitesOk(active) && OncePerCluster(active) && Target(active, units) == target
      invariant PinsHold(active, pinned, target)
      invariant TurnsTo(turns, active, pinned, sites, units)
      decreases |active|, |Names(active) - pinned|
    {
      counts, resolved, horizon := Split(active, units);
      SplitShape(active, units, horizon, counts);
      ghost var turn := Turn(active, pinned, counts, horizon);
      assert TurnOk(turn, units) by { TurnIs(turn, units); }
      ghost var before := turns;
      TakesTurn(before, turn, sites, units);
      turns := before + [turn];
      var found, k := SmallestUnder(counts, active, pinned);
      if !found {
        AllSettled(turn, target);
        return;
      }
      ChosenIs(turn, k);
      var rest := Without(active, k);
      if rest != [] && TotalCapacity(rest) >= Target(active, units) {
        DropKeeps(active, k, pinned, units);
        NextTurn(before, turn, k, rest, pinned, sites, units);
        dropped := dropped + [active[k]];
        active := rest;
      } else {
        NoRest(active, k, units, horizon, counts);
        PinKeeps(active, k, pinned, target);
        FewerUnpinned(active, k, pinned);
        NextTurn(before, turn, k, active, pinned + {active[k].cluster}, sites, units);
        pinned := pinned + {active[k].cluster};
      }
    }
  }

  lemma NoPins(sites: seq<Site>, target: int)
    ensures PinsHold(sites, {}, target)
  {
  }

  lemma TurnIs(turn: Turn, units: int)
    requires SitesOk(turn.active) && OncePerCluster(turn.active) && IsSplit(turn.active, units, turn.horizon, turn.counts)
    requires |turn.counts| == |turn.active|
    ensures TurnOk(turn, units)
  {
    hide IsSplit, SitesOk;
  }

  lemma AllSettled(turn: Turn, target: int)
    requires |turn.counts| == |turn.active| && PinsHold(turn.active, turn.pinned, target)
    requires forall i :: 0 <= i < |turn.active| && Under(turn.counts[i], turn.active[i]) ==> turn.active[i].cluster in turn.pinned
    ensures Settles(turn)
    ensures forall i :: 0 <= i < |turn.active| && 0 < turn.counts[i] < turn.active[i].minUnits ==>
              TotalCapacity(Without(turn.active, i)) < target
  {
    hide TotalCapacity;
    forall i | 0 <= i < |turn.active| && 0 < turn.counts[i] < turn.active[i].minUnits
      ensures TotalCapacity(Without(turn.active, i)) < target
    {
      assert Indispensable(turn.active, i, target);
    }
  }

  lemma ChosenIs(turn: Turn, k: nat)
    requires |turn.counts| == |turn.active| && k < |turn.active|
    requires Under(turn.counts[k], turn.active[k]) && turn.active[k].cluster !in turn.pinned
    requires forall i :: 0 <= i < |turn.active| && Under(turn.counts[i], turn.active[i]) && turn.active[i].cluster !in turn.pinned ==>
               turn.counts[k] <= turn.counts[i] && (i < k ==> turn.counts[k] < turn.counts[i])
    ensures Chosen(turn, k)
  {
  }

  lemma SplitShape(sites: seq<Site>, units: int, horizon: real, counts: seq<int>)
    requires SitesOk(sites) && IsSplit(sites, units, horizon, counts)
    ensures |counts| == |sites|
  {
  }

  lemma FewerUnpinned(active: seq<Site>, k: nat, pinned: set<string>)
    requires k < |active| && active[k].cluster !in pinned
    ensures |Names(active) - (pinned + {active[k].cluster})| < |Names(active) - pinned|
  {
    assert Names(active) - (pinned + {active[k].cluster}) == (Names(active) - pinned) - {active[k].cluster};
    assert active[k].cluster in Names(active) - pinned;
  }

  lemma {:induction false} CountWithin(counts: seq<int>, k: nat)
    requires k < |counts| && forall i :: 0 <= i < |counts| ==> counts[i] >= 0
    ensures 0 <= counts[k] <= Sum(counts)
  {
    var zeros := seq(|counts|, _ => 0);
    ZeroSum(|counts|);
    SumUpdate(zeros, k, counts[k]);
    SumAtMost(zeros[k := counts[k]], counts);
  }

  lemma {:induction false} ZeroSum(n: nat)
    ensures Sum(seq(n, _ => 0)) == 0
  {
    if n > 0 {
      ZeroSum(n - 1);
      assert seq(n, _ => 0)[..n - 1] == seq(n - 1, _ => 0);
    }
  }

  /** A site that is not dropped is indispensable, were it the only one left. */
  lemma NoRest(active: seq<Site>, k: nat, units: int, horizon: real, counts: seq<int>)
    requires SitesOk(active) && k < |active| && IsSplit(active, units, horizon, counts) && counts[k] > 0
    requires Without(active, k) == [] || TotalCapacity(Without(active, k)) < Target(active, units)
    ensures Indispensable(active, k, Target(active, units))
  {
    if Without(active, k) == [] {
      CountWithin(counts, k);
    }
  }

  // --- the plan ---------------------------------------------------------------

  datatype Row = Row(cluster: string, units: int)

  function RowUnits(rows: seq<Row>): int {
    if rows == [] then 0 else RowUnits(rows[..|rows| - 1]) + rows[|rows| - 1].units
  }

  function Clusters(sites: seq<Site>): (r: seq<string>)
    ensures |r| == |sites|
  {
    seq(|sites|, i requires 0 <= i < |sites| => sites[i].cluster)
  }

  function RowClusters(rows: seq<Row>): (r: seq<string>)
    ensures |r| == |rows|
  {
    seq(|rows|, i requires 0 <= i < |rows| => rows[i].cluster)
  }

  lemma NextNamed(active: seq<Site>, counts: seq<int>, i: nat)
    requires |counts| == |active| && i < |active|
    ensures Clusters(active)[..i + 1] == Clusters(active)[..i] + [active[i].cluster]
    ensures Sum(counts[..i + 1]) == Sum(counts[..i]) + counts[i]
  {
    assert counts[..i + 1][..i] == counts[..i];
  }

  lemma RowAdded(rows: seq<Row>, row: Row)
    ensures RowClusters(rows + [row]) == RowClusters(rows) + [row.cluster]
    ensures RowUnits(rows + [row]) == RowUnits(rows) + row.units
  {
    assert (rows + [row])[..|rows|] == rows;
  }

  /** One row for each site given work; the others are listed as excluded. */
  method Rows(counts: seq<int>, active: seq<Site>) returns (rows: seq<Row>, idle: seq<string>)
    requires |counts| == |active|
    ensures multiset(RowClusters(rows)) + multiset(idle) == multiset(Clusters(active))
    ensures RowUnits(rows) == Sum(counts)
    ensures forall r :: r in rows ==> r.units != 0
  {
    hide Clusters;
    rows, idle := [], [];
    var i := 0;
    while i < |active|
      invariant 0 <= i <= |active|
      invariant multiset(RowClusters(rows)) + multiset(idle) == multiset(Clusters(active)[..i])
      invariant RowUnits(rows) == Sum(counts[..i])
      invariant forall r :: r in rows ==> r.units != 0
    {
      NextNamed(active, counts, i);
      if counts[i] == 0 {
        idle := idle + [active[i].cluster];
      } else {
        var row := Row(active[i].cluster, counts[i]);
        RowAdded(rows, row);
        rows := rows + [row];
      }
      i := i + 1;
    }
    assert Clusters(active)[..i] == Clusters(active) && counts[..i] == counts;
  }

  /** The plan accounts for every unit and every cluster. */
  method MakePlan(units: int, sites: seq<Site>, unusable: seq<string>)
    returns (rows: seq<Row>, excluded: seq<string>, placed: int, unplaced: int)
    requires SitesOk(sites) && OncePerCluster(sites) && units >= 1
    ensures multiset(RowClusters(rows)) + multiset(excluded) == multiset(Clusters(sites)) + multiset(unusable)
    ensures placed == RowUnits(rows) && placed + unplaced == units
    ensures placed <= Target(sites, units) && (sites != [] ==> Target(sites, units) - placed < |sites|)
    ensures OneShapeEach(sites) ==> placed == Target(sites, units)
  {
    hide SitesOk, IsSplit, Indispensable, Target, Fair, Resolved, Sum, Without;
    var counts, active, dropped, resolved, horizon;
    ghost var turns;
    counts, active, dropped, resolved, horizon, turns := Assign(sites, units);
    SplitShape(active, units, horizon, counts);
    PlanTotal(sites, active, dropped, units, horizon, counts);
    var idle;
    rows, idle := Rows(counts, active);
    excluded := unusable + Clusters(dropped) + idle;
    NamesKept(sites, active, dropped);
    placed := RowUnits(rows);
    unplaced := units - placed;
  }

  lemma PlanTotal(sites: seq<Site>, active: seq<Site>, dropped: seq<Site>, units: int, horizon: real, counts: seq<int>)
    requires SitesOk(sites) && SitesOk(active) && units >= 1 && IsSplit(active, units, horizon, counts)
    requires multiset(active) + multiset(dropped) == multiset(sites) && Target(active, units) == Target(sites, units)
    ensures Sum(counts) <= Target(sites, units)
    ensures sites != [] ==> Target(sites, units) - Sum(counts) < |sites|
    ensures OneShapeEach(sites) ==> Sum(counts) == Target(sites, units)
  {
    SplitTotal(active, units, horizon, counts);
    assert |active| + |dropped| == |sites| by { Sizes(sites, active, dropped); }
    forall i | 0 <= i < |active| ensures active[i] in sites {
      assert active[i] in multiset(active);
      assert active[i] in multiset(sites);
    }
    if active == [] {
      assert Target(sites, units) <= 0;
      assert counts == [];
    }
  }

  lemma Sizes(sites: seq<Site>, active: seq<Site>, dropped: seq<Site>)
    requires multiset(active) + multiset(dropped) == multiset(sites)
    ensures |active| + |dropped| == |sites|
  {
    assert |multiset(sites)| == |sites| && |multiset(active)| == |active| && |multiset(dropped)| == |dropped|;
  }

  lemma {:induction false} NamesKept(sites: seq<Site>, active: seq<Site>, dropped: seq<Site>)
    requires multiset(active) + multiset(dropped) == multiset(sites)
    ensures multiset(Clusters(active)) + multiset(Clusters(dropped)) == multiset(Clusters(sites))
  {
    assert multiset(active + dropped) == multiset(sites);
    SameNames(active + dropped, sites);
    assert Clusters(active + dropped) == Clusters(active) + Clusters(dropped);
  }

  lemma NameTaken(sites: seq<Site>, k: nat)
    requires k < |sites|
    ensures multiset(Clusters(sites)) == multiset(Clusters(Without(sites, k))) + multiset{sites[k].cluster}
  {
    assert Clusters(sites) == Clusters(sites[..k]) + [sites[k].cluster] + Clusters(sites[k + 1..]);
    assert Clusters(Without(sites, k)) == Clusters(sites[..k]) + Clusters(sites[k + 1..]);
  }

  /** Lists with the same sites have the same names. */
  lemma {:induction false} SameNames(a: seq<Site>, b: seq<Site>)
    requires multiset(a) == multiset(b)
    ensures multiset(Clusters(a)) == multiset(Clusters(b))
    decreases |a|
  {
    if a == [] {
      assert |multiset(b)| == 0;
      assert b == [];
    } else {
      var x := a[0];
      assert x in multiset(b);
      var k :| 0 <= k < |b| && b[k] == x;
      assert Without(a, 0) == a[1..];
      TakenOut(a, 0);
      TakenOut(b, k);
      SameNames(a[1..], Without(b, k));
      NameTaken(a, 0);
      NameTaken(b, k);
    }
  }
}
