/** The server strategy: merging whole weights inline, and refusing clusters that report twice. */
module Strategy {
  import opened Wrappers
  import opened OuterStep
  import opened GlobalStates

  const MAX_WEIGHT_GROWTH: real := 1000.0

  type Layers = seq<seq<real>>

  /** One cluster's reply; `finite` is false when its weights hold a nan or an infinity. */
  datatype FitResult = FitResult(cluster: string, examples: int, steps: int, layers: Layers, finite: bool)

  // --- layers -----------------------------------------------------------------

  predicate SameSizes(a: Layers, b: Layers) {
    |a| == |b| && forall l :: 0 <= l < |a| ==> |a[l]| == |b[l]|
  }

  predicate InLayers(a: Layers, l: int, j: int) {
    0 <= l < |a| && 0 <= j < |a[l]|
  }

  function Scaled(layers: Layers, factor: real): (r: Layers)
    ensures SameSizes(layers, r)
  {
    seq(|layers|, l requires 0 <= l < |layers| => Times(factor, layers[l]))
  }

  function Added(a: Layers, b: Layers): (r: Layers)
    requires SameSizes(a, b)
    ensures SameSizes(a, r)
  {
    seq(|a|, l requires 0 <= l < |a| => seq(|a[l]|, j requires 0 <= j < |a[l]| => a[l][j] + b[l][j]))
  }

  function Abs(x: real): real { if x < 0.0 then -x else x }

  function LargestIn(layer: seq<real>): real {
    if layer == [] then 0.0
    else
      var before, x := LargestIn(layer[..|layer| - 1]), Abs(layer[|layer| - 1]);
      if x > before then x else before
  }

  function Largest(layers: Layers): real {
    if layers == [] then 0.0
    else
      var before, x := Largest(layers[..|layers| - 1]), LargestIn(layers[|layers| - 1]);
      if x > before then x else before
  }

  // --- who is merged ----------------------------------------------------------

  /** A jump no single phase can have made. */
  predicate Diverged(r: FitResult, incumbent: Option<Layers>) {
    incumbent.Some? && Largest(incumbent.value) > 0.0
    && Largest(r.layers) > Largest(incumbent.value) * MAX_WEIGHT_GROWTH
  }

  predicate Usable(r: FitResult, incumbent: Option<Layers>) {
    r.examples > 0 && r.finite && !Diverged(r, incumbent)
  }

  function Kept(results: seq<FitResult>, incumbent: Option<Layers>): seq<FitResult> {
    if results == [] then []
    else
      var n := |results| - 1;
      Kept(results[..n], incumbent) + if Usable(results[n], incumbent) then [results[n]] else []
  }

  function Examples(results: seq<FitResult>): int {
    if results == [] then 0 else Examples(results[..|results| - 1]) + results[|results| - 1].examples
  }

  function Reporting(results: seq<FitResult>): nat {
    if results == [] then 0
    else Reporting(results[..|results| - 1]) + if results[|results| - 1].examples > 0 then 1 else 0
  }

  function ExampleWeights(kept: seq<FitResult>): (r: seq<real>)
    ensures |r| == |kept|
  {
    seq(|kept|, i requires 0 <= i < |kept| => kept[i].examples as real)
  }

  function SharesOf(kept: seq<FitResult>, total: int): (r: seq<real>)
    requires total != 0
    ensures |r| == |kept|
  {
    seq(|kept|, i requires 0 <= i < |kept| => kept[i].examples as real / total as real)
  }

  function ColumnIn(kept: seq<FitResult>, l: int, j: int): (r: seq<real>)
    requires forall i :: 0 <= i < |kept| ==> 0 <= l < |kept[i].layers| && 0 <= j < |kept[i].layers[l]|
    ensures |r| == |kept|
  {
    seq(|kept|, i requires 0 <= i < |kept| => kept[i].layers[l][j])
  }

  function MostStepsOf(kept: seq<FitResult>): int
    requires kept != []
  {
    var n := |kept| - 1;
    if n == 0 then kept[0].steps
    else
      var earlier := MostStepsOf(kept[..n]);
      if kept[n].steps > earlier then kept[n].steps else earlier
  }

  lemma {:induction false} KeptAreUsable(results: seq<FitResult>, incumbent: Option<Layers>)
    ensures forall r :: r in Kept(results, incumbent) <==> r in results && Usable(r, incumbent)
  {
    if results != [] {
      var n := |results| - 1;
      KeptAreUsable(results[..n], incumbent);
      assert results == results[..n] + [results[n]];
    }
  }

  lemma {:induction false} ExamplesAsTotal(kept: seq<FitResult>)
    ensures Total(ExampleWeights(kept)) == Examples(kept) as real
  {
    if kept != [] {
      var n := |kept| - 1;
      ExamplesAsTotal(kept[..n]);
      assert ExampleWeights(kept)[..n] == ExampleWeights(kept[..n]);
    }
  }

  lemma UsableReports(r: FitResult, incumbent: Option<Layers>)
    ensures Usable(r, incumbent) ==> r.examples > 0
  {
  }

  /** What the counts below zero take off the total. */
  function Negatives(results: seq<FitResult>): (n: nat)
    ensures n == 0 <==> forall i :: 0 <= i < |results| ==> results[i].examples >= 0
  {
    if results == [] then 0
    else
      var before, x := Negatives(results[..|results| - 1]), results[|results| - 1].examples;
      assert forall i :: 0 <= i < |results| - 1 ==> results[..|results| - 1][i] == results[i];
      before + if x < 0 then -x else 0
  }

  /** What was dropped is what is missing from the total, and counts below zero are missing twice. */
  lemma {:induction false} KeptExamples(results: seq<FitResult>, incumbent: Option<Layers>)
    ensures var kept := Kept(results, incumbent);
            && |kept| <= Reporting(results)
            && 0 <= Examples(kept) <= Examples(results) + Negatives(results) && (kept != [] ==> Examples(kept) > 0)
            && (|kept| == Reporting(results) ==> Examples(kept) == Examples(results) + Negatives(results))
  {
    hide Usable;
    if results != [] {
      var n := |results| - 1;
      KeptExamples(results[..n], incumbent);
      UsableReports(results[n], incumbent);
      var before := Kept(results[..n], incumbent);
      if Usable(results[n], incumbent) {
        assert Kept(results, incumbent) == before + [results[n]];
        assert (before + [results[n]])[..|before|] == before;
        assert Examples(before + [results[n]]) == Examples(before) + results[n].examples;
      } else {
        assert Kept(results, incumbent) == before;
      }
    }
  }

  // --- shares of what was kept ------------------------------------------------

  /** Rescaling shares of the original total gives shares of what was kept. */
  lemma RescaledShares(kept: seq<FitResult>, total: int)
    requires total > 0 && Examples(kept) > 0
    ensures Total(ExampleWeights(kept)) != 0.0
    ensures Times(total as real / Examples(kept) as real, SharesOf(kept, total)) == Normalise(ExampleWeights(kept))
    ensures total == Examples(kept) ==> SharesOf(kept, total) == Normalise(ExampleWeights(kept))
  {
    ExamplesAsTotal(kept);
    var rescale := total as real / Examples(kept) as real;
    forall i | 0 <= i < |kept|
      ensures Product(rescale, SharesOf(kept, total)[i]) == Normalise(ExampleWeights(kept))[i]
    {
      Rescale(kept[i].examples as real, total as real, Examples(kept) as real);
    }
  }

  lemma Rescale(x: real, total: real, kept: real)
    requires total > 0.0 && kept > 0.0
    ensures Product(total / kept, x / total) == x / kept
  {
    var a, b, c := total / kept, x / total, x / kept;
    assert a * kept == total && b * total == x && c * kept == x;
    assert (a * b) * kept == b * (a * kept);
    assert (a * b - c) * kept == 0.0;
  }

  /** The weighted mean of what was kept, at one weight. */
  function AverageAt(kept: seq<FitResult>, l: int, j: int): real
    requires Total(ExampleWeights(kept)) != 0.0
    requires forall i :: 0 <= i < |kept| ==> 0 <= l < |kept[i].layers| && 0 <= j < |kept[i].layers[l]|
  {
    Combined(Normalise(ExampleWeights(kept)), ColumnIn(kept, l, j))
  }

  predicate AllSized(results: seq<FitResult>, w: Layers) {
    forall i :: 0 <= i < |results| ==> SameSizes(w, results[i].layers)
  }

  /** The mean of what was kept, times a factor. */
  ghost predicate IsAverage(kept: seq<FitResult>, w: Layers, factor: real, average: Layers)
    requires Total(ExampleWeights(kept)) != 0.0 && AllSized(kept, w)
  {
    SameSizes(w, average) && forall l, j :: InLayers(w, l, j) ==> average[l][j] == Product(factor, AverageAt(kept, l, j))
  }

  /** Shares are of the total of all counts, and rescaled only when someone who reported was dropped. */
  function Factor(results: seq<FitResult>, kept: seq<FitResult>): real
    requires Examples(results) != 0
  {
    if |kept| == Reporting(results) then Examples(kept) as real / Examples(results) as real else 1.0
  }

  /** What is merged is the survivors' mean exactly when someone was dropped or no count is below zero. */
  lemma FactorIsOne(results: seq<FitResult>, incumbent: Option<Layers>)
    requires Examples(results) > 0
    ensures var kept := Kept(results, incumbent);
            && Factor(results, kept) >= 1.0
            && (Factor(results, kept) == 1.0 <==>
                  |kept| < Reporting(results) || forall i :: 0 <= i < |results| ==> results[i].examples >= 0)
  {
    KeptExamples(results, incumbent);
    var kept := Kept(results, incumbent);
    if |kept| == Reporting(results) {
      Quotient(Examples(kept) as real, Examples(results) as real);
    }
  }

  lemma Quotient(a: real, b: real)
    requires a >= b > 0.0
    ensures a / b >= 1.0 && (a / b == 1.0 <==> a == b)
  {
    var q := a / b;
    assert q * b == a;
    assert (q - 1.0) * b == a - b;
    assert q < 1.0 ==> (q - 1.0) * b < 0.0;
  }

  /** The sum so far: every kept result at its share of the original total. */
  ghost predicate IsPartial(kept: seq<FitResult>, total: int, w: Layers, sum: Layers)
    requires total != 0 && AllSized(kept, w)
  {
    SameSizes(w, sum) && forall l, j :: InLayers(w, l, j) ==> sum[l][j] == Combined(SharesOf(kept, total), ColumnIn(kept, l, j))
  }

  lemma FirstPartial(r: FitResult, total: int, w: Layers)
    requires total != 0 && SameSizes(w, r.layers)
    ensures IsPartial([r], total, w, Scaled(r.layers, r.examples as real / total as real))
  {
    hide Product;
    forall l, j | InLayers(w, l, j)
      ensures Combined(SharesOf([r], total), ColumnIn([r], l, j)) == Product(r.examples as real / total as real, r.layers[l][j])
    {
      assert SharesOf([r], total)[..0] == [] && ColumnIn([r], l, j)[..0] == [];
    }
  }

  lemma NextPartial(kept: seq<FitResult>, r: FitResult, total: int, w: Layers, sum: Layers)
    requires total != 0 && AllSized(kept, w) && SameSizes(w, r.layers) && IsPartial(kept, total, w, sum)
    ensures IsPartial(kept + [r], total, w, Added(sum, Scaled(r.layers, r.examples as real / total as real)))
  {
    hide Product;
    var n := |kept|;
    forall l, j | InLayers(w, l, j)
      ensures Combined(SharesOf(kept + [r], total), ColumnIn(kept + [r], l, j))
           == Combined(SharesOf(kept, total), ColumnIn(kept, l, j)) + Product(r.examples as real / total as real, r.layers[l][j])
    {
      assert SharesOf(kept + [r], total)[..n] == SharesOf(kept, total);
      assert ColumnIn(kept + [r], l, j)[..n] == ColumnIn(kept, l, j);
    }
  }

  lemma WholeIsAverage(kept: seq<FitResult>, total: int, w: Layers, sum: Layers)
    requires total > 0 && Examples(kept) > 0 && AllSized(kept, w) && IsPartial(kept, total, w, sum)
    ensures Total(ExampleWeights(kept)) != 0.0
    ensures IsAverage(kept, w, Examples(kept) as real / total as real, sum)
    ensures IsAverage(kept, w, 1.0, Scaled(sum, total as real / Examples(kept) as real))
  {
    RescaledShares(kept, total);
    var rescale := total as real / Examples(kept) as real;
    hide Product, Combined;
    forall l, j | InLayers(w, l, j)
      ensures Product(rescale, sum[l][j]) == AverageAt(kept, l, j) == Product(1.0, AverageAt(kept, l, j))
      ensures sum[l][j] == Product(Examples(kept) as real / total as real, AverageAt(kept, l, j))
    {
      CombinedTimes(rescale, SharesOf(kept, total), ColumnIn(kept, l, j));
      Unscale(total as real, Examples(kept) as real, sum[l][j]);
      TimesOne(AverageAt(kept, l, j));
    }
  }

  lemma Unscale(total: real, kept: real, x: real)
    requires total > 0.0 && kept > 0.0
    ensures Product(kept / total, Product(total / kept, x)) == x
  {
    var a, b := kept / total, total / kept;
    assert a * total == kept && b * kept == total;
    assert (a * b - 1.0) * kept == a * (b * kept) - kept;
    assert a * b == 1.0;
    assert a * (b * x) == (a * b) * x;
  }

  lemma TimesOne(x: real)
    ensures Product(1.0, x) == x
  {
  }

  // --- the merge --------------------------------------------------------------

  function CoordinateIn(w: Layers, v: Option<Layers>, l: int, j: int): Coordinate
    requires InLayers(w, l, j) && (v.Some? ==> SameSizes(w, v.value))
  {
    Coordinate(w[l][j], if v.None? then None else Some(v.value[l][j]))
  }

  /** Every weight stepped towards the mean of the survivors, times a factor. */
  ghost predicate IsInlineMerge(w: Layers, v: Option<Layers>, kept: seq<FitResult>, factor: real, eta: real, beta: real,
                                w': Layers, v': Layers)
    requires (v.Some? ==> SameSizes(w, v.value)) && AllSized(kept, w) && Total(ExampleWeights(kept)) != 0.0
  {
    && SameSizes(w, w') && SameSizes(w, v')
    && forall l, j :: InLayers(w, l, j) ==>
         Coordinate(w'[l][j], Some(v'[l][j])) == InlineStep(CoordinateIn(w, v, l, j), Product(factor, AverageAt(kept, l, j)), eta, beta)
  }

  /** The inline merge is the streamed merge of the survivors' deltas, shares and all, for any set of
      dropped clusters. */
  lemma InlineAgrees(w: Layers, v: Option<Layers>, kept: seq<FitResult>, eta: real, beta: real, w': Layers, v': Layers, l: int, j: int)
    requires (v.Some? ==> SameSizes(w, v.value)) && AllSized(kept, w) && Total(ExampleWeights(kept)) != 0.0
    requires IsInlineMerge(w, v, kept, 1.0, eta, beta, w', v') && InLayers(w, l, j)
    ensures var shares := Normalise(ExampleWeights(kept));
            var deltas := Minus(ColumnIn(kept, l, j), w[l][j]);
            Coordinate(w'[l][j], Some(v'[l][j])) == FedMom(CoordinateIn(w, v, l, j), Combined(shares, deltas), eta, beta)
  {
    SharesAddUp(ExampleWeights(kept));
    TimesOne(AverageAt(kept, l, j));
    InlineIsStreamed(CoordinateIn(w, v, l, j), Normalise(ExampleWeights(kept)), ColumnIn(kept, l, j), eta, beta);
  }

  function Descended(w: Layers, average: Layers, eta: real): (r: Layers)
    requires SameSizes(w, average)
    ensures SameSizes(w, r)
  {
    seq(|w|, l requires 0 <= l < |w| => seq(|w[l]|, j requires 0 <= j < |w[l]| => Descend(w[l][j], average[l][j], eta)))
  }

  function Carried(vNext: Layers, vPrev: Layers, beta: real): (r: Layers)
    requires SameSizes(vNext, vPrev)
    ensures SameSizes(vNext, r)
  {
    seq(|vNext|, l requires 0 <= l < |vNext| => seq(|vNext[l]|, j requires 0 <= j < |vNext[l]| =>
      Carry(vNext[l][j], vPrev[l][j], beta)))
  }

  class InlineAggregator {
    const learningRate: real
    const momentum: real
    const soloFullStep: bool
    var initial: Layers
    var weights: Option<Layers>
    var velocity: Option<Layers>
    var inlineRound: int
    var globalStep: int

    function Incumbent(): Layers
      reads this
    {
      if weights.Some? && weights.value != [] then weights.value else initial
    }

    ghost predicate Valid()
      reads this
    {
      && (weights.Some? ==> SameSizes(initial, weights.value))
      && (velocity.Some? ==> SameSizes(initial, velocity.value))
    }

    constructor (initial: Layers, learningRate: real, momentum: real, soloFullStep: bool)
      ensures Valid() && weights == None && velocity == None && inlineRound == 0 && globalStep == 0
      ensures this.initial == initial && this.learningRate == learningRate && this.momentum == momentum
      ensures this.soloFullStep == soloFullStep
    {
      this.initial, weights, velocity := initial, None, None;
      this.learningRate, this.momentum, this.soloFullStep := learningRate, momentum, soloFullStep;
      inlineRound, globalStep := 0, 0;
    }

    /** The usable results and their weighted sum, each at its share of the original total. */
    method Gather(results: seq<FitResult>, total: int) returns (usable: seq<FitResult>, sum: Option<Layers>)
      requires Valid() && total > 0 && AllSized(results, Incumbent())
      ensures usable == Kept(results, weights) && AllSized(usable, Incumbent())
      ensures sum.Some? <==> usable != []
      ensures sum.Some? ==> SameSizes(Incumbent(), sum.value) && IsPartial(usable, total, Incumbent(), sum.value)
    {
      hide IsPartial, Usable, Added, Scaled;
      usable, sum := [], None;
      var i := 0;
      while i < |results|
        invariant 0 <= i <= |results| && usable == Kept(results[..i], weights) && AllSized(usable, Incumbent())
        invariant sum.Some? <==> usable != []
        invariant sum.Some? ==> SameSizes(Incumbent(), sum.value) && IsPartial(usable, total, Incumbent(), sum.value)
      {
        assert results[..i + 1][..i] == results[..i];
        var r := results[i];
        if Usable(r, weights) {
          var scaled := Scaled(r.layers, r.examples as real / total as real);
          if sum.None? {
            FirstPartial(r, total, Incumbent());
            assert usable + [r] == [r];
            sum := Some(scaled);
          } else {
            NextPartial(usable, r, total, Incumbent(), sum.value);
            sum := Some(Added(sum.value, scaled));
          }
          usable := usable + [r];
        }
        i := i + 1;
      }
      assert results[..i] == results;
    }

    /** Merge one round of weights; false, changing nothing, when there is nothing to merge. */
    method Aggregate(results: seq<FitResult>) returns (merged: bool)
      requires Valid() && AllSized(results, Incumbent())
      modifies this`weights, this`velocity, this`inlineRound, this`globalStep, this`initial
      ensures Valid()
      ensures var kept := Kept(results, old(weights));
              && merged == (Examples(results) > 0 && kept != [])
              && (!merged ==> weights == old(weights) && velocity == old(velocity) && inlineRound == old(inlineRound)
                              && globalStep == old(globalStep))
              && (merged ==>
                    && Total(ExampleWeights(kept)) != 0.0 && AllSized(kept, old(Incumbent()))
                    && weights.Some? && velocity.Some?
                    && (old(velocity).Some? ==> SameSizes(old(Incumbent()), old(velocity).value))
                    && IsInlineMerge(old(Incumbent()), old(velocity), kept, Factor(results, kept), Eta(kept), momentum,
                                     weights.value, velocity.value)
                    && inlineRound == old(inlineRound) + 1
                    && globalStep == old(globalStep) + (if MostStepsOf(kept) > 0 then MostStepsOf(kept) else 0))
    {
      hide IsPartial, IsAverage, IsInlineMerge, Kept, Examples, Reporting, Total, ExampleWeights, MostStepsOf, Scaled, Carried, Descended;
      var total := Examples(results);
      if total <= 0 {
        return false;
      }
      KeptExamples(results, weights);
      var usable, sum := Gather(results, total);
      if usable == [] {
        return false;
      }
      var average := sum.value;
      WholeIsAverage(usable, total, Incumbent(), average);
      ghost var factor := Factor(results, usable);
      if |usable| != Reporting(results) {
        average := Scaled(average, total as real / Examples(usable) as real);
      }
      var w := Incumbent();
      var vNext := Descended(w, average, Eta(usable));
      var vPrev := if velocity.None? then w else velocity.value;
      var wNext := Carried(vNext, vPrev, momentum);
      StepsAreMerge(w, velocity, usable, factor, average, Eta(usable), momentum);
      velocity, weights := Some(vNext), Some(wNext);
      inlineRound := inlineRound + 1;
      var stepIncrement := MostStepsOf(usable);
      if stepIncrement > 0 {
        globalStep := globalStep + stepIncrement;
      }
      initial := wNext;
      return true;
    }

    /** With nothing to average there is nothing to damp. */
    function Eta(kept: seq<FitResult>): real {
      if |kept| == 1 && soloFullStep then 1.0 else learningRate
    }
  }

  lemma StepsAreMerge(w: Layers, v: Option<Layers>, kept: seq<FitResult>, factor: real, average: Layers, eta: real, beta: real)
    requires (v.Some? ==> SameSizes(w, v.value)) && AllSized(kept, w) && Total(ExampleWeights(kept)) != 0.0
    requires IsAverage(kept, w, factor, average)
    ensures SameSizes(w, average)
    ensures var vNext := Descended(w, average, eta);
            IsInlineMerge(w, v, kept, factor, eta, beta, Carried(vNext, if v.None? then w else v.value, beta), vNext)
  {
    hide AverageAt, Normalise, Total, Descend, Carry, Product;
    var vNext := Descended(w, average, eta);
    var wNext := Carried(vNext, if v.None? then w else v.value, beta);
    forall l, j | InLayers(w, l, j)
      ensures Coordinate(wNext[l][j], Some(vNext[l][j]))
           == InlineStep(CoordinateIn(w, v, l, j), Product(factor, AverageAt(kept, l, j)), eta, beta)
    {
      assert average[l][j] == Product(factor, AverageAt(kept, l, j));
    }
  }

  /** At least two survivors: what the inline path leaves is what the streamed path, at the same rate
      and momentum, would have left. A single survivor is stepped at rate 1 instead. */
  lemma TwoSurvivorsAgree(agg: InlineAggregator, w: Layers, v: Option<Layers>, kept: seq<FitResult>, w': Layers, v': Layers,
                          l: int, j: int)
    requires (v.Some? ==> SameSizes(w, v.value)) && AllSized(kept, w) && Total(ExampleWeights(kept)) != 0.0
    requires |kept| >= 2 && InLayers(w, l, j)
    requires IsInlineMerge(w, v, kept, 1.0, agg.Eta(kept), agg.momentum, w', v')
    ensures Coordinate(w'[l][j], Some(v'[l][j])) ==
            FedMom(CoordinateIn(w, v, l, j),
                   Combined(Normalise(ExampleWeights(kept)), Minus(ColumnIn(kept, l, j), w[l][j])), agg.learningRate, agg.momentum)
  {
    InlineAgrees(w, v, kept, agg.learningRate, agg.momentum, w', v', l, j);
  }

  // --- clusters that report twice ---------------------------------------------

  function TimesSeen(items: seq<Contribution>, cluster: string): nat {
    if items == [] then 0
    else TimesSeen(items[..|items| - 1], cluster) + if items[|items| - 1].cluster == cluster then 1 else 0
  }

  /** The contributions of clusters that appear once in `all`. */
  function Single(items: seq<Contribution>, all: seq<Contribution>): seq<Contribution> {
    if items == [] then []
    else
      var n := |items| - 1;
      Single(items[..n], all) + if TimesSeen(all, items[n].cluster) <= 1 then [items[n]] else []
  }

  method RejectDuplicates(items: seq<Contribution>) returns (kept: seq<Contribution>)
    ensures kept == Single(items, items)
  {
    var seen: map<string, nat> := map[];
    var i := 0;
    while i < |items|
      invariant 0 <= i <= |items|
      invariant forall c :: (if c in seen then seen[c] else 0) == TimesSeen(items[..i], c)
    {
      assert items[..i + 1][..i] == items[..i];
      var c := items[i].cluster;
      seen := seen[c := (if c in seen then seen[c] else 0) + 1];
      i := i + 1;
    }
    assert items[..i] == items;
    kept := [];
    i := 0;
    while i < |items|
      invariant 0 <= i <= |items| && kept == Single(items[..i], items)
      invariant forall c :: (if c in seen then seen[c] else 0) == TimesSeen(items, c)
    {
      assert items[..i + 1][..i] == items[..i];
      var c := items[i].cluster;
      if (if c in seen then seen[c] else 0) <= 1 {
        kept := kept + [items[i]];
      }
      i := i + 1;
    }
    assert items[..i] == items;
  }

  /** Every cluster is heard once, and one that was heard twice is not heard at all. */
  lemma HeardOnce(items: seq<Contribution>)
    ensures forall c :: TimesSeen(Single(items, items), c) == if TimesSeen(items, c) == 1 then 1 else 0
    ensures forall item :: item in Single(items, items) <==> item in items && TimesSeen(items, item.cluster) == 1
  {
    forall c ensures TimesSeen(Single(items, items), c) == if TimesSeen(items, c) == 1 then 1 else 0 {
      SingleTimes(items, items, c);
    }
    SingleMembers(items, items);
    forall item | item in items ensures TimesSeen(items, item.cluster) >= 1 {
      SeenAtLeastOnce(items, item);
    }
  }

  lemma {:induction false} SingleTimes(items: seq<Contribution>, all: seq<Contribution>, c: string)
    ensures TimesSeen(Single(items, all), c) == if TimesSeen(all, c) <= 1 then TimesSeen(items, c) else 0
  {
    if items != [] {
      var n := |items| - 1;
      SingleTimes(items[..n], all, c);
      var before := Single(items[..n], all);
      if TimesSeen(all, items[n].cluster) <= 1 {
        var longer := before + [items[n]];
        assert Single(items, all) == longer && longer[..|longer| - 1] == before && longer[|longer| - 1] == items[n];
        assert TimesSeen(longer, c) == TimesSeen(before, c) + if items[n].cluster == c then 1 else 0;
      } else {
        assert Single(items, all) == before + [] == before;
      }
    }
  }

  lemma {:induction false} SingleMembers(items: seq<Contribution>, all: seq<Contribution>)
    ensures forall item :: item in Single(items, all) <==> item in items && TimesSeen(all, item.cluster) <= 1
  {
    if items != [] {
      var n := |items| - 1;
      SingleMembers(items[..n], all);
      assert items == items[..n] + [items[n]];
    }
  }

  lemma {:induction false} SeenAtLeastOnce(items: seq<Contribution>, item: Contribution)
    requires item in items
    ensures TimesSeen(items, item.cluster) >= 1
  {
    var n := |items| - 1;
    if items[n] != item {
      assert items == items[..n] + [items[n]];
      SeenAtLeastOnce(items[..n], item);
    }
  }
}
