/** Whose weights an inline merge uses, said weight by weight, and at which rate. */
module Survivors {
  import opened Wrappers
  import opened OuterStep
  import opened GlobalStates
  import opened Strategy

  // --- the largest weight -----------------------------------------------------------

  lemma {:induction false} LargestOfLayer(layer: seq<real>)
    ensures LargestIn(layer) >= 0.0 && forall j :: 0 <= j < |layer| ==> Abs(layer[j]) <= LargestIn(layer)
    ensures LargestIn(layer) > 0.0 ==> exists j :: 0 <= j < |layer| && Abs(layer[j]) == LargestIn(layer)
  {
    if layer != [] {
      var n := |layer| - 1;
      LargestOfLayer(layer[..n]);
      forall j | 0 <= j < |layer| ensures Abs(layer[j]) <= LargestIn(layer) {
        if j < n {
          assert layer[..n][j] == layer[j];
        }
      }
      if LargestIn(layer) > 0.0 {
        if LargestIn(layer) == Abs(layer[n]) {
        } else {
          var j :| 0 <= j < n && Abs(layer[..n][j]) == LargestIn(layer[..n]);
          assert Abs(layer[j]) == LargestIn(layer);
        }
      }
    }
  }

  /** No weight is larger in size, and if any is not zero the largest size is that of some weight. */
  lemma {:induction false} LargestExactly(layers: Layers)
    ensures Largest(layers) >= 0.0 && forall l, j :: InLayers(layers, l, j) ==> Abs(layers[l][j]) <= Largest(layers)
    ensures Largest(layers) > 0.0 ==> exists l, j :: InLayers(layers, l, j) && Abs(layers[l][j]) == Largest(layers)
  {
    hide LargestIn;
    if layers != [] {
      var n := |layers| - 1;
      LargestExactly(layers[..n]);
      LargestOfLayer(layers[n]);
      forall l, j | InLayers(layers, l, j) ensures Abs(layers[l][j]) <= Largest(layers) {
        if l < n {
          assert InLayers(layers[..n], l, j);
        }
      }
      if Largest(layers) > 0.0 {
        if Largest(layers) == LargestIn(layers[n]) {
          var j :| 0 <= j < |layers[n]| && Abs(layers[n][j]) == LargestIn(layers[n]);
          assert InLayers(layers, n, j);
        } else {
          var l, j :| InLayers(layers[..n], l, j) && Abs(layers[..n][l][j]) == Largest(layers[..n]);
          assert InLayers(layers, l, j) && Abs(layers[l][j]) == Largest(layers);
        }
      }
    }
  }

  // --- who survives -----------------------------------------------------------------

  /** Some weight of the incumbent is within a factor of a thousand of x, or beyond it. */
  ghost predicate Reachable(incumbent: Layers, x: real) {
    exists l, j :: InLayers(incumbent, l, j) && Abs(x) <= 1000.0 * Abs(incumbent[l][j])
  }

  /** A cluster's weights are used exactly when it reports examples, all its weights are finite, and each is
      at most a thousand times some weight of the model it started from, if that has any but zeros. */
  lemma UsableExactly(r: FitResult, incumbent: Option<Layers>)
    ensures Usable(r, incumbent) <==>
      && r.examples > 0 && r.finite
      && (incumbent.Some? ==>
            || (forall l, j :: InLayers(incumbent.value, l, j) ==> incumbent.value[l][j] == 0.0)
            || (forall l, j :: InLayers(r.layers, l, j) ==> Reachable(incumbent.value, r.layers[l][j])))
  {
    if incumbent.Some? {
      LargestExactly(incumbent.value);
      LargestExactly(r.layers);
      AllZero(incumbent.value);
      if Largest(incumbent.value) > 0.0 {
        WithinReach(r.layers, incumbent.value);
      }
    }
    hide Largest, Reachable;
  }

  lemma AllZero(layers: Layers)
    ensures Largest(layers) == 0.0 <==> forall l, j :: InLayers(layers, l, j) ==> layers[l][j] == 0.0
  {
    LargestExactly(layers);
    hide Largest;
  }

  lemma WithinReach(layers: Layers, incumbent: Layers)
    requires Largest(incumbent) > 0.0
    ensures Largest(layers) <= Largest(incumbent) * MAX_WEIGHT_GROWTH <==>
            forall l, j :: InLayers(layers, l, j) ==> Reachable(incumbent, layers[l][j])
  {
    LargestExactly(layers);
    LargestExactly(incumbent);
    hide Largest;
    var p, q :| InLayers(incumbent, p, q) && Abs(incumbent[p][q]) == Largest(incumbent);
    forall l, j | InLayers(layers, l, j)
      ensures Reachable(incumbent, layers[l][j]) <==> Abs(layers[l][j]) <= 1000.0 * Largest(incumbent)
    {
    }
    hide Reachable;
  }

  /** The survivors are those at `picks`, in their order: every usable result and no other. */
  lemma {:induction false} SurvivorsInOrder(results: seq<FitResult>, incumbent: Option<Layers>) returns (picks: seq<nat>)
    ensures |picks| == |Kept(results, incumbent)|
    ensures forall i :: 0 <= i < |picks| ==> picks[i] < |results| && Kept(results, incumbent)[i] == results[picks[i]]
    ensures forall i, j :: 0 <= i < j < |picks| ==> picks[i] < picks[j]
    ensures forall k: nat :: k < |results| ==> (k in picks <==> Usable(results[k], incumbent))
  {
    hide Usable;
    picks := [];
    if results != [] {
      var n: nat := |results| - 1;
      picks := SurvivorsInOrder(results[..n], incumbent);
      if Usable(results[n], incumbent) {
        picks := picks + [n];
      }
      forall k: nat | k < |results| ensures k in picks <==> Usable(results[k], incumbent) {
        if k < n {
          assert results[..n][k] == results[k];
        }
      }
    }
  }

  /** Fewer survive than reported examples exactly when someone who did is not usable. */
  lemma {:induction false} SomeoneDropped(results: seq<FitResult>, incumbent: Option<Layers>)
    ensures |Kept(results, incumbent)| <= Reporting(results)
    ensures |Kept(results, incumbent)| < Reporting(results) <==>
            exists i :: 0 <= i < |results| && results[i].examples > 0 && !Usable(results[i], incumbent)
  {
    hide Usable;
    if results != [] {
      var n := |results| - 1;
      SomeoneDropped(results[..n], incumbent);
      UsableReports(results[n], incumbent);
      if i :| 0 <= i < |results| && results[i].examples > 0 && !Usable(results[i], incumbent) {
        assert i < n ==> results[..n][i] == results[i];
      }
    }
  }

  /** The global step moves on by what the furthest of the survivors did. */
  lemma {:induction false} FurthestSurvivor(kept: seq<FitResult>)
    requires kept != []
    ensures forall i :: 0 <= i < |kept| ==> kept[i].steps <= MostStepsOf(kept)
    ensures exists i :: 0 <= i < |kept| && kept[i].steps == MostStepsOf(kept)
  {
    var n := |kept| - 1;
    if n == 0 {
      assert kept[0].steps == MostStepsOf(kept);
    } else {
      FurthestSurvivor(kept[..n]);
      var i :| 0 <= i < n && kept[..n][i].steps == MostStepsOf(kept[..n]);
      assert kept[i].steps == MostStepsOf(kept[..n]);
      forall k | 0 <= k < |kept| ensures kept[k].steps <= MostStepsOf(kept) {
        if k < n {
          assert kept[..n][k] == kept[k];
        }
      }
    }
  }

  // --- at which rate ----------------------------------------------------------------

  /** However many survive, the inline path leaves what the streamed path would have left at the configured
      rate, or at rate 1 for a single survivor that is to be taken whole. */
  lemma SurvivorsAgree(agg: InlineAggregator, w: Layers, v: Option<Layers>, kept: seq<FitResult>, w': Layers, v': Layers,
                       l: int, j: int)
    requires (v.Some? ==> SameSizes(w, v.value)) && AllSized(kept, w) && Total(ExampleWeights(kept)) != 0.0
    requires InLayers(w, l, j) && IsInlineMerge(w, v, kept, 1.0, agg.Eta(kept), agg.momentum, w', v')
    ensures Coordinate(w'[l][j], Some(v'[l][j])) ==
            FedMom(CoordinateIn(w, v, l, j),
                   Combined(Normalise(ExampleWeights(kept)), Minus(ColumnIn(kept, l, j), w[l][j])),
                   if |kept| == 1 && agg.soloFullStep then 1.0 else agg.learningRate, agg.momentum)
  {
    InlineAgrees(w, v, kept, agg.Eta(kept), agg.momentum, w', v', l, j);
  }

  /** A first merge with a single survivor moves past that survivor's model by the momentum: the velocities
      are its weights, but the model is adopted as it is only where nothing changed or without momentum. */
  lemma SoloIsAdoptedExactly(agg: InlineAggregator, w: Layers, r: FitResult, w': Layers, v': Layers, l: int, j: int)
    requires SameSizes(w, r.layers) && agg.soloFullStep && InLayers(w, l, j) && Total(ExampleWeights([r])) != 0.0
    requires IsInlineMerge(w, None, [r], 1.0, agg.Eta([r]), agg.momentum, w', v')
    ensures v'[l][j] == r.layers[l][j] && w'[l][j] == r.layers[l][j] + agg.momentum * (r.layers[l][j] - w[l][j])
    ensures w'[l][j] == r.layers[l][j] <==> agg.momentum == 0.0 || r.layers[l][j] == w[l][j]
  {
    SoloAverage(r, l, j);
    TimesOne(r.layers[l][j]);
    hide Product, AverageAt, Total, ExampleWeights;
    assert Coordinate(w'[l][j], Some(v'[l][j]))
        == InlineStep(CoordinateIn(w, None, l, j), Product(1.0, AverageAt([r], l, j)), 1.0, agg.momentum);
    ZeroProduct(agg.momentum, r.layers[l][j] - w[l][j]);
  }

  lemma ZeroProduct(x: real, y: real)
    ensures x * y == 0.0 <==> x == 0.0 || y == 0.0
  {
  }

  lemma SoloAverage(r: FitResult, l: int, j: int)
    requires InLayers(r.layers, l, j) && Total(ExampleWeights([r])) != 0.0
    ensures AverageAt([r], l, j) == r.layers[l][j]
  {
    var weights, column := ExampleWeights([r]), ColumnIn([r], l, j);
    var shares := Normalise(weights);
    SharesAddUp(weights);
    WholeShare(shares);
    TimesOne(column[0]);
    OneTerm(shares, column);
  }

  lemma WholeShare(shares: seq<real>)
    requires |shares| == 1 && Total(shares) == 1.0
    ensures shares[0] == 1.0
  {
    assert shares[..0] == [];
  }

  lemma OneTerm(shares: seq<real>, column: seq<real>)
    requires |shares| == 1 == |column|
    ensures Combined(shares, column) == Product(shares[0], column[0])
  {
    assert shares[..0] == [] && column[..0] == [];
  }
}
