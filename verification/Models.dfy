/** Whole models: every tensor merged as the outer step merges one weight. */
module Models {
  import opened Wrappers
  import opened OuterStep

  datatype Tensor = Tensor(shape: seq<nat>, values: seq<real>)

  type Weights = map<string, Tensor>

  function Size(shape: seq<nat>): nat {
    if shape == [] then 1 else Size(shape[..|shape| - 1]) * shape[|shape| - 1]
  }

  predicate TensorOk(t: Tensor) {
    |t.values| == Size(t.shape)
  }

  predicate WeightsOk(w: Weights) {
    forall key :: key in w ==> TensorOk(w[key])
  }

  /** Tensors that correspond: the same keys, the same shapes. */
  predicate Corresponds(w: Weights, delta: Weights) {
    w.Keys == delta.Keys && forall key :: key in w ==> delta[key].shape == w[key].shape
  }

  /** The weights and, once there has been a merge, their velocities. */
  datatype Model = Model(weights: Weights, momentum: Option<Weights>)

  predicate ModelOk(m: Model) {
    && WeightsOk(m.weights)
    && (m.momentum.Some? ==> WeightsOk(m.momentum.value) && Corresponds(m.weights, m.momentum.value))
  }

  predicate DeltasOk(m: Model, deltas: seq<Weights>) {
    forall i :: 0 <= i < |deltas| ==> WeightsOk(deltas[i]) && Corresponds(m.weights, deltas[i])
  }

  predicate InModel(m: Model, key: string, j: int) {
    key in m.weights && 0 <= j < |m.weights[key].values|
  }

  lemma SizesAgree(m: Model, deltas: seq<Weights>, key: string)
    requires ModelOk(m) && DeltasOk(m, deltas) && key in m.weights
    ensures forall i :: 0 <= i < |deltas| ==> key in deltas[i] && |deltas[i][key].values| == |m.weights[key].values|
    ensures m.momentum.Some? ==> key in m.momentum.value && |m.momentum.value[key].values| == |m.weights[key].values|
  {
    forall i | 0 <= i < |deltas| ensures key in deltas[i] && |deltas[i][key].values| == |m.weights[key].values| {
      assert TensorOk(deltas[i][key]) && TensorOk(m.weights[key]);
    }
  }

  /** One weight of the model. */
  function CoordinateOf(m: Model, key: string, j: int): Coordinate
    requires ModelOk(m) && InModel(m, key, j)
  {
    SizesAgree(m, [], key);
    Coordinate(m.weights[key].values[j], if m.momentum.None? then None else Some(m.momentum.value[key].values[j]))
  }

  /** What every contribution says of one weight. */
  function Column(m: Model, deltas: seq<Weights>, key: string, j: int): (r: seq<real>)
    requires ModelOk(m) && DeltasOk(m, deltas) && InModel(m, key, j)
    ensures |r| == |deltas|
  {
    SizesAgree(m, deltas, key);
    seq(|deltas|, i requires 0 <= i < |deltas| => deltas[i][key].values[j])
  }

  function MergedAt(m: Model, deltas: seq<Weights>, shares: seq<real>, lr: real, beta: real, key: string, j: int): Coordinate
    requires ModelOk(m) && DeltasOk(m, deltas) && |shares| == |deltas| && InModel(m, key, j)
  {
    FedMom(CoordinateOf(m, key, j), Combined(shares, Column(m, deltas, key, j)), lr, beta)
  }

  /** The model after a merge: the same shapes, and every weight stepped on its own column. */
  ghost predicate IsMerge(m: Model, deltas: seq<Weights>, shares: seq<real>, lr: real, beta: real, m': Model)
    requires ModelOk(m) && DeltasOk(m, deltas) && |shares| == |deltas|
  {
    && ModelOk(m') && m'.momentum.Some? && Corresponds(m.weights, m'.weights)
    && forall key, j :: InModel(m, key, j) ==>
         InModel(m', key, j) && CoordinateOf(m', key, j) == MergedAt(m, deltas, shares, lr, beta, key, j)
  }

  // --- runs of merges ---------------------------------------------------------

  /** One round's survivors: their deltas and their shares. */
  datatype Round = Round(deltas: seq<Weights>, shares: seq<real>)

  ghost predicate IsMergeRun(trace: seq<Model>, rounds: seq<Round>, lr: real, beta: real) {
    && |trace| == |rounds| + 1
    && forall i :: 0 <= i < |rounds| ==>
         && ModelOk(trace[i]) && DeltasOk(trace[i], rounds[i].deltas) && |rounds[i].shares| == |rounds[i].deltas|
         && IsMerge(trace[i], rounds[i].deltas, rounds[i].shares, lr, beta, trace[i + 1])
  }

  lemma {:induction false} ShapesStay(trace: seq<Model>, rounds: seq<Round>, lr: real, beta: real, k: nat, key: string, j: int)
    requires IsMergeRun(trace, rounds, lr, beta) && k < |trace| && ModelOk(trace[0]) && InModel(trace[0], key, j)
    ensures ModelOk(trace[k]) && InModel(trace[k], key, j)
  {
    if k > 0 {
      ShapesStay(trace, rounds, lr, beta, k - 1, key, j);
      assert IsMerge(trace[k - 1], rounds[k - 1].deltas, rounds[k - 1].shares, lr, beta, trace[k - 1 + 1]);
    }
  }

  /** The weighted mean delta of each of the first k rounds, at one weight. */
  ghost function MeanDeltas(trace: seq<Model>, rounds: seq<Round>, lr: real, beta: real, k: nat, key: string, j: int): (r: seq<real>)
    requires IsMergeRun(trace, rounds, lr, beta) && k <= |rounds| && ModelOk(trace[0]) && InModel(trace[0], key, j)
    ensures |r| == k
  {
    if k == 0 then []
    else
      ShapesStay(trace, rounds, lr, beta, k - 1, key, j);
      MeanDeltas(trace, rounds, lr, beta, k - 1, key, j)
      + [Combined(rounds[k - 1].shares, Column(trace[k - 1], rounds[k - 1].deltas, key, j))]
  }

  /** Over any run of merges, with any membership, every weight of the model is where Nesterov SGD on
      the negated mean deltas would have put it. */
  lemma {:induction false} RunIsNesterov(trace: seq<Model>, rounds: seq<Round>, lr: real, beta: real, k: nat, key: string, j: int)
    requires IsMergeRun(trace, rounds, lr, beta) && k <= |rounds| && ModelOk(trace[0]) && InModel(trace[0], key, j)
    requires trace[0].momentum.None?
    ensures InModel(trace[k], key, j)
    ensures trace[k].weights[key].values[j]
            == NesterovRun(Sgd(trace[0].weights[key].values[j], None), Negated(MeanDeltas(trace, rounds, lr, beta, k, key, j)),
                           lr, beta).w
  {
    RunIsFedMom(trace, rounds, lr, beta, k, key, j);
    FedMomIsNesterov(trace[0].weights[key].values[j], MeanDeltas(trace, rounds, lr, beta, k, key, j), lr, beta);
  }

  lemma {:induction false} RunIsFedMom(trace: seq<Model>, rounds: seq<Round>, lr: real, beta: real, k: nat, key: string, j: int)
    requires IsMergeRun(trace, rounds, lr, beta) && k <= |rounds| && ModelOk(trace[0]) && InModel(trace[0], key, j)
    ensures ModelOk(trace[k]) && InModel(trace[k], key, j)
    ensures CoordinateOf(trace[k], key, j)
            == FedMomRun(CoordinateOf(trace[0], key, j), MeanDeltas(trace, rounds, lr, beta, k, key, j), lr, beta)
  {
    if k > 0 {
      RunIsFedMom(trace, rounds, lr, beta, k - 1, key, j);
      var means := MeanDeltas(trace, rounds, lr, beta, k, key, j);
      assert means[..k - 1] == MeanDeltas(trace, rounds, lr, beta, k - 1, key, j);
      assert IsMerge(trace[k - 1], rounds[k - 1].deltas, rounds[k - 1].shares, lr, beta, trace[k - 1 + 1]);
      assert CoordinateOf(trace[k], key, j)
          == MergedAt(trace[k - 1], rounds[k - 1].deltas, rounds[k - 1].shares, lr, beta, key, j);
    }
  }
}
