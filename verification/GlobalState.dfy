/** The central node's durable state: global weights, momentum, round counter and membership. */
module GlobalStates {
  import opened Wrappers
  import opened OuterStep
  import opened Models


  /** One cluster's upload for the current round. */
  datatype Contribution = Contribution(
    cluster: string,
    delta: Weights,
    weight: real,
    tokens: int,
    steps: int,
    baseRound: int)

  /** What is remembered of a cluster across its comings and goings. */
  datatype Member = Member(
    firstSeen: int,
    lastSeen: int,
    roundsContributed: int,
    tokensTotal: int,
    staleRejected: int)

  type Members = map<string, Member>

  datatype MergeError = NoContributions | AllStale | NoWeight | NotInitialised | Mismatch

  // --- membership -------------------------------------------------------------

  function Seen(members: Members, cluster: string, round: int): Member {
    if cluster in members then members[cluster].(lastSeen := round) else Member(round, round, 0, 0, 0)
  }

  predicate Current(item: Contribution, round: int, strict: bool) {
    strict ==> item.baseRound == round
  }

  /** The contributions computed against the current round, in order. */
  function Fresh(items: seq<Contribution>, round: int, strict: bool): seq<Contribution> {
    if items == [] then []
    else
      var n := |items| - 1;
      Fresh(items[..n], round, strict) + if Current(items[n], round, strict) then [items[n]] else []
  }

  /** Each rejected contribution is held against its cluster. */
  function AfterStale(members: Members, items: seq<Contribution>, round: int, strict: bool): Members {
    if items == [] then members
    else
      var n := |items| - 1;
      var before := AfterStale(members, items[..n], round, strict);
      if Current(items[n], round, strict) then before
      else
        var m := Seen(before, items[n].cluster, round);
        before[items[n].cluster := m.(staleRejected := m.staleRejected + 1)]
  }

  function AfterMerge(members: Members, current: seq<Contribution>, round: int): Members {
    if current == [] then members
    else
      var n := |current| - 1;
      var before := AfterMerge(members, current[..n], round);
      var m := Seen(before, current[n].cluster, round);
      before[current[n].cluster := m.(roundsContributed := m.roundsContributed + 1, tokensTotal := m.tokensTotal + current[n].tokens)]
  }

  function TokensOf(items: seq<Contribution>): int {
    if items == [] then 0 else TokensOf(items[..|items| - 1]) + items[|items| - 1].tokens
  }

  function MostSteps(items: seq<Contribution>): int
    requires items != []
  {
    var n := |items| - 1;
    if n == 0 then items[0].steps
    else
      var earlier := MostSteps(items[..n]);
      if items[n].steps > earlier then items[n].steps else earlier
  }

  ghost function AllTokens(members: Members): int {
    if members == map[] then 0
    else var c :| c in members; members[c].tokensTotal + AllTokens(members - {c})
  }

  lemma {:induction false} TokensRemove(members: Members, c: string)
    requires c in members
    ensures AllTokens(members) == members[c].tokensTotal + AllTokens(members - {c})
    decreases |members|
  {
    var d :| d in members && AllTokens(members) == members[d].tokensTotal + AllTokens(members - {d});
    if d != c {
      TokensRemove(members - {d}, c);
      TokensRemove(members - {c}, d);
      assert members - {d} - {c} == members - {c} - {d};
    }
  }

  lemma TokensUpdate(members: Members, c: string, m: Member)
    ensures AllTokens(members[c := m]) == AllTokens(members) - (if c in members then members[c].tokensTotal else 0) + m.tokensTotal
  {
    TokensRemove(members[c := m], c);
    if c in members {
      TokensRemove(members, c);
      assert members[c := m] - {c} == members - {c};
    } else {
      assert members[c := m] - {c} == members;
    }
  }

  /** No merge loses a token: what the clusters are credited with is what the run has seen. */
  lemma {:induction false} MergeCreditsTokens(members: Members, current: seq<Contribution>, round: int)
    ensures AllTokens(AfterMerge(members, current, round)) == AllTokens(members) + TokensOf(current)
  {
    if current != [] {
      var n := |current| - 1;
      MergeCreditsTokens(members, current[..n], round);
      var before := AfterMerge(members, current[..n], round);
      var m := Seen(before, current[n].cluster, round);
      TokensUpdate(before, current[n].cluster, m.(roundsContributed := m.roundsContributed + 1, tokensTotal := m.tokensTotal + current[n].tokens));
    }
  }

  /** A rejected delta costs its cluster nothing but the rejection. */
  lemma {:induction false} StaleCreditsNothing(members: Members, items: seq<Contribution>, round: int, strict: bool)
    ensures AllTokens(AfterStale(members, items, round, strict)) == AllTokens(members)
  {
    if items != [] {
      var n := |items| - 1;
      StaleCreditsNothing(members, items[..n], round, strict);
      var before := AfterStale(members, items[..n], round, strict);
      var m := Seen(before, items[n].cluster, round);
      TokensUpdate(before, items[n].cluster, m.(staleRejected := m.staleRejected + 1));
    }
  }

  /** What is merged is what was uploaded for this round, or everything where the round is not checked. */
  lemma {:induction false} FreshIsCurrent(items: seq<Contribution>, round: int, strict: bool)
    ensures forall item :: item in Fresh(items, round, strict) <==> item in items && (!strict || item.baseRound == round)
  {
    if items != [] {
      var n := |items| - 1;
      FreshIsCurrent(items[..n], round, strict);
      assert items == items[..n] + [items[n]];
    }
  }

  // --- shares -----------------------------------------------------------------

  function WeightsOf(items: seq<Contribution>): (r: seq<real>)
    ensures |r| == |items|
  {
    seq(|items|, i requires 0 <= i < |items| => items[i].weight)
  }

  function DeltasOf(items: seq<Contribution>): (r: seq<Weights>)
    ensures |r| == |items|
  {
    seq(|items|, i requires 0 <= i < |items| => items[i].delta)
  }

  function Normalise(weights: seq<real>): (r: seq<real>)
    requires Total(weights) != 0.0
    ensures |r| == |weights|
  {
    seq(|weights|, i requires 0 <= i < |weights| => weights[i] / Total(weights))
  }

  /** Shares add up to one, whatever the weights added up to. */
  lemma SharesAddUp(weights: seq<real>)
    requires Total(weights) != 0.0
    ensures Total(Normalise(weights)) == 1.0
  {
    var total := Total(weights);
    assert Normalise(weights) == Times(1.0 / total, weights) by {
      forall i | 0 <= i < |weights| ensures weights[i] / total == Product(1.0 / total, weights[i]) {
        Quotient(weights[i], total);
      }
    }
    TotalTimes(1.0 / total, weights);
    Quotient(total, total);
  }

  lemma Quotient(a: real, b: real)
    requires b != 0.0
    ensures a / b == Product(1.0 / b, a) && b / b == 1.0
  {
    var q := a / b;
    assert q * b == a;
    assert ((1.0 / b) * a) * b == a;
    assert (q - (1.0 / b) * a) * b == 0.0;
  }

  // --- the outcome of a merge -------------------------------------------------

  /** Why a merge is refused, if it is. */
  ghost function Refusal(m: Model, items: seq<Contribution>, round: int, strict: bool): Option<MergeError> {
    var current := Fresh(items, round, strict);
    if items == [] then Some(NoContributions)
    else if current == [] then Some(AllStale)
    else if Total(WeightsOf(current)) <= 0.0 then Some(NoWeight)
    else if m.weights == map[] then Some(NotInitialised)
    else if exists i :: 0 <= i < |current| && !Corresponds(m.weights, current[i].delta) then Some(Mismatch)
    else None
  }

  // --- one tensor at a time ---------------------------------------------------

  /** What the deltas say of one weight of one tensor. */
  function ColumnOf(deltas: seq<Tensor>, j: int): (r: seq<real>)
    requires forall i :: 0 <= i < |deltas| ==> 0 <= j < |deltas[i].values|
    ensures |r| == |deltas|
  {
    seq(|deltas|, i requires 0 <= i < |deltas| => deltas[i].values[j])
  }

  function PreviousAt(previous: Option<Tensor>, j: int): Option<real>
    requires previous.Some? ==> 0 <= j < |previous.value.values|
  {
    if previous.None? then None else Some(previous.value.values[j])
  }

  predicate SameSize(w: Tensor, previous: Option<Tensor>, deltas: seq<Tensor>) {
    && (previous.Some? ==> |previous.value.values| == |w.values|)
    && forall i :: 0 <= i < |deltas| ==> |deltas[i].values| == |w.values|
  }

  /** Every weight of the tensor stepped on its own column. */
  ghost predicate IsStep(w: Tensor, previous: Option<Tensor>, shares: seq<real>, deltas: seq<Tensor>, lr: real, beta: real,
                         wNext: seq<real>, vNext: seq<real>)
    requires SameSize(w, previous, deltas) && |shares| == |deltas|
  {
    && |wNext| == |vNext| == |w.values|
    && forall j :: 0 <= j < |w.values| ==>
         Coordinate(wNext[j], Some(vNext[j]))
         == FedMom(Coordinate(w.values[j], PreviousAt(previous, j)), Combined(shares, ColumnOf(deltas, j)), lr, beta)
  }

  /** accumulator += share * delta, in place */
  method AddScaled(accumulator: array<real>, delta: seq<real>, share: real)
    requires accumulator.Length == |delta|
    modifies accumulator
    ensures forall j :: 0 <= j < |delta| ==> accumulator[j] == old(accumulator[j]) + Product(share, delta[j])
  {
    var j := 0;
    while j < accumulator.Length
      invariant 0 <= j <= accumulator.Length
      invariant forall k :: 0 <= k < j ==> accumulator[k] == old(accumulator[k]) + Product(share, delta[k])
      invariant forall k :: j <= k < |delta| ==> accumulator[k] == old(accumulator[k])
    {
      accumulator[j] := accumulator[j] + Product(share, delta[j]);
      j := j + 1;
    }
  }

  /** The weighted sum of the deltas, one delta at a time. */
  method Accumulate(n: nat, shares: seq<real>, deltas: seq<Tensor>) returns (accumulator: array<real>)
    requires |shares| == |deltas| && forall i :: 0 <= i < |deltas| ==> |deltas[i].values| == n
    ensures accumulator.Length == n && fresh(accumulator)
    ensures forall j :: 0 <= j < n ==> accumulator[j] == Combined(shares, ColumnOf(deltas, j))
  {
    accumulator := new real[n](_ => 0.0);
    var i := 0;
    while i < |deltas|
      invariant 0 <= i <= |deltas|
      invariant forall j :: 0 <= j < n ==> accumulator[j] == Combined(shares[..i], ColumnOf(deltas[..i], j))
    {
      AddScaled(accumulator, deltas[i].values, shares[i]);
      forall j | 0 <= j < n
        ensures Combined(shares[..i + 1], ColumnOf(deltas[..i + 1], j))
             == Combined(shares[..i], ColumnOf(deltas[..i], j)) + Product(shares[i], deltas[i].values[j])
      {
        NextTerm(shares, deltas, i, j);
      }
      i := i + 1;
    }
    assert shares[..i] == shares && deltas[..i] == deltas;
  }

  lemma NextTerm(shares: seq<real>, deltas: seq<Tensor>, i: nat, j: nat)
    requires |shares| == |deltas| && i < |deltas| && forall k :: 0 <= k < |deltas| ==> j < |deltas[k].values|
    ensures Combined(shares[..i + 1], ColumnOf(deltas[..i + 1], j))
         == Combined(shares[..i], ColumnOf(deltas[..i], j)) + Product(shares[i], deltas[i].values[j])
  {
    assert shares[..i + 1][..i] == shares[..i];
    assert ColumnOf(deltas[..i + 1], j)[..i] == ColumnOf(deltas[..i], j);
  }

  /** FedMom on one tensor, in two buffers. */
  method MergeTensor(w: Tensor, previous: Option<Tensor>, shares: seq<real>, deltas: seq<Tensor>, lr: real, beta: real)
    returns (wNext: seq<real>, vNext: seq<real>)
    requires SameSize(w, previous, deltas) && |shares| == |deltas|
    ensures IsStep(w, previous, shares, deltas, lr, beta, wNext, vNext)
  {
    hide Combined;
    var n := |w.values|;
    var v := Accumulate(n, shares, deltas);
    ghost var sums := v[..];
    var j := 0;
    while j < n
      invariant 0 <= j <= n && |sums| == n
      invariant forall k :: 0 <= k < j ==> v[k] == NextVelocity(w.values[k], sums[k], lr)
      invariant forall k :: j <= k < n ==> v[k] == sums[k]
    {
      v[j] := v[j] * lr + w.values[j];
      j := j + 1;
    }
    vNext := v[..];
    if beta == 0.0 {
      wNext := vNext;
      return;
    }
    var u := new real[n](k requires 0 <= k < n => if previous.Some? then previous.value.values[k] else w.values[k]);
    ghost var vPrev := u[..];
    j := 0;
    while j < n
      invariant 0 <= j <= n && |vPrev| == n
      invariant forall k :: 0 <= k < j ==> u[k] == NextWeight(vNext[k], vPrev[k], beta)
      invariant forall k :: j <= k < n ==> u[k] == vPrev[k]
    {
      u[j] := u[j] * -beta + (1.0 + beta) * vNext[j];
      j := j + 1;
    }
    wNext := u[..];
  }

  /** Tensors stepped one by one make a model merged. */
  lemma StepsMakeMerge(m: Model, deltas: seq<Weights>, shares: seq<real>, lr: real, beta: real, m': Model)
    requires ModelOk(m) && DeltasOk(m, deltas) && |shares| == |deltas|
    requires m'.momentum.Some? && m'.weights.Keys == m.weights.Keys == m'.momentum.value.Keys
    requires forall key :: key in m.weights ==> SteppedKey(m, deltas, shares, lr, beta, m', key)
    ensures IsMerge(m, deltas, shares, lr, beta, m')
  {
    forall key | key in m.weights
      ensures TensorOk(m'.weights[key]) && TensorOk(m'.momentum.value[key])
      ensures m'.weights[key].shape == m.weights[key].shape == m'.momentum.value[key].shape
    {
      assert SteppedKey(m, deltas, shares, lr, beta, m', key);
      SizesAgree(m, deltas, key);
      assert TensorOk(m.weights[key]);
    }
    forall key, j | InModel(m, key, j)
      ensures InModel(m', key, j) && CoordinateOf(m', key, j) == MergedAt(m, deltas, shares, lr, beta, key, j)
    {
      assert SteppedKey(m, deltas, shares, lr, beta, m', key);
      SizesAgree(m, deltas, key);
      assert ColumnOf(TensorsAt(deltas, key), j) == Column(m, deltas, key, j);
    }
  }

  function TensorsAt(deltas: seq<Weights>, key: string): (r: seq<Tensor>)
    requires forall i :: 0 <= i < |deltas| ==> key in deltas[i]
    ensures |r| == |deltas|
  {
    seq(|deltas|, i requires 0 <= i < |deltas| => deltas[i][key])
  }

  function PreviousOf(m: Model, key: string): Option<Tensor>
    requires m.momentum.Some? ==> key in m.momentum.value
  {
    if m.momentum.None? then None else Some(m.momentum.value[key])
  }

  ghost predicate SteppedKey(m: Model, deltas: seq<Weights>, shares: seq<real>, lr: real, beta: real, m': Model, key: string)
    requires ModelOk(m) && DeltasOk(m, deltas) && |shares| == |deltas| && key in m.weights
  {
    SizesAgree(m, deltas, key);
    && m'.momentum.Some? && key in m'.weights && key in m'.momentum.value
    && m'.weights[key].shape == m.weights[key].shape == m'.momentum.value[key].shape
    && IsStep(m.weights[key], PreviousOf(m, key), shares, TensorsAt(deltas, key), lr, beta,
              m'.weights[key].values, m'.momentum.value[key].values)
  }

  lemma MergeKeepsKeys(m: Model, deltas: seq<Weights>, shares: seq<real>, lr: real, beta: real, m': Model)
    requires ModelOk(m) && DeltasOk(m, deltas) && |shares| == |deltas| && IsMerge(m, deltas, shares, lr, beta, m')
    ensures ModelOk(m') && m'.weights.Keys == m.weights.Keys
  {
  }

  lemma FreshDeltas(m: Model, items: seq<Contribution>, round: int, strict: bool)
    requires forall i :: 0 <= i < |items| ==> WeightsOk(items[i].delta)
    requires forall i :: 0 <= i < |Fresh(items, round, strict)| ==> Corresponds(m.weights, Fresh(items, round, strict)[i].delta)
    ensures DeltasOk(m, DeltasOf(Fresh(items, round, strict)))
  {
    FreshIsCurrent(items, round, strict);
    hide Fresh, Corresponds, WeightsOk;
    var current := Fresh(items, round, strict);
    forall i | 0 <= i < |current| ensures WeightsOk(current[i].delta) {
      assert current[i] in items;
    }
  }

  /** At beta = 0 the step does not look at the momentum. */
  lemma WithoutMomentum(w: Tensor, previous: Option<Tensor>, shares: seq<real>, deltas: seq<Tensor>, lr: real, beta: real,
                        wNext: seq<real>, vNext: seq<real>)
    requires SameSize(w, previous, deltas) && |shares| == |deltas|
    requires IsStep(w, if beta != 0.0 then previous else None, shares, deltas, lr, beta, wNext, vNext)
    ensures IsStep(w, previous, shares, deltas, lr, beta, wNext, vNext)
  {
    hide Combined, NextVelocity, NextWeight;
  }

  class GlobalState {
    var keys: seq<string>
    var weights: Weights
    var momentum: Option<Weights>
    var round: int
    var globalStep: int
    var totalTokens: int
    var clusters: Members

    function ModelOf(): Model
      reads this
    {
      Model(weights, momentum)
    }

    ghost predicate Valid()
      reads this
    {
      && ModelOk(ModelOf())
      && (forall key :: key in keys <==> key in weights)
      && (forall i, j :: 0 <= i < j < |keys| ==> keys[i] != keys[j])
      && totalTokens == AllTokens(clusters)
    }

    constructor ()
      ensures Valid() && weights == map[] && momentum == None && round == 0 && clusters == map[]
    {
      keys, weights, momentum := [], map[], None;
      round, globalStep, totalTokens, clusters := 0, 0, 0, map[];
    }

    /** Adopt the first arriving cluster's model. */
    method Initialise(names: seq<string>, source: Weights)
      requires Valid() && WeightsOk(source)
      requires forall key :: key in names <==> key in source
      requires forall i, j :: 0 <= i < j < |names| ==> names[i] != names[j]
      modifies this
      ensures Valid() && weights == source && momentum == None && round == 0 && keys == names
      ensures clusters == old(clusters) && totalTokens == old(totalTokens) && globalStep == old(globalStep)
    {
      var out := map[];
      var k := 0;
      while k < |names|
        invariant 0 <= k <= |names| && Valid()
        invariant out == map key | key in names[..k] :: source[key]
      {
        assert names[k] in source;
        out := out[names[k] := source[names[k]]];
        k := k + 1;
      }
      assert names[..k] == names && out == source;
      weights, keys, momentum, round := out, names, None, 0;
    }

    method NoteSeen(cluster: string) returns (m: Member)
      modifies this`clusters
      ensures m == Seen(old(clusters), cluster, round) && clusters == old(clusters)[cluster := m]
    {
      if cluster in clusters {
        m := clusters[cluster];
      } else {
        m := Member(round, round, 0, 0, 0);
      }
      m := m.(lastSeen := round);
      clusters := clusters[cluster := m];
    }

    method NoteStale(cluster: string)
      modifies this`clusters
      ensures var m := Seen(old(clusters), cluster, round);
              clusters == old(clusters)[cluster := m.(staleRejected := m.staleRejected + 1)]
    {
      var m := NoteSeen(cluster);
      clusters := clusters[cluster := m.(staleRejected := m.staleRejected + 1)];
    }

    /** Set aside what was computed against another round. */
    method Filter(items: seq<Contribution>, strict: bool) returns (current: seq<Contribution>)
      modifies this`clusters
      ensures current == Fresh(items, round, strict)
      ensures clusters == AfterStale(old(clusters), items, round, strict)
    {
      current := [];
      var i := 0;
      while i < |items|
        invariant 0 <= i <= |items| && current == Fresh(items[..i], round, strict)
        invariant clusters == AfterStale(old(clusters), items[..i], round, strict)
      {
        assert items[..i + 1][..i] == items[..i];
        if strict && items[i].baseRound != round {
          NoteStale(items[i].cluster);
        } else {
          current := current + [items[i]];
        }
        i := i + 1;
      }
      assert items[..i] == items;
    }

    method Credit(current: seq<Contribution>)
      modifies this`clusters, this`totalTokens
      ensures clusters == AfterMerge(old(clusters), current, round)
      ensures totalTokens == old(totalTokens) + TokensOf(current)
    {
      var i := 0;
      while i < |current|
        invariant 0 <= i <= |current|
        invariant clusters == AfterMerge(old(clusters), current[..i], round)
        invariant totalTokens == old(totalTokens) + TokensOf(current[..i])
      {
        assert current[..i + 1][..i] == current[..i];
        var m := NoteSeen(current[i].cluster);
        clusters := clusters[current[i].cluster := m.(roundsContributed := m.roundsContributed + 1,
                                                    tokensTotal := m.tokensTotal + current[i].tokens)];
        totalTokens := totalTokens + current[i].tokens;
        i := i + 1;
      }
      assert current[..i] == current;
    }

    /** Every tensor of the model, streamed through the merge. */
    method Stream(deltas: seq<Weights>, shares: seq<real>, lr: real, beta: real) returns (merged: Model)
      requires Valid() && DeltasOk(ModelOf(), deltas) && |shares| == |deltas|
      ensures IsMerge(ModelOf(), deltas, shares, lr, beta, merged)
    {
      hide IsStep;
      var m := ModelOf();
      var outGlobal: Weights, outMomentum: Weights := map[], map[];
      var k := 0;
      while k < |keys|
        invariant 0 <= k <= |keys|
        invariant forall key :: key in outGlobal <==> key in keys[..k]
        invariant forall key :: key in outMomentum <==> key in keys[..k]
        invariant forall key :: key in keys[..k] ==>
          SteppedKey(m, deltas, shares, lr, beta, Model(outGlobal, Some(outMomentum)), key)
      {
        var key := keys[k];
        assert key in m.weights;
        SizesAgree(m, deltas, key);
        // momentum left by an earlier setting is not read at beta = 0
        var previous := if beta != 0.0 then PreviousOf(m, key) else None;
        var wNext, vNext := MergeTensor(m.weights[key], previous, shares, TensorsAt(deltas, key), lr, beta);
        WithoutMomentum(m.weights[key], PreviousOf(m, key), shares, TensorsAt(deltas, key), lr, beta, wNext, vNext);
        outGlobal := outGlobal[key := Tensor(m.weights[key].shape, wNext)];
        outMomentum := outMomentum[key := Tensor(m.weights[key].shape, vNext)];
        k := k + 1;
      }
      assert keys[..k] == keys;
      merged := Model(outGlobal, Some(outMomentum));
      StepsMakeMerge(m, deltas, shares, lr, beta, merged);
    }

    /** Apply FedMom to the contributions of the current round; returns the new round. A refused
        merge changes nothing but the record of the stale ones. */
    method Merge(items: seq<Contribution>, lr: real, beta: real, strict: bool) returns (r: Result<int, MergeError>)
      requires Valid() && forall i :: 0 <= i < |items| ==> WeightsOk(items[i].delta)
      modifies this
      ensures Valid()
      ensures match Refusal(old(ModelOf()), items, old(round), strict)
        case Some(e) =>
          && r == Err(e) && ModelOf() == old(ModelOf()) && keys == old(keys) && round == old(round)
          && globalStep == old(globalStep) && totalTokens == old(totalTokens)
          && clusters == AfterStale(old(clusters), items, old(round), strict)
        case None =>
          var current := Fresh(items, old(round), strict);
          && r == Ok(round) && round == old(round) + 1 && keys == old(keys)
          && DeltasOk(old(ModelOf()), DeltasOf(current))
          && IsMerge(old(ModelOf()), DeltasOf(current), Normalise(WeightsOf(current)), lr, beta, ModelOf())
          && clusters == AfterMerge(AfterStale(old(clusters), items, old(round), strict), current, old(round))
          && totalTokens == old(totalTokens) + TokensOf(current)
          && globalStep == old(globalStep) + (if MostSteps(current) > 0 then MostSteps(current) else 0)
    {
      hide IsMerge, AllTokens, ModelOk, Current, Fresh, AfterMerge, TokensOf, MostSteps, Corresponds, Normalise,
           WeightsOf, DeltasOf, Total, WeightsOk;
      if items == [] {
        return Err(NoContributions);
      }
      StaleCreditsNothing(clusters, items, round, strict);
      var current := Filter(items, strict);
      if current == [] {
        return Err(AllStale);
      }
      var total := Total(WeightsOf(current));
      if total <= 0.0 {
        return Err(NoWeight);
      }
      if keys == [] {
        assert weights == map[];
        return Err(NotInitialised);
      }
      assert weights != map[] by { assert keys[0] in keys; }
      var matching := CheckShapes(current);
      if !matching {
        return Err(Mismatch);
      }
      FreshDeltas(ModelOf(), items, round, strict);
      MergeCurrent(current, lr, beta);
      return Ok(round);
    }

    method MergeCurrent(current: seq<Contribution>, lr: real, beta: real)
      requires Valid() && current != [] && Total(WeightsOf(current)) > 0.0 && DeltasOk(ModelOf(), DeltasOf(current))
      modifies this
      ensures Valid() && keys == old(keys) && round == old(round) + 1
      ensures IsMerge(old(ModelOf()), DeltasOf(current), Normalise(WeightsOf(current)), lr, beta, ModelOf())
      ensures clusters == AfterMerge(old(clusters), current, old(round))
      ensures totalTokens == old(totalTokens) + TokensOf(current)
      ensures globalStep == old(globalStep) + (if MostSteps(current) > 0 then MostSteps(current) else 0)
    {
      hide IsMerge, AllTokens, ModelOk, Fresh, AfterMerge, TokensOf, MostSteps, Normalise, WeightsOf, DeltasOf, Total, DeltasOk;
      var shares := Normalise(WeightsOf(current));
      var merged := Stream(DeltasOf(current), shares, lr, beta);
      MergeKeepsKeys(ModelOf(), DeltasOf(current), shares, lr, beta, merged);
      weights, momentum := merged.weights, merged.momentum;
      MergeCreditsTokens(clusters, current, round);
      Credit(current);
      var stepIncrement := MostSteps(current);
      if stepIncrement > 0 {
        globalStep := globalStep + stepIncrement;
      }
      round := round + 1;
    }

    /** Refuse to average tensors that do not correspond. */
    method CheckShapes(current: seq<Contribution>) returns (matching: bool)
      ensures matching <==> forall i :: 0 <= i < |current| ==> Corresponds(weights, current[i].delta)
    {
      var i := 0;
      while i < |current|
        invariant 0 <= i <= |current| && forall k :: 0 <= k < i ==> Corresponds(weights, current[k].delta)
      {
        var delta := current[i].delta;
        if weights.Keys != delta.Keys || exists key :: key in weights && delta[key].shape != weights[key].shape {
          return false;
        }
        i := i + 1;
      }
      return true;
    }
  }
}
