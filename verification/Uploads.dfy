/** Which uploads a merge takes, which it sets aside and why it may refuse, and what the clusters are
    credited with, counted over the uploads themselves. */
module Uploads {
  import opened Wrappers
  import opened OuterStep
  import opened Models
  import opened GlobalStates

  // --- what is taken ----------------------------------------------------------------

  /** The uploads taken are those at `picks`, in their order: all that were made against this round, or all
      there are where the round is not checked. */
  lemma {:induction false} TakenInOrder(items: seq<Contribution>, round: int, strict: bool) returns (picks: seq<nat>)
    ensures |picks| == |Fresh(items, round, strict)|
    ensures forall i :: 0 <= i < |picks| ==> picks[i] < |items| && Fresh(items, round, strict)[i] == items[picks[i]]
    ensures forall i, j :: 0 <= i < j < |picks| ==> picks[i] < picks[j]
    ensures forall k: nat :: k < |items| ==> (k in picks <==> !strict || items[k].baseRound == round)
  {
    picks := [];
    if items != [] {
      var n: nat := |items| - 1;
      picks := TakenInOrder(items[..n], round, strict);
      var before := picks;
      if !strict || items[n].baseRound == round {
        picks := picks + [n];
      }
      forall k: nat | k < |items| ensures k in picks <==> !strict || items[k].baseRound == round {
        if k < n {
          assert items[..n][k] == items[k];
        }
      }
    }
  }

  /** No upload is taken twice, or taken once where it was made twice. */
  lemma {:induction false} TakenAsOften(items: seq<Contribution>, round: int, strict: bool, item: Contribution)
    ensures multiset(Fresh(items, round, strict))[item]
            == if !strict || item.baseRound == round then multiset(items)[item] else 0
  {
    if items != [] {
      var n := |items| - 1;
      TakenAsOften(items[..n], round, strict, item);
      assert items == items[..n] + [items[n]];
    }
  }

  // --- why a merge is refused -------------------------------------------------------

  /** The weights of the uploads for this round, added up. */
  function WeightHeard(items: seq<Contribution>, round: int, strict: bool): real {
    if items == [] then 0.0
    else
      var last := items[|items| - 1];
      WeightHeard(items[..|items| - 1], round, strict) + if strict && last.baseRound != round then 0.0 else last.weight
  }

  lemma {:induction false} WeightIsTotal(items: seq<Contribution>, round: int, strict: bool)
    ensures Total(WeightsOf(Fresh(items, round, strict))) == WeightHeard(items, round, strict)
  {
    if items != [] {
      var n := |items| - 1;
      WeightIsTotal(items[..n], round, strict);
      var before, after := Fresh(items[..n], round, strict), Fresh(items, round, strict);
      if after != before {
        assert WeightsOf(after)[..|before|] == WeightsOf(before);
      }
    }
  }

  ghost predicate SomeUnlike(m: Model, items: seq<Contribution>, round: int, strict: bool) {
    exists k :: 0 <= k < |items| && (!strict || items[k].baseRound == round) && !Corresponds(m.weights, items[k].delta)
  }

  /** Refused for want of uploads, then because every one of them was made against another round, then for
      weights that add up to nothing, then for want of a model, then for a delta of another shape; the stale
      ones count for none of these. */
  lemma RefusedExactly(m: Model, items: seq<Contribution>, round: int, strict: bool)
    ensures var r := Refusal(m, items, round, strict);
            var stale := items != [] && strict && forall k :: 0 <= k < |items| ==> items[k].baseRound != round;
            var weight := WeightHeard(items, round, strict);
            && (r == Some(NoContributions) <==> items == [])
            && (r == Some(AllStale) <==> stale)
            && (r == Some(NoWeight) <==> items != [] && !stale && weight <= 0.0)
            && (r == Some(NotInitialised) <==> items != [] && !stale && weight > 0.0 && m.weights == map[])
            && (r == Some(Mismatch) <==>
                  items != [] && !stale && weight > 0.0 && m.weights != map[] && SomeUnlike(m, items, round, strict))
  {
    WeightIsTotal(items, round, strict);
    FreshIsCurrent(items, round, strict);
    NoneTaken(items, round, strict);
    UnlikeTaken(m, items, round, strict, Fresh(items, round, strict));
    hide Fresh, WeightHeard, Corresponds, WeightsOf, Total, SomeUnlike;
  }

  lemma NoneTaken(items: seq<Contribution>, round: int, strict: bool)
    ensures Fresh(items, round, strict) == [] <==> items == [] || (strict && forall k :: 0 <= k < |items| ==> items[k].baseRound != round)
  {
    FreshIsCurrent(items, round, strict);
    hide Fresh;
    if Fresh(items, round, strict) != [] {
      assert Fresh(items, round, strict)[0] in items;
    } else {
      forall k | 0 <= k < |items| ensures strict && items[k].baseRound != round {
        assert items[k] in items;
      }
      assert items != [] ==> items[0] in items;
    }
  }

  lemma UnlikeTaken(m: Model, items: seq<Contribution>, round: int, strict: bool, current: seq<Contribution>)
    requires forall item :: item in current <==> item in items && (!strict || item.baseRound == round)
    ensures (exists i :: 0 <= i < |current| && !Corresponds(m.weights, current[i].delta)) <==> SomeUnlike(m, items, round, strict)
  {
    hide Corresponds;
    forall i | 0 <= i < |current| && !Corresponds(m.weights, current[i].delta) ensures SomeUnlike(m, items, round, strict) {
      assert current[i] in current;
    }
    forall k | 0 <= k < |items| && (!strict || items[k].baseRound == round) && !Corresponds(m.weights, items[k].delta)
      ensures exists i :: 0 <= i < |current| && !Corresponds(m.weights, current[i].delta)
    {
      assert items[k] in items;
    }
  }

  // --- what a cluster is credited with ----------------------------------------------

  /** How many of a cluster's uploads were made against another round than this. */
  function StaleFrom(items: seq<Contribution>, c: string, round: int, strict: bool): nat {
    if items == [] then 0
    else
      var last := items[|items| - 1];
      StaleFrom(items[..|items| - 1], c, round, strict)
        + if last.cluster == c && strict && last.baseRound != round then 1 else 0
  }

  function UploadsFrom(items: seq<Contribution>, c: string): nat {
    if items == [] then 0
    else UploadsFrom(items[..|items| - 1], c) + if items[|items| - 1].cluster == c then 1 else 0
  }

  function TokensFrom(items: seq<Contribution>, c: string): int {
    if items == [] then 0
    else TokensFrom(items[..|items| - 1], c) + if items[|items| - 1].cluster == c then items[|items| - 1].tokens else 0
  }

  /** A cluster's rejections rise by exactly its stale uploads; one with none keeps its record, or has none. */
  lemma {:induction false} StaleCounted(members: Members, items: seq<Contribution>, round: int, strict: bool, c: string)
    ensures var after, n := AfterStale(members, items, round, strict), StaleFrom(items, c, round, strict);
            && (c in after <==> c in members || n > 0)
            && (n == 0 && c in members ==> after[c] == members[c])
            && (n > 0 ==> after[c] == if c in members
                                      then members[c].(lastSeen := round, staleRejected := members[c].staleRejected + n)
                                      else Member(round, round, 0, 0, n))
  {
    if items != [] {
      StaleCounted(members, items[..|items| - 1], round, strict, c);
    }
  }

  /** A cluster's rounds and tokens rise by exactly the uploads merged and the tokens in them. */
  lemma {:induction false} MergedCounted(members: Members, current: seq<Contribution>, round: int, c: string)
    ensures var after, n := AfterMerge(members, current, round), UploadsFrom(current, c);
            && (c in after <==> c in members || n > 0)
            && (n == 0 && c in members ==> after[c] == members[c])
            && (n > 0 ==> after[c] == if c in members
                                      then members[c].(lastSeen := round, roundsContributed := members[c].roundsContributed + n,
                                                       tokensTotal := members[c].tokensTotal + TokensFrom(current, c))
                                      else Member(round, round, n, TokensFrom(current, c), 0))
  {
    if current != [] {
      MergedCounted(members, current[..|current| - 1], round, c);
      if UploadsFrom(current[..|current| - 1], c) == 0 {
        NoTokens(current[..|current| - 1], c);
      }
    }
  }

  lemma {:induction false} NoTokens(items: seq<Contribution>, c: string)
    requires UploadsFrom(items, c) == 0
    ensures TokensFrom(items, c) == 0
  {
    if items != [] {
      NoTokens(items[..|items| - 1], c);
    }
  }

  /** Every upload is either merged or held against its cluster. */
  lemma {:induction false} EveryUploadCounts(items: seq<Contribution>, round: int, strict: bool, c: string)
    ensures UploadsFrom(Fresh(items, round, strict), c) + StaleFrom(items, c, round, strict) == UploadsFrom(items, c)
  {
    if items != [] {
      var n := |items| - 1;
      EveryUploadCounts(items[..n], round, strict, c);
      FreshNext(items, round, strict);
      hide Fresh;
      UploadsNext(Fresh(items[..n], round, strict), items[n], c);
    }
  }

  lemma FreshNext(items: seq<Contribution>, round: int, strict: bool)
    requires items != []
    ensures var n := |items| - 1;
            var before := Fresh(items[..n], round, strict);
            Fresh(items, round, strict) == if strict && items[n].baseRound != round then before else before + [items[n]]
  {
  }

  lemma UploadsNext(items: seq<Contribution>, item: Contribution, c: string)
    ensures UploadsFrom(items + [item], c) == UploadsFrom(items, c) + if item.cluster == c then 1 else 0
  {
    assert (items + [item])[..|items|] == items;
  }

  // --- shares and steps -------------------------------------------------------------

  /** A share is in proportion to its weight. */
  lemma ShareOfWeight(weights: seq<real>, i: nat)
    requires Total(weights) != 0.0 && i < |weights|
    ensures Normalise(weights)[i] * Total(weights) == weights[i]
  {
    hide Total;
    var w, total := weights[i], Total(weights);
    Divided(w, total);
  }

  lemma Divided(x: real, y: real)
    requires y != 0.0
    ensures (x / y) * y == x
  {
  }

  /** The global step moves on by what the furthest of the merged clusters did. */
  lemma {:induction false} FurthestSteps(items: seq<Contribution>)
    requires items != []
    ensures forall i :: 0 <= i < |items| ==> items[i].steps <= MostSteps(items)
    ensures exists i :: 0 <= i < |items| && items[i].steps == MostSteps(items)
  {
    var n := |items| - 1;
    if n == 0 {
      assert items[0].steps == MostSteps(items);
    } else {
      FurthestSteps(items[..n]);
      var i :| 0 <= i < n && items[..n][i].steps == MostSteps(items[..n]);
      assert items[i].steps == MostSteps(items[..n]);
      forall k | 0 <= k < |items| ensures items[k].steps <= MostSteps(items) {
        if k < n {
          assert items[..n][k] == items[k];
        }
      }
    }
  }
}
