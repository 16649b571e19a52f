/** The outer optimiser: FedMom as the central node applies it, and the Nesterov step that the
    replicas of one allocation apply, one coordinate of the model at a time. */
module OuterStep {
  import opened Wrappers


  // --- weighted sums ----------------------------------------------------------

  function Product(a: real, b: real): real {
    a * b
  }

  /** sum of shares[i] * xs[i] */
  function Combined(shares: seq<real>, xs: seq<real>): real
    requires |shares| == |xs|
  {
    if shares == [] then 0.0
    else Combined(shares[..|shares| - 1], xs[..|xs| - 1]) + Product(shares[|shares| - 1], xs[|xs| - 1])
  }

  function Total(shares: seq<real>): real {
    if shares == [] then 0.0 else Total(shares[..|shares| - 1]) + shares[|shares| - 1]
  }

  function Minus(xs: seq<real>, w: real): (r: seq<real>)
    ensures |r| == |xs|
  {
    seq(|xs|, i requires 0 <= i < |xs| => xs[i] - w)
  }

  function Times(factor: real, xs: seq<real>): (r: seq<real>)
    ensures |r| == |xs|
  {
    seq(|xs|, i requires 0 <= i < |xs| => Product(factor, xs[i]))
  }

  lemma {:induction false} CombinedMinus(shares: seq<real>, xs: seq<real>, w: real)
    requires |shares| == |xs|
    ensures Combined(shares, Minus(xs, w)) == Combined(shares, xs) - Product(w, Total(shares))
  {
    hide Product;
    if shares == [] {
      Zero(w);
    } else {
      var n := |shares| - 1;
      CombinedMinus(shares[..n], xs[..n], w);
      assert Minus(xs, w)[..n] == Minus(xs[..n], w);
      Spread(shares[n], xs[n], w, Total(shares[..n]));
    }
  }

  lemma Zero(w: real)
    ensures Product(w, 0.0) == 0.0
  {
  }

  lemma Spread(share: real, x: real, w: real, total: real)
    ensures Product(share, x - w) == Product(share, x) - Product(w, share)
    ensures Product(w, total + share) == Product(w, total) + Product(w, share)
  {
  }

  lemma {:induction false} CombinedTimes(factor: real, shares: seq<real>, xs: seq<real>)
    requires |shares| == |xs|
    ensures Combined(Times(factor, shares), xs) == Product(factor, Combined(shares, xs))
  {
    hide Product;
    if shares == [] {
      Zero(factor);
    } else {
      var n := |shares| - 1;
      CombinedTimes(factor, shares[..n], xs[..n]);
      assert Times(factor, shares)[..n] == Times(factor, shares[..n]);
      Regroup(factor, Combined(shares[..n], xs[..n]), shares[n], xs[n]);
    }
  }

  lemma Regroup(factor: real, before: real, share: real, x: real)
    ensures Product(factor, before + Product(share, x)) == Product(factor, before) + Product(Product(factor, share), x)
  {
    assert (factor * share) * x == factor * (share * x);
  }

  lemma {:induction false} TotalTimes(factor: real, shares: seq<real>)
    ensures Total(Times(factor, shares)) == Product(factor, Total(shares))
  {
    hide Product;
    if shares == [] {
      Zero(factor);
    } else {
      var n := |shares| - 1;
      TotalTimes(factor, shares[..n]);
      assert Times(factor, shares)[..n] == Times(factor, shares[..n]);
      Sum2(factor, Total(shares[..n]), shares[n]);
    }
  }

  lemma Sum2(factor: real, a: real, b: real)
    ensures Product(factor, a + b) == Product(factor, a) + Product(factor, b)
  {
  }

  /** A weighted mean lies among the values it is a mean of. */
  lemma {:induction false} CombinedWithin(shares: seq<real>, xs: seq<real>, lo: real, hi: real)
    requires |shares| == |xs|
    requires forall i :: 0 <= i < |xs| ==> shares[i] >= 0.0 && lo <= xs[i] <= hi
    ensures Product(lo, Total(shares)) <= Combined(shares, xs) <= Product(hi, Total(shares))
  {
    hide Product;
    if shares == [] {
      Zero(lo);
      Zero(hi);
    } else {
      var n := |shares| - 1;
      CombinedWithin(shares[..n], xs[..n], lo, hi);
      ScaledWithin(shares[n], xs[n], lo, hi);
      Sum2(lo, Total(shares[..n]), shares[n]);
      Sum2(hi, Total(shares[..n]), shares[n]);
    }
  }

  lemma ScaledWithin(share: real, x: real, lo: real, hi: real)
    requires share >= 0.0 && lo <= x <= hi
    ensures Product(lo, share) <= Product(share, x) <= Product(hi, share)
  {
  }

  // --- FedMom -----------------------------------------------------------------

  /** One weight and its velocity; no velocity before the first merge. */
  datatype Coordinate = Coordinate(w: real, v: Option<real>)

  function NextVelocity(w: real, combined: real, lr: real): real {
    w + lr * combined
  }

  function NextWeight(vNext: real, vPrev: real, beta: real): real {
    (1.0 + beta) * vNext - beta * vPrev
  }

  /** One merge of deltas whose weighted sum is `combined`. */
  function FedMom(c: Coordinate, combined: real, lr: real, beta: real): Coordinate {
    var vNext := NextVelocity(c.w, combined, lr);
    var vPrev := if c.v.None? then c.w else c.v.value;
    Coordinate(if beta == 0.0 then vNext else NextWeight(vNext, vPrev, beta), Some(vNext))
  }

  // --- the reference ----------------------------------------------------------

  datatype Sgd = Sgd(w: real, buf: Option<real>)

  function NextBuffer(buf: Option<real>, g: real, beta: real): real {
    if buf.None? then g else beta * buf.value + g
  }

  function LookAhead(w: real, g: real, buf: real, lr: real, beta: real): real {
    w - lr * (g + beta * buf)
  }

  /** Stochastic gradient descent with Nesterov momentum; the first gradient fills the buffer. */
  function Nesterov(s: Sgd, g: real, lr: real, beta: real): Sgd {
    var buf := NextBuffer(s.buf, g, beta);
    Sgd(LookAhead(s.w, g, buf, lr, beta), Some(buf))
  }

  /** The velocity is the weight before its momentum term. */
  ghost predicate Matches(c: Coordinate, s: Sgd, lr: real, beta: real) {
    && c.w == s.w && (c.v.None? <==> s.buf.None?)
    && (c.v.Some? ==> c.w == c.v.value - beta * (lr * s.buf.value))
  }

  lemma StepMatches(c: Coordinate, s: Sgd, combined: real, lr: real, beta: real)
    requires Matches(c, s, lr, beta)
    ensures Matches(FedMom(c, combined, lr, beta), Nesterov(s, -combined, lr, beta), lr, beta)
  {
    var g := -combined;
    var vNext := c.w + lr * combined;
    var buf := if s.buf.None? then g else beta * s.buf.value + g;
    var vPrev := if c.v.None? then c.w else c.v.value;
    assert lr * g == -(lr * combined);
    assert vNext - vPrev == -(lr * buf) by {
      if s.buf.Some? {
        assert lr * (beta * s.buf.value + g) == beta * (lr * s.buf.value) + lr * g;
      }
    }
    assert (1.0 + beta) * vNext - beta * vPrev == vNext + beta * (vNext - vPrev);
    assert beta * -(lr * buf) == -(beta * (lr * buf));
    assert lr * (g + beta * buf) == lr * g + beta * (lr * buf);
  }

  /** A run of steps, the last one last. */
  function FedMomRun(c: Coordinate, combined: seq<real>, lr: real, beta: real): Coordinate {
    if combined == [] then c
    else FedMom(FedMomRun(c, combined[..|combined| - 1], lr, beta), combined[|combined| - 1], lr, beta)
  }

  function NesterovRun(s: Sgd, gradients: seq<real>, lr: real, beta: real): Sgd {
    if gradients == [] then s
    else Nesterov(NesterovRun(s, gradients[..|gradients| - 1], lr, beta), gradients[|gradients| - 1], lr, beta)
  }

  function Negated(xs: seq<real>): (r: seq<real>)
    ensures |r| == |xs|
  {
    seq(|xs|, i requires 0 <= i < |xs| => -xs[i])
  }

  /** FedMom is Nesterov momentum on the negated mean delta, from the first step on. */
  lemma {:induction false} FedMomIsNesterov(w: real, combined: seq<real>, lr: real, beta: real)
    ensures Matches(FedMomRun(Coordinate(w, None), combined, lr, beta),
                    NesterovRun(Sgd(w, None), Negated(combined), lr, beta), lr, beta)
    ensures FedMomRun(Coordinate(w, None), combined, lr, beta).w == NesterovRun(Sgd(w, None), Negated(combined), lr, beta).w
  {
    if combined != [] {
      var n := |combined| - 1;
      FedMomIsNesterov(w, combined[..n], lr, beta);
      assert Negated(combined)[..n] == Negated(combined[..n]);
      StepMatches(FedMomRun(Coordinate(w, None), combined[..n], lr, beta),
                  NesterovRun(Sgd(w, None), Negated(combined[..n]), lr, beta), combined[n], lr, beta);
    }
  }

  // --- the gradient of the replicas -------------------------------------------

  function Mean(xs: seq<real>): real
    requires xs != []
  {
    Total(xs) / |xs| as real
  }

  /** How far the replicas are, on average, behind the weights they started from. */
  function ReplicaGradient(w: real, thetas: seq<real>): real
    requires thetas != []
  {
    Mean(seq(|thetas|, i requires 0 <= i < |thetas| => w - thetas[i]))
  }

  function EqualShares(n: nat): (r: seq<real>)
    requires n > 0
    ensures |r| == n
  {
    seq(n, _ => 1.0 / n as real)
  }

  lemma {:induction false} CombinedOfSame(share: real, shares: seq<real>, xs: seq<real>)
    requires |shares| == |xs| && forall i :: 0 <= i < |shares| ==> shares[i] == share
    ensures Combined(shares, xs) == Product(share, Total(xs))
  {
    hide Product;
    if shares == [] {
      Zero(share);
    } else {
      var n := |shares| - 1;
      CombinedOfSame(share, shares[..n], xs[..n]);
      Sum2(share, Total(xs[..n]), xs[n]);
    }
  }

  lemma {:induction false} TotalNegated(xs: seq<real>)
    ensures Total(Negated(xs)) == -Total(xs)
  {
    if xs != [] {
      var n := |xs| - 1;
      TotalNegated(xs[..n]);
      assert Negated(xs)[..n] == Negated(xs[..n]);
    }
  }

  /** With equal shares the deltas' weighted sum is the replicas' gradient, negated. */
  lemma EqualSharesAverage(w: real, thetas: seq<real>)
    requires thetas != []
    ensures Combined(EqualShares(|thetas|), Minus(thetas, w)) == -ReplicaGradient(w, thetas)
  {
    var deltas := Minus(thetas, w);
    var behind := seq(|thetas|, i requires 0 <= i < |thetas| => w - thetas[i]);
    assert behind == Negated(deltas);
    TotalNegated(deltas);
    var n := |thetas| as real;
    CombinedOfSame(1.0 / n, EqualShares(|thetas|), deltas);
    Divide(Total(deltas), n);
  }

  lemma Divide(total: real, n: real)
    requires n > 0.0
    ensures 1.0 / n * total == -(-total / n)
  {
    var q := total / n;
    assert q * n == total;
    assert (1.0 / n * total) * n == total;
    assert (1.0 / n * total - q) * n == 0.0;
    assert (-total / n) * n == -total;
    assert (-total / n + q) * n == 0.0;
  }

  /** Rounds of replicas that all start from the current weight; thetas[i] is where round i left them. */
  function ReplicaRun(s: Sgd, thetas: seq<seq<real>>, lr: real, beta: real): Sgd
    requires forall i :: 0 <= i < |thetas| ==> thetas[i] != []
  {
    if thetas == [] then s
    else
      var n := |thetas| - 1;
      var before := ReplicaRun(s, thetas[..n], lr, beta);
      Nesterov(before, ReplicaGradient(before.w, thetas[n]), lr, beta)
  }

  /** The same rounds, merged by the central node from the deltas the clusters send. */
  function DeltaRun(c: Coordinate, thetas: seq<seq<real>>, lr: real, beta: real): Coordinate
    requires forall i :: 0 <= i < |thetas| ==> thetas[i] != []
  {
    if thetas == [] then c
    else
      var n := |thetas| - 1;
      var before := DeltaRun(c, thetas[..n], lr, beta);
      FedMom(before, Combined(EqualShares(|thetas[n]|), Minus(thetas[n], before.w)), lr, beta)
  }

  /** With equal shares the central merges are the outer steps of the replicas, whatever the number of
      clusters in each round. */
  lemma {:induction false} MergesAreOuterSteps(w: real, thetas: seq<seq<real>>, lr: real, beta: real)
    requires forall i :: 0 <= i < |thetas| ==> thetas[i] != []
    ensures Matches(DeltaRun(Coordinate(w, None), thetas, lr, beta), ReplicaRun(Sgd(w, None), thetas, lr, beta), lr, beta)
    ensures DeltaRun(Coordinate(w, None), thetas, lr, beta).w == ReplicaRun(Sgd(w, None), thetas, lr, beta).w
  {
    if thetas != [] {
      var n := |thetas| - 1;
      MergesAreOuterSteps(w, thetas[..n], lr, beta);
      var c, s := DeltaRun(Coordinate(w, None), thetas[..n], lr, beta), ReplicaRun(Sgd(w, None), thetas[..n], lr, beta);
      EqualSharesAverage(c.w, thetas[n]);
      hide FedMom, Nesterov, Combined, ReplicaGradient;
      StepMatches(c, s, Combined(EqualShares(|thetas[n]|), Minus(thetas[n], c.w)), lr, beta);
    }
  }

  // --- without momentum -------------------------------------------------------

  /** At beta = 0 and lr = 1 the merge is federated averaging. */
  lemma PlainAverage(c: Coordinate, shares: seq<real>, thetas: seq<real>)
    requires |shares| == |thetas| && Total(shares) == 1.0
    ensures FedMom(c, Combined(shares, Minus(thetas, c.w)), 1.0, 0.0).w == Combined(shares, thetas)
  {
    CombinedMinus(shares, thetas, c.w);
  }

  /** So every weight stays among those the clusters sent. */
  lemma PlainAverageWithin(c: Coordinate, shares: seq<real>, thetas: seq<real>, lo: real, hi: real)
    requires |shares| == |thetas| && Total(shares) == 1.0
    requires forall i :: 0 <= i < |thetas| ==> shares[i] >= 0.0 && lo <= thetas[i] <= hi
    ensures lo <= FedMom(c, Combined(shares, Minus(thetas, c.w)), 1.0, 0.0).w <= hi
  {
    PlainAverage(c, shares, thetas);
    CombinedWithin(shares, thetas, lo, hi);
  }

  // --- the two merges ---------------------------------------------------------

  function Descend(w: real, average: real, eta: real): real {
    var pseudoGradient := w - average;
    w - eta * pseudoGradient
  }

  function Carry(vNext: real, vPrev: real, beta: real): real {
    vNext + beta * (vNext - vPrev)
  }

  /** The inline merge of weights whose weighted mean is `average`. */
  function InlineStep(c: Coordinate, average: real, eta: real, beta: real): Coordinate {
    var vNext := Descend(c.w, average, eta);
    Coordinate(Carry(vNext, if c.v.None? then c.w else c.v.value, beta), Some(vNext))
  }

  /** Merging weights inline and merging their deltas as a stream are one function. */
  lemma InlineIsStreamed(c: Coordinate, shares: seq<real>, thetas: seq<real>, lr: real, beta: real)
    requires |shares| == |thetas| && Total(shares) == 1.0
    ensures InlineStep(c, Combined(shares, thetas), lr, beta) == FedMom(c, Combined(shares, Minus(thetas, c.w)), lr, beta)
  {
    CombinedMinus(shares, thetas, c.w);
    var average := Combined(shares, thetas);
    assert Combined(shares, Minus(thetas, c.w)) == average - c.w;
    hide Combined;
    InlineByAlgebra(c, average, lr, beta);
  }

  lemma InlineByAlgebra(c: Coordinate, average: real, lr: real, beta: real)
    ensures InlineStep(c, average, lr, beta) == FedMom(c, average - c.w, lr, beta)
  {
    assert lr * (c.w - average) == -(lr * (average - c.w));
    var vNext := NextVelocity(c.w, average - c.w, lr);
    assert Descend(c.w, average, lr) == vNext;
    var vPrev := if c.v.None? then c.w else c.v.value;
    CarryIsNextWeight(vNext, vPrev, beta);
    hide Carry, NextWeight, Descend, NextVelocity;
  }

  lemma CarryIsNextWeight(vNext: real, vPrev: real, beta: real)
    ensures Carry(vNext, vPrev, beta) == NextWeight(vNext, vPrev, beta)
    ensures beta == 0.0 ==> Carry(vNext, vPrev, beta) == vNext
  {
    assert beta * (vNext - vPrev) == beta * vNext - beta * vPrev;
  }
}
