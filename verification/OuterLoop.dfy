/** The reference outer loop of one allocation: replicas drift for a phase, then step together. */
module OuterLoops {
  import opened Wrappers
  import opened OuterStep

  /** What the replicas hold of one weight. */
  function Replicas(locals: seq<seq<real>>, j: nat): (r: seq<real>)
    requires forall i :: 0 <= i < |locals| ==> j < |locals[i]|
    ensures |r| == |locals|
  {
    seq(|locals|, i requires 0 <= i < |locals| => locals[i][j])
  }

  function Behind(w: real, thetas: seq<real>): (r: seq<real>)
    ensures |r| == |thetas|
  {
    seq(|thetas|, i requires 0 <= i < |thetas| => w - thetas[i])
  }

  predicate AllOf(locals: seq<seq<real>>, n: int) {
    forall i :: 0 <= i < |locals| ==> |locals[i]| == n
  }

  lemma NextBehind(w: real, locals: seq<seq<real>>, i: nat, j: nat)
    requires i < |locals| && forall k :: 0 <= k < |locals| ==> j < |locals[k]|
    ensures Total(Behind(w, Replicas(locals[..i + 1], j))) == Total(Behind(w, Replicas(locals[..i], j))) + (w - locals[i][j])
  {
    assert Behind(w, Replicas(locals[..i + 1], j))[..i] == Behind(w, Replicas(locals[..i], j));
  }

  class OuterLoop {
    const lr: real
    const beta: real
    const innerSteps: nat
    const theta: array<real>
    var buffer: Option<seq<real>>
    var innerCounter: nat
    var outerSteps: nat

    ghost predicate Valid()
      reads this
    {
      buffer.Some? ==> |buffer.value| == theta.Length
    }

    constructor (model: seq<real>, lr: real, beta: real, innerSteps: nat)
      ensures Valid() && fresh(theta) && theta[..] == model && buffer == None && innerCounter == 0 && outerSteps == 0
      ensures this.lr == lr && this.beta == beta && this.innerSteps == innerSteps
    {
      this.lr, this.beta, this.innerSteps := lr, beta, innerSteps;
      var t := new real[|model|](j requires 0 <= j < |model| => model[j]);
      theta, buffer, innerCounter, outerSteps := t, None, 0, 0;
      new;
      assert theta[..] == model;
    }

    /** The optimiser's view of one weight. */
    function At(j: int): Sgd
      requires 0 <= j < theta.Length && (buffer.Some? ==> |buffer.value| == theta.Length)
      reads this, theta
    {
      Sgd(theta[j], if buffer.None? then None else Some(buffer.value[j]))
    }

    /** How far each weight is, on average, ahead of the replicas. */
    method Average(locals: seq<seq<real>>) returns (flat: array<real>)
      requires locals != [] && AllOf(locals, theta.Length)
      ensures fresh(flat) && flat.Length == theta.Length
      ensures forall j :: 0 <= j < flat.Length ==> flat[j] == ReplicaGradient(theta[j], Replicas(locals, j))
    {
      flat := new real[theta.Length](_ => 0.0);
      var i := 0;
      while i < |locals|
        invariant 0 <= i <= |locals|
        invariant forall j :: 0 <= j < flat.Length ==> flat[j] == Total(Behind(theta[j], Replicas(locals[..i], j)))
      {
        ghost var sums := flat[..];
        var j := 0;
        while j < flat.Length
          invariant 0 <= j <= flat.Length && |sums| == flat.Length
          invariant forall k :: 0 <= k < j ==> flat[k] == sums[k] + (theta[k] - locals[i][k])
          invariant forall k :: j <= k < flat.Length ==> flat[k] == sums[k]
        {
          flat[j] := flat[j] + (theta[j] - locals[i][j]);
          j := j + 1;
        }
        forall j | 0 <= j < flat.Length
          ensures Total(Behind(theta[j], Replicas(locals[..i + 1], j)))
               == Total(Behind(theta[j], Replicas(locals[..i], j))) + (theta[j] - locals[i][j])
        {
          NextBehind(theta[j], locals, i, j);
        }
        i := i + 1;
      }
      assert locals[..i] == locals;
      ghost var sums := flat[..];
      var j := 0;
      while j < flat.Length
        invariant 0 <= j <= flat.Length && |sums| == flat.Length
        invariant forall k :: 0 <= k < j ==> flat[k] == sums[k] / |locals| as real
        invariant forall k :: j <= k < flat.Length ==> flat[k] == sums[k]
      {
        flat[j] := flat[j] / |locals| as real;
        j := j + 1;
      }
      forall j | 0 <= j < flat.Length ensures flat[j] == ReplicaGradient(theta[j], Replicas(locals, j)) {
        MeanBehind(theta[j], Replicas(locals, j));
      }
    }

    /** One outer step: every weight descends the replicas' mean gradient with Nesterov momentum. */
    method OuterStep(locals: seq<seq<real>>)
      requires Valid() && locals != [] && AllOf(locals, theta.Length)
      modifies this, theta
      ensures Valid() && buffer.Some? && innerCounter == 0 && outerSteps == old(outerSteps) + 1
      ensures forall j :: 0 <= j < theta.Length ==>
        At(j) == Nesterov(old(At(j)), ReplicaGradient(old(theta[j]), Replicas(locals, j)), lr, beta)
    {
      hide ReplicaGradient, NextBuffer, LookAhead;
      innerCounter := 0;
      var flat := Average(locals);
      ghost var before := theta[..];
      var next := NextMomentum(flat);
      var j := 0;
      while j < theta.Length
        invariant 0 <= j <= theta.Length && |before| == theta.Length
        invariant forall k :: 0 <= k < j ==> theta[k] == LookAhead(before[k], flat[k], next[k], lr, beta)
        invariant forall k :: j <= k < theta.Length ==> theta[k] == before[k]
        modifies theta
      {
        theta[j] := Moved(theta[j], flat[j], next[j]);
        j := j + 1;
      }
      buffer := Some(next);
      outerSteps := outerSteps + 1;
    }

    function Moved(w: real, g: real, buf: real): (r: real)
      ensures r == LookAhead(w, g, buf, lr, beta)
    {
      w - lr * (g + beta * buf)
    }

    method NextMomentum(flat: array<real>) returns (next: seq<real>)
      requires Valid() && flat.Length == theta.Length
      ensures |next| == flat.Length
      ensures forall j :: 0 <= j < flat.Length ==>
        next[j] == NextBuffer(if buffer.None? then None else Some(buffer.value[j]), flat[j], beta)
    {
      next := [];
      var j := 0;
      while j < flat.Length
        invariant 0 <= j <= flat.Length && |next| == j
        invariant forall k :: 0 <= k < j ==>
          next[k] == NextBuffer(if buffer.None? then None else Some(buffer.value[k]), flat[k], beta)
      {
        next := next + [if buffer.None? then flat[j] else beta * buffer.value[j] + flat[j]];
        j := j + 1;
      }
    }

    /** Count one inner step; the last of a phase takes the outer step. */
    method InnerStep(locals: seq<seq<real>>) returns (stepped: bool)
      requires Valid() && locals != [] && AllOf(locals, theta.Length)
      modifies this, theta
      ensures Valid() && stepped == (old(innerCounter) + 1 >= innerSteps)
      ensures outerSteps == old(outerSteps) + if stepped then 1 else 0
      ensures innerCounter == if stepped then 0 else old(innerCounter) + 1
      ensures !stepped ==> theta[..] == old(theta[..]) && buffer == old(buffer)
      ensures stepped ==> forall j :: 0 <= j < theta.Length ==>
        At(j) == Nesterov(old(At(j)), ReplicaGradient(old(theta[j]), Replicas(locals, j)), lr, beta)
    {
      innerCounter := innerCounter + 1;
      stepped := false;
      if innerCounter >= innerSteps {
        OuterStep(locals);
        stepped := true;
      }
    }
  }

  lemma MeanBehind(w: real, thetas: seq<real>)
    requires thetas != []
    ensures ReplicaGradient(w, thetas) == Total(Behind(w, thetas)) / |thetas| as real
  {
    assert Behind(w, thetas) == seq(|thetas|, i requires 0 <= i < |thetas| => w - thetas[i]);
  }
}
