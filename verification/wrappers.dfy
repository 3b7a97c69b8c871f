/** Failure-compatible result types and the order-preserving map that stops
    at the first failure, as PHP's array_map does when its callback throws. */
module Wrappers {

  datatype Option<+T> = None | Some(value: T)

  datatype Result<+T, +E> = Success(value: T) | Failure(error: E) {
    predicate IsFailure() { Failure? }

    function PropagateFailure<U>(): Result<U, E>
      requires Failure?
    {
      Failure(error)
    }

    function Extract(): T
      requires Success?
    {
      value
    }
  }

  /** Applies `f` to every element in order; the first failure is the result. */
  function MapAll<A, B, E>(xs: seq<A>, f: A -> Result<B, E>): (r: Result<seq<B>, E>)
    ensures r.Success? <==> forall i :: 0 <= i < |xs| ==> f(xs[i]).Success?
    ensures r.Success? ==>
      |r.value| == |xs| && forall i :: 0 <= i < |xs| ==> r.value[i] == f(xs[i]).value
    ensures r.Failure? ==>
      exists i :: 0 <= i < |xs| && f(xs[i]).Failure? && r.error == f(xs[i]).error &&
        forall j :: 0 <= j < i ==> f(xs[j]).Success?
  {
    if xs == [] then Success([])
    else
      match f(xs[0])
      case Failure(e) => Failure(e)
      case Success(y) =>
        match MapAll(xs[1..], f)
        case Failure(e) =>
          assert forall i :: 1 <= i < |xs| ==> xs[1..][i - 1] == xs[i];
          Failure(e)
        case Success(ys) =>
          assert forall i :: 1 <= i < |xs| ==> xs[1..][i - 1] == xs[i];
          Success([y] + ys)
  }

  /** Lists whose elements `f` maps alike are mapped alike. */
  lemma {:induction false} MapAllPointwise<A, B, E>(xs: seq<A>, ys: seq<A>, f: A -> Result<B, E>)
    requires |xs| == |ys| && forall i :: 0 <= i < |xs| ==> f(xs[i]) == f(ys[i])
    ensures MapAll(xs, f) == MapAll(ys, f)
  {
    if xs != [] {
      assert forall i :: 0 <= i < |xs| - 1 ==> xs[1..][i] == xs[i + 1] && ys[1..][i] == ys[i + 1];
      MapAllPointwise(xs[1..], ys[1..], f);
    }
  }
}
