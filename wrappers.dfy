/** Failure-carrying results. The Rust code panics (`unwrap`, an index past
    the end, `panic!`) where these carry an error value instead. */
module Wrappers {

  datatype Option<+T> = None | Some(value: T)

  datatype Result<+T, +E> = Ok(value: T) | Err(error: E)

  /** Applies `f` to every element in order and collects the results, stopping
      at the first error (what `.map(f).collect()` does when `f` panics on
      failure: the first failing element decides the outcome). */
  function TryMap<A, B, E>(xs: seq<A>, f: A -> Result<B, E>): (r: Result<seq<B>, E>)
    ensures r.Ok? <==> forall i | 0 <= i < |xs| :: f(xs[i]).Ok?
    ensures r.Ok? ==> |r.value| == |xs| && forall i | 0 <= i < |xs| :: r.value[i] == f(xs[i]).value
    ensures r.Err? ==> exists i | 0 <= i < |xs| ::
                         f(xs[i]) == Err(r.error) && forall j | 0 <= j < i :: f(xs[j]).Ok?
  {
    if xs == [] then Ok([])
    else
      match f(xs[0])
      case Err(e) => Err(e)
      case Ok(y) =>
        match TryMap(xs[1..], f)
        case Err(e) =>
          assert forall j | 0 <= j < |xs| - 1 :: xs[1..][j] == xs[j + 1];
          Err(e)
        case Ok(ys) => Ok([y] + ys)
  }

  /** When every element maps to a value, the values are collected in order. */
  lemma {:induction false} TryMapAllOk<A, B, E>(xs: seq<A>, f: A -> Result<B, E>, ys: seq<B>)
    requires |xs| == |ys| && forall i | 0 <= i < |xs| :: f(xs[i]) == Ok(ys[i])
    ensures TryMap(xs, f) == Ok(ys)
  {
    var r := TryMap(xs, f);
    assert r.Ok?;
    assert r.value == ys;
  }
}
