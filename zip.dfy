/**
 * `zip(as, bs)`: pairs each element of `as` with the element of `bs` at the
 * same index; the result is as long as `as`, and past the end of `bs` the
 * second component is missing (`undefined`).
 */
module Zip {
  import opened Wrappers

  function At<B>(ys: seq<B>, i: int): (r: Option<B>)
    ensures r.Some? <==> 0 <= i < |ys|
    ensures r.Some? ==> r.value == ys[i]
  {
    if 0 <= i < |ys| then Some(ys[i]) else None
  }

  function Zip<A, B>(xs: seq<A>, ys: seq<B>): (r: seq<(A, Option<B>)>)
    ensures |r| == |xs|
    ensures forall i :: 0 <= i < |xs| ==> r[i].0 == xs[i]
    ensures forall i :: 0 <= i < |xs| && i < |ys| ==> r[i].1 == Some(ys[i])
    ensures forall i :: |ys| <= i < |xs| ==> r[i].1 == None
  {
    seq(|xs|, i requires 0 <= i < |xs| => (xs[i], At(ys, i)))
  }

  /** The first components of a zip are the first argument. */
  lemma ZipFirsts<A, B>(xs: seq<A>, ys: seq<B>)
    ensures seq(|xs|, i requires 0 <= i < |xs| => Zip(xs, ys)[i].0) == xs
  {
  }

  lemma ZipEmpty<A, B>(ys: seq<B>)
    ensures Zip<A, B>([], ys) == []
  {
  }
}
