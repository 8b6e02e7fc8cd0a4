/** Applying a function to every element of a list, as `Array.prototype.map` does. */
module Lists {

  /** `xs.map(f)`, built from the back so that a loop appending `f(x)` follows it step by step. */
  function Map<A, B>(f: A -> B, xs: seq<A>): (ys: seq<B>)
    ensures |ys| == |xs|
    decreases |xs|
  {
    if xs == [] then [] else Map(f, xs[..|xs| - 1]) + [f(xs[|xs| - 1])]
  }

  /** Element `i` of the map is `f` of element `i`. */
  lemma {:induction false} MapAt<A, B>(f: A -> B, xs: seq<A>, i: nat)
    requires i < |xs|
    ensures Map(f, xs)[i] == f(xs[i])
    decreases |xs|
  {
    if i < |xs| - 1 {
      MapAt(f, xs[..|xs| - 1], i);
    }
  }

  /** Mapping one more element appends its image. */
  lemma MapSnoc<A, B>(f: A -> B, xs: seq<A>, i: nat)
    requires i < |xs|
    ensures Map(f, xs[..i + 1]) == Map(f, xs[..i]) + [f(xs[i])]
  {
    assert xs[..i + 1][..i] == xs[..i];
  }

  /** Mapping a list with one more element at the end appends its image. */
  lemma MapAppendOne<A, B>(f: A -> B, xs: seq<A>, x: A)
    ensures Map(f, xs + [x]) == Map(f, xs) + [f(x)]
  {
    assert (xs + [x])[..|xs|] == xs;
  }
}
