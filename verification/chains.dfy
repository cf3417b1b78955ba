/**
 * Runs of records, stated once for every section. A section decoder is
 * seen as a function `F` of a position and the state decoded so far; a
 * record of `size(x)` bytes that adds `x` to the state takes `F` from
 * before it to after it. A chain of such steps takes `F` across the whole
 * run, which adds the records' entities in file order.
 */
module Chains {
  /** The number of bytes a run of records takes. */
  function Sum<X>(size: X -> nat, xs: seq<X>): nat {
    if xs == [] then 0 else size(xs[0]) + Sum(size, xs[1..])
  }

  /** The state after adding the entities `xs` in order. */
  function Fold<S, X>(add: (S, X) -> S, s: S, xs: seq<X>): S {
    if xs == [] then s else Fold(add, add(s, xs[0]), xs[1..])
  }

  /** Each record of `xs`, laid from `pos`, leaves `F` unchanged across it. */
  ghost predicate Chain<S, X, R>(F: (nat, S) -> R, size: X -> nat, add: (S, X) -> S, pos: nat, xs: seq<X>, s: S)
    decreases |xs|
  {
    xs == [] ||
    var next, s2 := pos + size(xs[0]), add(s, xs[0]);
    F(pos, s) == F(next, s2) && Chain(F, size, add, next, xs[1..], s2)
  }

  /** A chain takes `F` from the start of the run to its end. */
  lemma {:induction false} ChainEnds<S, X, R>(F: (nat, S) -> R, size: X -> nat, add: (S, X) -> S, pos: nat, xs: seq<X>, s: S)
    requires Chain(F, size, add, pos, xs, s)
    ensures F(pos, s) == F(pos + Sum(size, xs), Fold(add, s, xs))
    decreases |xs|
  {
    if xs != [] {
      ChainEnds(F, size, add, pos + size(xs[0]), xs[1..], add(s, xs[0]));
    }
  }
}
