/** Tensor shapes. */
module Shapes {
  /** The number of elements: the product of the dimensions. */
  function Numel(shape: seq<nat>): nat {
    if shape == [] then 1 else shape[0] * Numel(shape[1..])
  }

  lemma NumelOfVector(n: nat)
    ensures Numel([]) == 1 && Numel([n]) == n
  {
    assert Numel([n]) == n * Numel([n][1..]);
  }

  lemma Associates(a: nat, b: nat, c: nat)
    ensures a * (b * c) == (a * b) * c
  {
  }

  /** Joining two shapes multiplies their elements. */
  lemma {:induction false} NumelMultiplies(a: seq<nat>, b: seq<nat>)
    ensures Numel(a + b) == Numel(a) * Numel(b)
  {
    if a == [] {
      assert a + b == b;
    } else {
      assert (a + b)[1..] == a[1..] + b;
      NumelMultiplies(a[1..], b);
      Associates(a[0], Numel(a[1..]), Numel(b));
    }
  }
}
