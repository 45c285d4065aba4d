/** The window map: after which of L layers each of N groups has to be off the device. */
module OffloadWindow {
  import opened Division

  function Min(a: int, b: int): int {
    if a <= b then a else b
  }

  /** Closed form of the map built by the loop below. */
  function Window(layers: nat, groups: nat, i: nat): int
    requires groups > 0
  {
    (layers / groups) * (i + 1) - 1 + Min(i + 1, layers % groups)
  }

  method BuildWindowMap(layers: nat, groups: nat) returns (window: map<nat, int>)
    ensures forall i: nat :: i in window <==> i < groups
    ensures forall i: nat :: i < groups ==> window[i] == Window(layers, groups, i)
  {
    window := map[];
    var constant := 0;
    for i: nat := 0 to groups
      invariant forall k: nat :: k in window <==> k < i
      invariant forall k: nat :: k < i ==> window[k] == Window(layers, groups, k)
      invariant groups > 0 ==> constant == Min(i, layers % groups)
    {
      window := window[i := (layers / groups) * (i + 1) - 1];
      if i < layers % groups {
        window := window[i := window[i] + (i + 1)];
        constant := i + 1;
      } else {
        window := window[i := window[i] + constant];
      }
    }
  }

  lemma WindowStep(layers: nat, groups: nat, i: nat)
    requires 1 <= groups <= layers
    ensures Window(layers, groups, i) < Window(layers, groups, i + 1)
  {
    var q := layers / groups;
    assert q >= 1;
    assert q * (i + 2) == q * (i + 1) + q;
  }

  lemma {:induction false} WindowIncreasing(layers: nat, groups: nat, i: nat, j: nat)
    requires 1 <= groups <= layers && i < j
    ensures Window(layers, groups, i) < Window(layers, groups, j)
    decreases j
  {
    WindowStep(layers, groups, j - 1);
    if i < j - 1 { WindowIncreasing(layers, groups, i, j - 1); }
  }

  /** The load is balanced: each group ends L / N layers behind the one before it, and the first L mod N groups
      one layer later still. */
  lemma WindowIsBalanced(layers: nat, groups: nat, i: nat)
    requires 1 <= groups && i < groups
    ensures var before := if i == 0 then -1 else Window(layers, groups, i - 1);
      Window(layers, groups, i) - before == layers / groups + if i < layers % groups then 1 else 0
  {
    var q := layers / groups;
    assert q * (i + 1) == q * i + q;
  }

  lemma WindowEndsAtLastLayer(layers: nat, groups: nat)
    requires groups > 0
    ensures Window(layers, groups, groups - 1) == layers - 1
  {
    assert layers == (layers / groups) * groups + layers % groups;
  }

  /** A group's window never lies before the group; it lies behind it for every group exactly if there are
      fewer groups than layers. */
  lemma WindowBehindGroup(layers: nat, groups: nat, i: nat)
    requires 1 <= groups <= layers && i < groups
    ensures Window(layers, groups, i) >= i
    ensures Window(layers, groups, i) > i <==> groups < layers
  {
    var q, r := layers / groups, layers % groups;
    assert layers == q * groups + r && q >= 1;
    if q == 1 {
      assert q * (i + 1) == i + 1 && q * groups == groups;
    } else {
      TimesGrows(2, q, i + 1);
      TimesGrows(2, q, groups);
    }
  }

  /** As the code sets it up, with one group fewer than layers, group i leaves right after layer i + 1. */
  lemma WindowAsUsed(layers: nat, i: nat)
    requires layers >= 2 && i < layers - 1
    ensures Window(layers, layers - 1, i) == i + 1
  {
    var n := layers - 1;
    if n == 1 {
      assert layers / n == 2 && layers % n == 0;
    } else {
      assert layers / n == 1 && layers % n == 1;
    }
  }
}
