/**
  verl/utils/activation_offload.py: the arithmetic that spreads the offloading of N groups over
  the commits of L layers.
*/
module WindowMap {
  import opened Arithmetic

  /** The layer whose commit ends the window of group i. */
  function Window(n: nat, l: nat, i: nat): int
    requires n > 0
  {
    (l / n) * (i + 1) - 1 + Min(i + 1, l % n)
  }

  method BuildWindowMap(numOffloadGroup: nat, numLayers: nat) returns (windowMap: seq<int>)
    ensures |windowMap| == numOffloadGroup
    ensures forall i | 0 <= i < numOffloadGroup :: windowMap[i] == Window(numOffloadGroup, numLayers, i)
  {
    windowMap := [];
    var constant := 0;
    for i := 0 to numOffloadGroup
      invariant |windowMap| == i
      invariant constant == if numOffloadGroup == 0 then 0 else Min(i, numLayers % numOffloadGroup)
      invariant forall k | 0 <= k < i :: windowMap[k] == Window(numOffloadGroup, numLayers, k)
    {
      var w := (numLayers / numOffloadGroup) * (i + 1) - 1;
      if i < numLayers % numOffloadGroup {
        w := w + (i + 1);
        constant := i + 1;
      } else {
        w := w + constant;
      }
      windowMap := windowMap + [w];
    }
  }

  lemma DivAtLeastOne(n: nat, l: nat)
    requires 1 <= n <= l
    ensures l / n >= 1 && (l / n) * n + l % n == l
  {
  }

  /** Windows are strictly increasing, and group i is never due before its own layer. */
  lemma {:induction false} WindowIncreases(n: nat, l: nat, i: nat, j: nat)
    requires 1 <= n <= l && i < j
    ensures Window(n, l, i) < Window(n, l, j)
    decreases j
  {
    DivAtLeastOne(n, l);
    assert (l / n) * (j + 1) == (l / n) * j + l / n;
    if i + 1 < j { WindowIncreases(n, l, i, j - 1); }
  }

  lemma WindowNotEarly(n: nat, l: nat, i: nat)
    requires 1 <= n <= l
    ensures i <= Window(n, l, i)
    decreases i
  {
    DivAtLeastOne(n, l);
    if i > 0 {
      WindowNotEarly(n, l, i - 1);
      WindowIncreases(n, l, i - 1, i);
    }
  }

  /** The last window ends at the last layer. */
  lemma WindowEnds(n: nat, l: nat)
    requires 1 <= n <= l
    ensures Window(n, l, n - 1) == l - 1
  {
    DivAtLeastOne(n, l);
  }

  /** Consecutive windows are L div N layers apart, or one more for the first L mod N of them. */
  lemma WindowGaps(n: nat, l: nat, i: nat)
    requires 1 <= n
    ensures Window(n, l, 0) == l / n - 1 + (if l % n > 0 then 1 else 0)
    ensures Window(n, l, i + 1) - Window(n, l, i) == l / n + (if i + 1 < l % n then 1 else 0)
  {
    assert (l / n) * (i + 2) == (l / n) * (i + 1) + l / n;
  }

  /** With a layer to spare, the next group's layer has been committed when its window opens ... */
  lemma WindowLeavesRoom(n: nat, l: nat, i: nat)
    requires 1 <= n < l && i < n - 1
    ensures i + 1 <= Window(n, l, i)
  {
    DivAtLeastOne(n, l);
    if l / n == 1 {
      assert l % n >= 1;
    } else {
      assert (l / n) * (i + 1) >= 2 * (i + 1);
    }
  }

  /** ... and without one, every window is the group's own layer. */
  lemma WindowTight(n: nat, i: nat)
    requires 1 <= n
    ensures Window(n, n, i) == i
  {
    assert n / n == 1 && n % n == 0;
  }

  /** The choice N = L - 1 of `enable_activation_offloading`. */
  lemma WindowOneSpare(l: nat, i: nat)
    requires l >= 2 && i < l - 1
    ensures Window(l - 1, l, i) == i + 1
  {
    if l == 2 {
      assert 2 / 1 == 2 && 2 % 1 == 0;
    } else {
      assert l / (l - 1) == 1 && l % (l - 1) == 1;
    }
  }
}
