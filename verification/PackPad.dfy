/**
  Packing and padding of verl/utils/npu_flash_attn_utils.py: unpad_input keeps the selected tokens of
  a padded batch, pad_input puts them back, and each has a hand-written gradient. All operations treat
  the columns of a token alike; a token is one value here, a number where gradients matter.
*/
module PackPad {
  import opened Sequences
  import opened Wrappers
  import opened BalancedPartitions
  import opened Arithmetic

  // ----- gather and scatter ------------------------------------------------------------------

  /** What a scatter into zeros may leave: where an index occurs, one of the values written there. */
  ghost predicate Scattered<T>(zero: T, values: seq<T>, idx: seq<nat>, n: nat, out: seq<T>)
    requires |values| == |idx|
  {
    && |out| == n
    && (forall j | 0 <= j < n && j !in idx :: out[j] == zero)
    && (forall j | 0 <= j < n && j in idx :: WrittenBy(values, idx, j, out[j]))
  }

  ghost predicate WrittenBy<T>(values: seq<T>, idx: seq<nat>, j: nat, v: T)
    requires |values| == |idx|
  {
    exists i | 0 <= i < |idx| :: idx[i] == j && values[i] == v
  }

  /** IndexPutFirstAxis.forward and IndexFirstAxis.backward, writing in index order. */
  method Scatter<T>(zero: T, values: seq<T>, idx: seq<nat>, n: nat) returns (out: array<T>)
    requires |values| == |idx| && Below(idx, n)
    ensures fresh(out) && Scattered(zero, values, idx, n, out[..])
  {
    out := new T[n](_ => zero);
    for i := 0 to |idx|
      invariant forall j | 0 <= j < n && j !in idx[..i] :: out[j] == zero
      invariant forall j | 0 <= j < n && j in idx[..i] :: WrittenBy(values[..i], idx[..i], j, out[j])
    {
      ghost var before := out[..];
      out[idx[i]] := values[i];
      assert idx[..i + 1] == idx[..i] + [idx[i]] && values[..i + 1] == values[..i] + [values[i]];
      forall j | 0 <= j < n && j in idx[..i + 1] ensures WrittenBy(values[..i + 1], idx[..i + 1], j, out[j]) {
        if j == idx[i] {
          assert idx[..i + 1][i] == j && values[..i + 1][i] == out[j];
        } else {
          assert WrittenBy(values[..i], idx[..i], j, before[j]);
          var k :| 0 <= k < i && idx[..i][k] == j && values[..i][k] == out[j];
          assert idx[..i + 1][k] == j && values[..i + 1][k] == out[j];
        }
      }
    }
    assert idx[..|idx|] == idx && values[..|idx|] == values;
  }

  /** Without duplicates the scatter is determined. */
  lemma ScatteredAt<T>(zero: T, values: seq<T>, idx: seq<nat>, n: nat, out: seq<T>, i: nat)
    requires |values| == |idx| && Below(idx, n) && Distinct(idx) && Scattered(zero, values, idx, n, out) && i < |idx|
    ensures |out| == n && out[idx[i]] == values[i]
  {
    var j := idx[i];
    assert j in idx;
    var k :| 0 <= k < |idx| && idx[k] == j && values[k] == out[j];
  }

  /** Gathering what was scattered gives the values back. */
  lemma GatherUndoesScatter<T>(zero: T, values: seq<T>, idx: seq<nat>, n: nat, out: seq<T>)
    requires |values| == |idx| && Below(idx, n) && Distinct(idx) && Scattered(zero, values, idx, n, out)
    ensures Select(out, idx) == values
  {
    forall i: nat | i < |idx| ensures out[idx[i]] == values[i] {
      ScatteredAt(zero, values, idx, n, out, i);
    }
  }

  // ----- the gradients are adjoints ----------------------------------------------------------

  function Mul(a: real, b: real): real {
    a * b
  }

  function Dot(a: seq<real>, b: seq<real>): real
    requires |a| == |b|
  {
    if a == [] then 0.0 else Dot(a[..|a| - 1], b[..|b| - 1]) + Mul(a[|a| - 1], b[|b| - 1])
  }

  lemma {:induction false} DotComm(a: seq<real>, b: seq<real>)
    requires |a| == |b|
    ensures Dot(a, b) == Dot(b, a)
    decreases |a|
  {
    if a != [] { DotComm(a[..|a| - 1], b[..|b| - 1]); }
  }

  lemma {:induction false} DotUpdate(x: seq<real>, s: seq<real>, j: nat, v: real)
    requires |x| == |s| && j < |s| && s[j] == 0.0
    ensures Dot(x, s[j := v]) == Dot(x, s) + Mul(x[j], v)
    decreases |s|
  {
    var n := |s| - 1;
    if j < n {
      DotUpdate(x[..n], s[..n], j, v);
      assert s[j := v][..n] == s[..n][j := v];
    } else {
      assert s[j := v][..n] == s[..n];
    }
  }

  lemma {:induction false} DotZero(x: seq<real>, s: seq<real>)
    requires |x| == |s| && forall j | 0 <= j < |s| :: s[j] == 0.0
    ensures Dot(x, s) == 0.0
    decreases |s|
  {
    if s != [] { DotZero(x[..|s| - 1], s[..|s| - 1]); }
  }

  /** <gather(x), g> = <x, scatter(g)> */
  ghost predicate AdjointAt(x: seq<real>, g: seq<real>, out: seq<real>, idx: seq<nat>)
    requires |g| == |idx| && Below(idx, |x|) && |out| == |x|
  {
    Dot(Select(x, idx), g) == Dot(x, out)
  }

  lemma {:induction false} DistinctIsAdjoint(x: seq<real>, g: seq<real>, out: seq<real>, idx: seq<nat>)
    requires |g| == |idx| && Below(idx, |x|) && Distinct(idx) && Scattered(0.0, g, idx, |x|, out)
    ensures AdjointAt(x, g, out, idx)
    decreases |idx|
  {
    if idx == [] {
      DotZero(x, out);
    } else {
      hide Scattered, Distinct, Dot, Select, Mul;
      var m := |idx| - 1;
      var j := idx[m];
      ScatteredAt(0.0, g, idx, |x|, out, m);
      var less := out[j := 0.0];
      assert less[j := g[m]] == out;
      ScatteredLess(g, idx, |x|, out);
      DistinctIsAdjoint(x, g[..m], less, idx[..m]);
      GatherPush(x, idx, g);
      DotUpdate(x, less, j, g[m]);
    }
  }

  lemma GatherPush(x: seq<real>, idx: seq<nat>, g: seq<real>)
    requires |g| == |idx| > 0 && Below(idx, |x|)
    ensures var m := |idx| - 1; Dot(Select(x, idx), g) == Dot(Select(x, idx[..m]), g[..m]) + Mul(x[idx[m]], g[m])
  {
    var m := |idx| - 1;
    assert Select(x, idx)[..m] == Select(x, idx[..m]);
  }

  lemma ScatteredLess(g: seq<real>, idx: seq<nat>, n: nat, out: seq<real>)
    requires |g| == |idx| > 0 && Below(idx, n) && Distinct(idx) && Scattered(0.0, g, idx, n, out)
    ensures var m := |idx| - 1;
      |out| == n && Distinct(idx[..m]) && Scattered(0.0, g[..m], idx[..m], n, out[idx[m] := 0.0])
  {
    var m := |idx| - 1;
    var j, less := idx[m], out[idx[m] := 0.0];
    assert idx == idx[..m] + [j];
    forall p | 0 <= p < n && p in idx[..m] ensures WrittenBy(g[..m], idx[..m], p, less[p]) {
      var k :| 0 <= k < m && idx[..m][k] == p;
      ScatteredAt(0.0, g, idx, n, out, k);
      assert idx[..m][k] == p && g[..m][k] == less[p];
    }
  }

  /** <scatter(v), h> = <v, gather(h)> */
  ghost predicate PutAdjointAt(v: seq<real>, h: seq<real>, out: seq<real>, idx: seq<nat>)
    requires |v| == |idx| && Below(idx, |h|) && |out| == |h|
  {
    Dot(out, h) == Dot(v, Select(h, idx))
  }

  /** Both products are the same numbers, taken the other way round. */
  lemma SameIdentity(x: seq<real>, g: seq<real>, out: seq<real>, idx: seq<nat>)
    requires |g| == |idx| && Below(idx, |x|) && |out| == |x|
    ensures AdjointAt(x, g, out, idx) <==> PutAdjointAt(g, x, out, idx)
  {
    DotComm(Select(x, idx), g);
    DotComm(x, out);
  }

  /** IndexFirstAxis: scattering is the adjoint of gathering. */
  ghost predicate FirstAxisIsAdjoint(idx: seq<nat>, n: nat)
    requires Below(idx, n)
  {
    forall x: seq<real>, g: seq<real>, out: seq<real> | |x| == n && |g| == |idx| && Scattered(0.0, g, idx, n, out) ::
      AdjointAt(x, g, out, idx)
  }

  /** IndexPutFirstAxis: gathering is the adjoint of scattering. */
  ghost predicate PutFirstAxisIsAdjoint(idx: seq<nat>, n: nat)
    requires Below(idx, n)
  {
    forall h: seq<real>, v: seq<real>, out: seq<real> | |h| == n && |v| == |idx| && Scattered(0.0, v, idx, n, out) ::
      PutAdjointAt(v, h, out, idx)
  }

  /** Each of the two hand-written backward passes is the adjoint of its forward pass exactly when no index occurs
      twice. */
  lemma AdjointIff(idx: seq<nat>, n: nat)
    requires Below(idx, n)
    ensures FirstAxisIsAdjoint(idx, n) <==> Distinct(idx)
    ensures PutFirstAxisIsAdjoint(idx, n) <==> Distinct(idx)
  {
    if Distinct(idx) {
      forall x: seq<real>, g: seq<real>, out: seq<real> | |x| == n && |g| == |idx| && Scattered(0.0, g, idx, n, out)
        ensures AdjointAt(x, g, out, idx) && PutAdjointAt(g, x, out, idx)
      {
        DistinctIsAdjoint(x, g, out, idx);
        SameIdentity(x, g, out, idx);
      }
    } else {
      var i, j :| 0 <= i < j < |idx| && idx[i] == idx[j];
      DuplicateBreaks(idx, n, i, j);
      SameIdentity(Unit(n, idx[i]), Ones(|idx|), Hits(idx, n), idx);
    }
  }

  function Ones(n: nat): (r: seq<real>)
    ensures |r| == n
  {
    seq(n, _ => 1.0)
  }

  function Unit(n: nat, j: nat): (r: seq<real>)
    ensures |r| == n
  {
    seq(n, i => if i == j then 1.0 else 0.0)
  }

  /** What scattering ones leaves. */
  function Hits(idx: seq<nat>, n: nat): (r: seq<real>)
    ensures |r| == n
  {
    seq(n, j requires 0 <= j < n => if j in idx then 1.0 else 0.0)
  }

  lemma OnesScattered(idx: seq<nat>, n: nat)
    requires Below(idx, n)
    ensures Scattered(0.0, Ones(|idx|), idx, n, Hits(idx, n))
  {
    forall j | 0 <= j < n && j in idx ensures WrittenBy(Ones(|idx|), idx, j, 1.0) {
      var i :| 0 <= i < |idx| && idx[i] == j;
      assert Ones(|idx|)[i] == 1.0;
    }
  }

  lemma {:induction false} DotUnit(n: nat, j: nat, s: seq<real>)
    requires |s| == n
    ensures Dot(Unit(n, j), s) == if j < n then s[j] else 0.0
    decreases n
  {
    if n > 0 {
      assert Unit(n, j)[..n - 1] == Unit(n - 1, j);
      DotUnit(n - 1, j, s[..n - 1]);
    }
  }

  function Count(idx: seq<nat>, v: nat): nat {
    if idx == [] then 0 else Count(idx[..|idx| - 1], v) + if idx[|idx| - 1] == v then 1 else 0
  }

  lemma {:induction false} DotOnes(idx: seq<nat>, n: nat, v: nat)
    requires Below(idx, n)
    ensures Dot(Select(Unit(n, v), idx), Ones(|idx|)) == Count(idx, v) as real
    decreases |idx|
  {
    if idx != [] {
      var m := |idx| - 1;
      DotOnes(idx[..m], n, v);
      assert Ones(|idx|)[..m] == Ones(m);
      GatherPush(Unit(n, v), idx, Ones(|idx|));
      hide Dot, Select;
    }
  }

  lemma {:induction false} CountTwice(idx: seq<nat>, i: nat, j: nat)
    requires i < j < |idx| && idx[i] == idx[j]
    ensures Count(idx, idx[i]) >= 2
    decreases |idx|
  {
    var m := |idx| - 1;
    if j < m {
      CountTwice(idx[..m], i, j);
    } else {
      CountOnce(idx[..m], i);
    }
  }

  lemma {:induction false} CountOnce(idx: seq<nat>, i: nat)
    requires i < |idx|
    ensures Count(idx, idx[i]) >= 1
    decreases |idx|
  {
    if i < |idx| - 1 { CountOnce(idx[..|idx| - 1], i); }
  }

  /** With a duplicate the pass keeps one of the values where the gradient is their sum. */
  lemma DuplicateBreaks(idx: seq<nat>, n: nat, i: nat, j: nat)
    requires Below(idx, n) && i < j < |idx| && idx[i] == idx[j]
    ensures var x, g, out := Unit(n, idx[i]), Ones(|idx|), Hits(idx, n);
      Scattered(0.0, g, idx, n, out) && !AdjointAt(x, g, out, idx)
  {
    var v := idx[i];
    OnesScattered(idx, n);
    DotOnes(idx, n, v);
    DotUnit(n, v, Hits(idx, n));
    CountTwice(idx, i, j);
    hide Dot, Count;
    assert v in idx && Hits(idx, n)[v] == 1.0;
  }

  // ----- unpad_input -------------------------------------------------------------------------

  /** `torch.nonzero(mask)` of a flat mask */
  function NonZero(mask: seq<nat>): seq<nat> {
    if mask == [] then []
    else NonZero(mask[..|mask| - 1]) + if mask[|mask| - 1] != 0 then [|mask| - 1] else []
  }

  /** `F.pad(torch.cumsum(seqlens), (1, 0))` */
  function CuSeqlens(lens: seq<nat>): (r: seq<nat>)
    ensures |r| == |lens| + 1
    decreases |lens|
  {
    if lens == [] then [0]
    else
      var r := CuSeqlens(lens[..|lens| - 1]);
      r + [r[|lens| - 1] + lens[|lens| - 1]]
  }

  function RowSums(mask: seq<seq<nat>>): (r: seq<nat>)
    ensures |r| == |mask|
  {
    seq(|mask|, i requires 0 <= i < |mask| => Total(mask[i]))
  }

  /** The dtype of `attention_mask + unused_mask`: on two bool tensors `+` is logical or. */
  datatype MaskType = Bool | Int

  function AddEntries(kind: MaskType, a: nat, b: nat): nat {
    if kind.Bool? then (if a != 0 || b != 0 then 1 else 0) else a + b
  }

  function AddMasks(kind: MaskType, a: seq<seq<nat>>, b: seq<seq<nat>>): (r: seq<seq<nat>>)
    requires SameShape(a, b)
    ensures SameShape(r, a)
  {
    seq(|a|, i requires 0 <= i < |a| =>
      seq(|a[i]|, j requires 0 <= j < |a[i]| => AddEntries(kind, a[i][j], b[i][j])))
  }

  predicate SameShape<S, T>(a: seq<seq<S>>, b: seq<seq<T>>) {
    |a| == |b| && forall i | 0 <= i < |a| :: |a[i]| == |b[i]|
  }

  datatype Unpadded<T> = Unpadded(hidden: seq<T>, indices: seq<nat>, cuSeqlens: seq<nat>, maxSeqlen: nat, seqused: seq<nat>)

  function AllMasks(kind: MaskType, mask: seq<seq<nat>>, unused: Option<seq<seq<nat>>>): (r: seq<seq<nat>>)
    requires unused.Some? ==> SameShape(mask, unused.value)
    ensures SameShape(r, mask)
  {
    if unused.Some? then AddMasks(kind, mask, unused.value) else mask
  }

  /** A position is selected exactly if either mask selects it; integer masks count it once for each. */
  lemma EitherMaskSelects(kind: MaskType, mask: seq<seq<nat>>, unused: seq<seq<nat>>, b: nat, j: nat)
    requires SameShape(mask, unused) && b < |mask| && j < |mask[b]|
    ensures var all, x, y := AllMasks(kind, mask, Some(unused)), mask[b][j], unused[b][j];
      && |all[b]| == |mask[b]|
      && (all[b][j] != 0 <==> x != 0 || y != 0)
      && (kind.Int? ==> all[b][j] == x + y) && (kind.Bool? ==> all[b][j] <= 1)
    ensures AllMasks(kind, mask, None) == mask
  {
  }

  lemma {:induction false} NonZeroBelow(mask: seq<nat>)
    ensures Below(NonZero(mask), |mask|) && Distinct(NonZero(mask))
    ensures forall p: nat | p < |mask| :: p in NonZero(mask) <==> mask[p] != 0
  {
    if mask != [] {
      NonZeroBelow(mask[..|mask| - 1]);
    }
  }

  lemma {:induction false} ConcatSameLength<S, T>(a: seq<seq<S>>, b: seq<seq<T>>)
    requires SameShape(a, b)
    ensures |Concat(a)| == |Concat(b)|
    decreases |a|
  {
    if a != [] { ConcatSameLength(a[1..], b[1..]); }
  }

  function UnpadInput<T>(
    hidden: seq<seq<T>>, kind: MaskType, mask: seq<seq<nat>>, unused: Option<seq<seq<nat>>>): Option<Unpadded<T>>
    requires SameShape(hidden, mask) && (unused.Some? ==> SameShape(mask, unused.value))
  {
    if mask == [] then None
    else
      var all := AllMasks(kind, mask, unused);
      var idx := NonZero(Concat(all));
      NonZeroBelow(Concat(all));
      ConcatSameLength(hidden, all);
      Some(Unpadded(Select(Concat(hidden), idx), idx, CuSeqlens(RowSums(all)), MaxOf(RowSums(all)), RowSums(mask)))
  }

  // ----- packing is row by row ---------------------------------------------------------------

  /** The selected tokens of one row, in order. */
  function Selected<T>(row: seq<T>, mask: seq<nat>): seq<T>
    requires |row| == |mask|
  {
    if row == [] then []
    else Selected(row[..|row| - 1], mask[..|mask| - 1]) + if mask[|mask| - 1] != 0 then [row[|row| - 1]] else []
  }

  lemma {:induction false} GatherSelected<T>(row: seq<T>, mask: seq<nat>)
    requires |row| == |mask|
    ensures Below(NonZero(mask), |row|) && Select(row, NonZero(mask)) == Selected(row, mask)
    decreases |row|
  {
    NonZeroBelow(mask);
    if row != [] {
      var n := |row| - 1;
      GatherSelected(row[..n], mask[..n]);
    }
  }

  lemma SelectedLast<T>(row: seq<T>, mask: seq<nat>)
    requires |row| == |mask| > 0
    ensures var k := |row| - 1;
      Selected(row, mask) == Selected(row[..k], mask[..k]) + if mask[k] != 0 then [row[k]] else []
  {
  }

  lemma {:induction false} SelectedConcat<T>(a: seq<T>, b: seq<T>, m: seq<nat>, n: seq<nat>)
    requires |a| == |m| && |b| == |n|
    ensures Selected(a + b, m + n) == Selected(a, m) + Selected(b, n)
    decreases |b|
  {
    if b == [] {
      assert a + b == a && m + n == m;
    } else {
      var k := |b| - 1;
      assert (a + b)[..|a| + k] == a + b[..k] && (m + n)[..|m| + k] == m + n[..k];
      SelectedConcat(a, b[..k], m, n[..k]);
      SelectedLast(a + b, m + n);
      SelectedLast(b, n);
      hide Selected;
    }
  }

  function SelectedRows<T>(hidden: seq<seq<T>>, mask: seq<seq<nat>>): (r: seq<seq<T>>)
    requires SameShape(hidden, mask)
    ensures |r| == |hidden|
  {
    seq(|hidden|, i requires 0 <= i < |hidden| => Selected(hidden[i], mask[i]))
  }

  lemma {:induction false} SelectedOfConcat<T>(hidden: seq<seq<T>>, mask: seq<seq<nat>>)
    requires SameShape(hidden, mask)
    ensures |Concat(hidden)| == |Concat(mask)|
    ensures Selected(Concat(hidden), Concat(mask)) == Concat(SelectedRows(hidden, mask))
    decreases |hidden|
  {
    ConcatSameLength(hidden, mask);
    if hidden != [] {
      SelectedOfConcat(hidden[1..], mask[1..]);
      SelectedConcat(hidden[0], Concat(hidden[1..]), mask[0], Concat(mask[1..]));
      assert SelectedRows(hidden, mask)[1..] == SelectedRows(hidden[1..], mask[1..]);
    }
  }

  /** The packed tokens are the rows' selected tokens, row after row. */
  lemma PackedByRow<T>(hidden: seq<seq<T>>, kind: MaskType, mask: seq<seq<nat>>, unused: Option<seq<seq<nat>>>)
    requires SameShape(hidden, mask) && (unused.Some? ==> SameShape(mask, unused.value)) && mask != []
    ensures var u := UnpadInput(hidden, kind, mask, unused);
      u.Some? && u.value.hidden == Concat(SelectedRows(hidden, AllMasks(kind, mask, unused)))
  {
    var all := AllMasks(kind, mask, unused);
    SelectedOfConcat(hidden, all);
    GatherSelected(Concat(hidden), Concat(all));
  }

  // ----- cumulative lengths ------------------------------------------------------------------

  lemma {:induction false} CuAt(lens: seq<nat>, i: nat)
    requires i < |lens|
    ensures CuSeqlens(lens)[0] == 0 && CuSeqlens(lens)[i + 1] == CuSeqlens(lens)[i] + lens[i]
    decreases |lens|
  {
    var n := |lens| - 1;
    if i < n {
      CuAt(lens[..n], i);
    } else if n > 0 {
      CuAt(lens[..n], 0);
    }
  }

  ghost predicate ZeroOne(mask: seq<nat>) {
    forall j | 0 <= j < |mask| :: mask[j] <= 1
  }

  /** The sum of a mask row is the number of its selected tokens exactly when no entry exceeds one. */
  lemma {:induction false} SumCounts<T>(row: seq<T>, mask: seq<nat>)
    requires |row| == |mask|
    ensures |Selected(row, mask)| <= Total(mask)
    ensures |Selected(row, mask)| == Total(mask) <==> ZeroOne(mask)
    decreases |row|
  {
    if row != [] {
      var n := |row| - 1;
      SumCounts(row[..n], mask[..n]);
    }
  }

  /** Entry b to entry b + 1 of the cumulative lengths cuts out row b. */
  ghost predicate CutsRow<T>(packed: seq<T>, cu: seq<nat>, b: nat, row: seq<T>)
    requires b + 1 < |cu|
  {
    cu[b] <= cu[b + 1] <= |packed| && packed[cu[b]..cu[b + 1]] == row
  }

  lemma {:induction false} CuIsLength<T>(rows: seq<seq<T>>, lens: seq<nat>, b: nat)
    requires |rows| == |lens| && b <= |lens| && forall i | 0 <= i < |lens| :: |rows[i]| == lens[i]
    ensures CuSeqlens(lens)[b] == |Concat(rows[..b])|
    decreases b
  {
    if b == 0 {
      if lens != [] { CuAt(lens, 0); }
    } else {
      CuIsLength(rows, lens, b - 1);
      CuAt(lens, b - 1);
      assert rows[..b] == rows[..b - 1] + [rows[b - 1]];
      ConcatSplit(rows[..b - 1], [rows[b - 1]]);
      assert Concat([rows[b - 1]]) == rows[b - 1];
    }
  }

  lemma RowCut<T>(rows: seq<seq<T>>, lens: seq<nat>, b: nat)
    requires |rows| == |lens| && b < |lens| && forall i | 0 <= i < |lens| :: |rows[i]| == lens[i]
    ensures CutsRow(Concat(rows), CuSeqlens(lens), b, rows[b])
  {
    CuIsLength(rows, lens, b);
    CuAt(lens, b);
    var x, y := rows[..b], rows[b + 1..];
    assert rows == x + [rows[b]] + y;
    ConcatSplit(x + [rows[b]], y);
    ConcatSplit(x, [rows[b]]);
    assert Concat([rows[b]]) == rows[b];
  }

  /** Entry by entry: the slices are the rows' selected tokens. */
  ghost predicate CutsRows<T>(packed: seq<T>, cu: seq<nat>, rows: seq<seq<T>>) {
    |cu| == |rows| + 1 && forall b: nat | b < |rows| :: CutsRow(packed, cu, b, rows[b])
  }

  ghost predicate ZeroOnes(masks: seq<seq<nat>>) {
    forall b: nat | b < |masks| :: ZeroOne(masks[b])
  }

  /** The sums of the masks cut the rows exactly when no entry of the added masks exceeds one. */
  lemma AddedMasksCutIff<T>(hidden: seq<seq<T>>, kind: MaskType, mask: seq<seq<nat>>, unused: Option<seq<seq<nat>>>)
    requires SameShape(hidden, mask) && (unused.Some? ==> SameShape(mask, unused.value)) && mask != []
    ensures var u, all := UnpadInput(hidden, kind, mask, unused).value, AllMasks(kind, mask, unused);
      CutsRows(u.hidden, u.cuSeqlens, SelectedRows(hidden, all)) <==> ZeroOnes(all)
  {
    hide Selected, ZeroOne, Total, CuSeqlens, Concat, NonZero, MaxOf;
    var u, all := UnpadInput(hidden, kind, mask, unused).value, AllMasks(kind, mask, unused);
    var rows, lens := SelectedRows(hidden, all), RowSums(all);
    PackedByRow(hidden, kind, mask, unused);
    forall b: nat | b < |mask| ensures |rows[b]| == lens[b] <==> ZeroOne(all[b]) {
      SumCounts(hidden[b], all[b]);
    }
    if forall b: nat | b < |mask| :: ZeroOne(all[b]) {
      forall b: nat | b < |mask| ensures CutsRow(u.hidden, u.cuSeqlens, b, rows[b]) {
        RowCut(rows, lens, b);
      }
    }
    if forall b: nat | b < |mask| :: CutsRow(u.hidden, u.cuSeqlens, b, rows[b]) {
      forall b: nat | b < |mask| ensures ZeroOne(all[b]) {
        assert CutsRow(u.hidden, u.cuSeqlens, b, rows[b]);
        CuAt(lens, b);
      }
    }
  }

  /** A bool tensor has no other entries than 0 and 1. */
  ghost predicate OfType(kind: MaskType, mask: seq<seq<nat>>) {
    kind.Bool? ==> ZeroOnes(mask)
  }

  /** The slices between consecutive cumulative lengths are the rows' selected tokens if and only if the masks are bool
      tensors or no entry of their integer sum exceeds one, in particular no position is both attended and unused. */
  lemma CuSeqlensCutRowsIff<T>(hidden: seq<seq<T>>, kind: MaskType, mask: seq<seq<nat>>, unused: Option<seq<seq<nat>>>)
    requires SameShape(hidden, mask) && (unused.Some? ==> SameShape(mask, unused.value)) && mask != []
    requires OfType(kind, mask) && (unused.Some? ==> OfType(kind, unused.value))
    ensures var u := UnpadInput(hidden, kind, mask, unused).value;
      CutsRows(u.hidden, u.cuSeqlens, SelectedRows(hidden, AllMasks(kind, mask, unused))) <==>
        kind.Bool? || ZeroOnes(AllMasks(Int, mask, unused))
  {
    hide UnpadInput, CutsRows;
    AddedMasksCutIff(hidden, kind, mask, unused);
  }

  /** For masks of zeros and ones, `max_seqlen_in_batch` is the number of selected tokens of the fullest row. */
  lemma MaxSeqlenIsFullest<T>(
    hidden: seq<seq<T>>, kind: MaskType, mask: seq<seq<nat>>, unused: Option<seq<seq<nat>>>) returns (b: nat)
    requires SameShape(hidden, mask) && (unused.Some? ==> SameShape(mask, unused.value)) && mask != []
    requires ZeroOnes(AllMasks(kind, mask, unused))
    ensures var u, rows := UnpadInput(hidden, kind, mask, unused).value, SelectedRows(hidden, AllMasks(kind, mask, unused));
      && b < |rows| && u.maxSeqlen == |rows[b]| && forall a | 0 <= a < |rows| :: |rows[a]| <= u.maxSeqlen
  {
    hide Selected, ZeroOne, Total, CuSeqlens, Concat, NonZero, MaxOf;
    var all := AllMasks(kind, mask, unused);
    var lens := RowSums(all);
    b := MaxIsSome(lens);
    forall a | 0 <= a < |mask| ensures |Selected(hidden[a], all[a])| == lens[a] <= MaxOf(lens) {
      SumCounts(hidden[a], all[a]);
      MaxIsMax(lens, a);
    }
  }

  /** `seqused` has the numbers of tokens of each row that `attention_mask` alone selects, exactly for entries up to one. */
  lemma SeqUsedCountsIff<T>(
    hidden: seq<seq<T>>, kind: MaskType, mask: seq<seq<nat>>, unused: Option<seq<seq<nat>>>, b: nat)
    requires SameShape(hidden, mask) && (unused.Some? ==> SameShape(mask, unused.value)) && b < |mask|
    ensures var u := UnpadInput(hidden, kind, mask, unused).value;
      |u.seqused| == |mask| && (u.seqused[b] == |Selected(hidden[b], mask[b])| <==> ZeroOne(mask[b]))
  {
    hide Selected, ZeroOne, Total, CuSeqlens, Concat, NonZero, MaxOf;
    SumCounts(hidden[b], mask[b]);
  }

  // ----- pad_input ---------------------------------------------------------------------------

  /** `rearrange(output, "(b s) ... -> b s ...", b=batch)` */
  function Rows<T>(out: seq<T>, batch: nat, seqlen: nat): (r: seq<seq<T>>)
    requires |out| == batch * seqlen
    ensures |r| == batch
  {
    seq(batch, i requires 0 <= i < batch => Arithmetic.BlockBefore(i, batch, seqlen); out[i * seqlen..i * seqlen + seqlen])
  }

  method PadInput<T>(zero: T, hidden: seq<T>, indices: seq<nat>, batch: nat, seqlen: nat) returns (r: seq<seq<T>>)
    requires |hidden| == |indices| && Below(indices, batch * seqlen)
    ensures PadsTo(zero, hidden, indices, batch, seqlen, r)
  {
    hide Scattered;
    var output := Scatter(zero, hidden, indices, batch * seqlen);
    ScatteredLength(zero, hidden, indices, batch * seqlen, output[..]);
    RowsConcat(output[..], batch, seqlen, batch);
    r := Rows(output[..], batch, seqlen);
    assert r[..batch] == r && output[..][..batch * seqlen] == output[..];
  }

  /** A padded batch whose rows, laid end to end, are a scatter of the tokens into zeros. */
  ghost predicate PadsTo<T>(zero: T, hidden: seq<T>, indices: seq<nat>, batch: nat, seqlen: nat, r: seq<seq<T>>)
    requires |hidden| == |indices|
  {
    |r| == batch && Rectangular(r, seqlen) && Scattered(zero, hidden, indices, batch * seqlen, Concat(r))
  }

  lemma {:induction false} RowsConcat<T>(out: seq<T>, batch: nat, seqlen: nat, n: nat)
    requires |out| == batch * seqlen && n <= batch
    ensures Rectangular(Rows(out, batch, seqlen), seqlen)
    ensures 0 <= n * seqlen <= |out| && Concat(Rows(out, batch, seqlen)[..n]) == out[..n * seqlen]
    decreases n
  {
    var r := Rows(out, batch, seqlen);
    forall i: nat | i < batch ensures |r[i]| == seqlen {
      Arithmetic.BlockBefore(i, batch, seqlen);
    }
    if n > 0 {
      Arithmetic.BlockBefore(n - 1, batch, seqlen);
      RowsConcat(out, batch, seqlen, n - 1);
      assert r[..n] == r[..n - 1] + [r[n - 1]];
      ConcatSplit(r[..n - 1], [r[n - 1]]);
      assert Concat([r[n - 1]]) == r[n - 1];
    }
  }

  lemma ScatteredLength<T>(zero: T, values: seq<T>, idx: seq<nat>, n: nat, out: seq<T>)
    requires |values| == |idx| && Scattered(zero, values, idx, n, out)
    ensures |out| == n
  {
  }

  ghost predicate Rectangular<T>(rows: seq<seq<T>>, seqlen: nat) {
    forall i | 0 <= i < |rows| :: |rows[i]| == seqlen
  }

  lemma {:induction false} ConcatAt<T>(rows: seq<seq<T>>, seqlen: nat, i: nat, j: nat)
    requires Rectangular(rows, seqlen) && i < |rows| && j < seqlen
    ensures |Concat(rows)| == |rows| * seqlen && 0 <= i * seqlen + j < |Concat(rows)|
    ensures Concat(rows)[i * seqlen + j] == rows[i][j]
    decreases |rows|
  {
    ConcatLength(rows, seqlen);
    Arithmetic.BlockBefore(i, |rows|, seqlen);
    assert Concat(rows) == rows[0] + Concat(rows[1..]);
    hide Concat;
    if i > 0 {
      ConcatAt(rows[1..], seqlen, i - 1, j);
      var p := (i - 1) * seqlen + j;
      assert i * seqlen + j == seqlen + p;
      assert (rows[0] + Concat(rows[1..]))[seqlen + p] == Concat(rows[1..])[p];
    }
  }

  /** On the flat batch: selected tokens are restored, the rest is zero. */
  lemma PadFlat<T>(zero: T, flat: seq<T>, mask: seq<nat>, out: seq<T>, p: nat)
    requires |flat| == |mask| && p < |mask| && Below(NonZero(mask), |flat|)
    requires Scattered(zero, Select(flat, NonZero(mask)), NonZero(mask), |mask|, out)
    ensures |out| == |mask| && out[p] == if mask[p] != 0 then flat[p] else zero
  {
    var idx := NonZero(mask);
    NonZeroBelow(mask);
    if mask[p] != 0 {
      var k :| 0 <= k < |idx| && idx[k] == p;
      ScatteredAt(zero, Select(flat, idx), idx, |mask|, out, k);
    }
  }

  /** pad_input after unpad_input restores the selected tokens and zeroes the rest. */
  lemma PadAfterUnpad<T>(
    zero: T, hidden: seq<seq<T>>, kind: MaskType, mask: seq<seq<nat>>, unused: Option<seq<seq<nat>>>, seqlen: nat,
    r: seq<seq<T>>, i: nat, j: nat)
    requires SameShape(hidden, mask) && (unused.Some? ==> SameShape(mask, unused.value)) && mask != []
    requires Rectangular(hidden, seqlen) && i < |hidden| && j < seqlen
    requires var u := UnpadInput(hidden, kind, mask, unused).value;
      PadsTo(zero, u.hidden, u.indices, |hidden|, seqlen, r)
    ensures |r| == |hidden| && |AllMasks(kind, mask, unused)[i]| == |r[i]| == seqlen
    ensures r[i][j] == if AllMasks(kind, mask, unused)[i][j] != 0 then hidden[i][j] else zero
  {
    hide Scattered, NonZero, Select, Concat, CuSeqlens, MaxOf, RowSums;
    var all := AllMasks(kind, mask, unused);
    ConcatAt(hidden, seqlen, i, j);
    ConcatAt(all, seqlen, i, j);
    ConcatAt(r, seqlen, i, j);
    NonZeroBelow(Concat(all));
    hide AllMasks;
    PadFlat(zero, Concat(hidden), Concat(all), Concat(r), i * seqlen + j);
  }

  /** unpad_input's gather after pad_input gives the packed tokens back. */
  lemma UnpadAfterPad<T>(zero: T, values: seq<T>, mask: seq<nat>, out: seq<T>)
    requires |values| == |NonZero(mask)| && Scattered(zero, values, NonZero(mask), |mask|, out)
    ensures Below(NonZero(mask), |out|) && Select(out, NonZero(mask)) == values
  {
    NonZeroBelow(mask);
    GatherUndoesScatter(zero, values, NonZero(mask), |mask|, out);
  }
}
