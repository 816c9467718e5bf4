/**
  convert_qkv_shard of verl/utils/megatron_utils.py with fewer key/value heads than tensor-parallel ranks: every rank has
  one query group and a copy of a key and a value head, of which the conversion keeps one each.
*/
module QkvReplicated {
  import opened Arithmetic
  import opened Sequences
  import opened TorchChunk
  import opened Wrappers
  import opened QkvLayout

  /** One query group per rank; `rep` consecutive ranks share a key/value head; `a` query rows per rank. */
  ghost predicate Shared(c: Config, rep: nat, a: nat) {
    && c.kvHeads > 0 && rep >= 2 && c.tp == c.kvHeads * rep && c.groups == c.tp && c.headDim * c.heads == c.tp * a
  }

  ghost predicate AllOf<T>(parts: seq<seq<T>>, n: nat, len: nat) {
    |parts| == n && forall i | 0 <= i < n :: |parts[i]| == len
  }

  /** The queries of the ranks, and the key and value heads. */
  ghost predicate Fit<T>(qs: seq<seq<T>>, ks: seq<seq<T>>, vs: seq<seq<T>>, c: Config, rep: nat, a: nat) {
    Shared(c, rep, a) && AllOf(qs, c.tp, a) && AllOf(ks, c.kvHeads, c.headDim) && AllOf(vs, c.kvHeads, c.headDim)
  }

  lemma HeadOf(c: Config, rep: nat, a: nat, i: nat)
    requires Shared(c, rep, a) && i < c.tp
    ensures Div(i, rep) < c.kvHeads
  {
    var q, r := i / rep, i % rep;
    assert i == q * rep + r;
    if q >= c.kvHeads { MulMono(c.kvHeads, q, rep); }
  }

  /** What rank i has. */
  function RankPart<T>(qs: seq<seq<T>>, ks: seq<seq<T>>, vs: seq<seq<T>>, rep: nat, i: nat): seq<T>
    requires i < |qs| && rep > 0 && Div(i, rep) < |ks| && Div(i, rep) < |vs|
  {
    qs[i] + ks[Div(i, rep)] + vs[Div(i, rep)]
  }

  /** The fused weight of the first i ranks. */
  ghost function Fused<T>(qs: seq<seq<T>>, ks: seq<seq<T>>, vs: seq<seq<T>>, c: Config, rep: nat, a: nat, i: nat): seq<T>
    requires Fit(qs, ks, vs, c, rep, a) && i <= c.tp
  {
    if i == 0 then []
    else
      HeadOf(c, rep, a, i - 1);
      Fused(qs, ks, vs, c, rep, a, i - 1) + RankPart(qs, ks, vs, rep, i - 1)
  }

  lemma RankSize<T>(qs: seq<seq<T>>, ks: seq<seq<T>>, vs: seq<seq<T>>, c: Config, rep: nat, a: nat, i: nat)
    requires Fit(qs, ks, vs, c, rep, a) && i < c.tp
    ensures Div(i, rep) < c.kvHeads && |RankPart(qs, ks, vs, rep, i)| == a + 2 * c.headDim
  {
    HeadOf(c, rep, a, i);
  }

  lemma {:induction false} FusedLength<T>(
    qs: seq<seq<T>>, ks: seq<seq<T>>, vs: seq<seq<T>>, c: Config, rep: nat, a: nat, n: nat)
    requires Fit(qs, ks, vs, c, rep, a) && n <= c.tp
    ensures |Fused(qs, ks, vs, c, rep, a, n)| == n * (a + 2 * c.headDim)
  {
    hide RankPart, Div, Fit;
    if n > 0 {
      FusedLength(qs, ks, vs, c, rep, a, n - 1);
      RankSize(qs, ks, vs, c, rep, a, n - 1);
      assert n * (a + 2 * c.headDim) == (n - 1) * (a + 2 * c.headDim) + (a + 2 * c.headDim);
    }
  }

  lemma {:induction false} FusedPart<T>(
    qs: seq<seq<T>>, ks: seq<seq<T>>, vs: seq<seq<T>>, c: Config, rep: nat, a: nat, i: nat, n: nat, size: nat)
    requires Fit(qs, ks, vs, c, rep, a) && i < n <= c.tp && size == a + 2 * c.headDim
    ensures Div(i, rep) < c.kvHeads && 0 <= i * size <= (i + 1) * size
    ensures Slice(Fused(qs, ks, vs, c, rep, a, n), i * size, (i + 1) * size) == RankPart(qs, ks, vs, rep, i)
    decreases n
  {
    hide RankPart, Div, Slice;
    RankSize(qs, ks, vs, c, rep, a, i);
    RankSize(qs, ks, vs, c, rep, a, n - 1);
    FusedLength(qs, ks, vs, c, rep, a, n - 1);
    var done, last := Fused(qs, ks, vs, c, rep, a, n - 1), RankPart(qs, ks, vs, rep, n - 1);
    assert (i + 1) * size == i * size + size;
    SliceOfConcat(done, last, i * size, (i + 1) * size);
    hide Fit;
    if i < n - 1 {
      MulMono(i + 1, n - 1, size);
      FusedPart(qs, ks, vs, c, rep, a, i, n - 1, size);
    }
  }

  lemma SliceOfConcat<T>(s: seq<T>, t: seq<T>, lo: nat, hi: nat)
    requires lo <= hi
    ensures hi <= |s| ==> Slice(s + t, lo, hi) == Slice(s, lo, hi)
    ensures lo == |s| && hi == |s| + |t| ==> Slice(s + t, lo, hi) == t
  {
  }

  /** How many heads the first i ranks have shown. */
  function Kept(i: nat, rep: nat): nat
    requires rep > 0
  {
    Div(i + rep - 1, rep)
  }

  lemma KeptSteps(i: nat, rep: nat)
    requires rep > 0
    ensures Multiple(i, rep) ==> Kept(i, rep) == Div(i, rep) && Kept(i + 1, rep) == Div(i, rep) + 1
    ensures !Multiple(i, rep) ==> Kept(i, rep) == Div(i, rep) + 1 == Kept(i + 1, rep)
  {
    var q, r := i / rep, i % rep;
    assert i == q * rep + r;
    assert Div(i, rep) == q && (Multiple(i, rep) <==> r == 0);
    hide Kept, Div, Multiple;
    KeptAt(i, q, r, rep);
    if r + 1 < rep {
      KeptAt(i + 1, q, r + 1, rep);
    } else {
      assert (q + 1) * rep == q * rep + rep;
      KeptAt(i + 1, q + 1, 0, rep);
    }
  }

  lemma KeptAt(i: nat, q: nat, r: nat, rep: nat)
    requires r < rep && i == q * rep + r
    ensures Kept(i, rep) == if r == 0 then q else q + 1
  {
    if r == 0 {
      DivMod(i + rep - 1, q, rep - 1, rep);
    } else {
      assert (q + 1) * rep == q * rep + rep;
      DivMod(i + rep - 1, q + 1, r - 1, rep);
    }
  }

  /** A rank keeps its key and value rows exactly if it is the first of those that share them. */
  lemma KeepsFirst(c: Config, rep: nat, a: nat, i: nat)
    requires Shared(c, rep, a)
    ensures c.tp > 0 && (KeepKv(c, i) <==> Multiple(i, rep))
  {
    var n, q, r := c.kvHeads, i / rep, i % rep;
    MulMono(1, n, rep);
    MulMono(2, rep, n);
    assert i == q * rep + r;
    assert i * n == q * (n * rep) + r * n;
    assert 0 <= r * n;
    MulMono(r, rep - 1, n);
    assert (rep - 1) * n == rep * n - n;
    DivMod(i * n, q, r * n, c.tp);
    if r > 0 { MulAtLeast(r, n); }
  }

  lemma SharedSizes(c: Config, rep: nat, a: nat)
    requires Shared(c, rep, a)
    ensures c.tp > 0 && c.kvHeads < c.tp && Div(c.groups, c.tp) == 1
    ensures QSizeTp(c) == a && KvSizeTp(c) == c.headDim && Div(a, 1) == a && Div(c.headDim, 1) == c.headDim
  {
    MulMono(2, rep, c.kvHeads);
    DivMod(c.tp, 1, 0, c.tp);
    DivMod(c.tp * a, a, 0, c.tp);
    DivMod(a, a, 0, 1);
    DivMod(c.headDim, c.headDim, 0, 1);
  }

  lemma OneChunk<T>(s: seq<T>)
    ensures Chunks(s, 1) == [s]
  {
    DivMod(|s|, |s|, 0, 1);
  }

  /** What rank i adds. */
  lemma RankAdds<T>(
    acc: Qkv<T>, qs: seq<seq<T>>, ks: seq<seq<T>>, vs: seq<seq<T>>, c: Config, rep: nat, a: nat, i: nat, full: seq<T>)
    requires Fit(qs, ks, vs, c, rep, a) && i < c.tp && full == Fused(qs, ks, vs, c, rep, a, c.tp)
    ensures c.tp > 0 && Div(c.groups, c.tp) > 0 && Div(i, rep) < c.kvHeads
    ensures AddPart(acc, full, c, i) == Qkv(
      acc.q + qs[i],
      acc.k + (if Multiple(i, rep) then ks[Div(i, rep)] else []),
      acc.v + (if Multiple(i, rep) then vs[Div(i, rep)] else []))
  {
    hide Div, Multiple, Chunks, Slice, KeepKv, QSizeTp, KvSizeTp, Fused;
    SharedSizes(c, rep, a);
    FusedPart(qs, ks, vs, c, rep, a, i, c.tp, a + 2 * c.headDim);
    KeepsFirst(c, rep, a, i);
    var part := RankPart(qs, ks, vs, rep, i);
    OneChunk(part);
    ThreeSlices(qs[i], ks[Div(i, rep)], vs[Div(i, rep)]);
    assert AddChunks(acc, [part], 1, a, c.headDim, KeepKv(c, i)) == AddChunk(acc, part, a, c.headDim, KeepKv(c, i));
  }

  lemma ThreeSlices<T>(q: seq<T>, k: seq<T>, v: seq<T>)
    ensures var s := q + k + v;
      Slice(s, 0, |q|) == q && Slice(s, |q|, |q| + |k|) == k && Slice(s, |q| + |k|, |s|) == v
  {
  }

  lemma {:induction false} RanksAdd<T>(
    qs: seq<seq<T>>, ks: seq<seq<T>>, vs: seq<seq<T>>, c: Config, rep: nat, a: nat, i: nat, full: seq<T>)
    requires Fit(qs, ks, vs, c, rep, a) && i <= c.tp && full == Fused(qs, ks, vs, c, rep, a, c.tp)
    ensures c.tp > 0 && Div(c.groups, c.tp) > 0 && Kept(i, rep) <= c.kvHeads
    ensures AddParts(full, c, i) ==
      Qkv(Concat(qs[..i]), Concat(ks[..Kept(i, rep)]), Concat(vs[..Kept(i, rep)]))
    decreases i
  {
    hide AddPart, Fused, Concat, Kept, Multiple, Div;
    SharedSizes(c, rep, a);
    if i == 0 {
      NoneKept(rep);
      NothingConcat(qs);
      NothingConcat(ks);
      NothingConcat(vs);
    } else {
      RanksAdd(qs, ks, vs, c, rep, a, i - 1, full);
      RankAdds(AddParts(full, c, i - 1), qs, ks, vs, c, rep, a, i - 1, full);
      KeptSteps(i - 1, rep);
      ConcatNext(qs, i - 1);
      if Multiple(i - 1, rep) {
        ConcatNext(ks, Div(i - 1, rep));
        ConcatNext(vs, Div(i - 1, rep));
      }
    }
  }

  lemma NoneKept(rep: nat)
    requires rep > 0
    ensures Kept(0, rep) == 0
  {
    DivMod(rep - 1, 0, rep - 1, rep);
  }

  lemma NothingConcat<T>(s: seq<seq<T>>)
    ensures s[..0] == [] && Concat(s[..0]) == []
  {
  }

  /** The conversion gives all queries in order, and each key and value head once. */
  lemma ReplicatedHeadsOnce<T>(qs: seq<seq<T>>, ks: seq<seq<T>>, vs: seq<seq<T>>, c: Config, rep: nat, a: nat)
    requires Fit(qs, ks, vs, c, rep, a)
    ensures Converted(Fused(qs, ks, vs, c, rep, a, c.tp), c) == Success(Qkv(Concat(qs), Concat(ks), Concat(vs)))
  {
    hide AddParts, Fused, Concat, Div;
    SharedSizes(c, rep, a);
    RanksAdd(qs, ks, vs, c, rep, a, c.tp, Fused(qs, ks, vs, c, rep, a, c.tp));
    AllKept(c.kvHeads, rep);
    assert qs[..c.tp] == qs && ks[..c.kvHeads] == ks && vs[..c.kvHeads] == vs;
  }

  lemma AllKept(n: nat, rep: nat)
    requires rep > 0
    ensures Kept(n * rep, rep) == n
  {
    DivMod(n * rep + rep - 1, n, rep - 1, rep);
  }
}
