/**
  Where the packing of verl/checkpoint_engine/nccl_checkpoint_engine.py and nixl_checkpoint_engine.py puts a weight,
  and when the receiving `merge_weight_chunks` of base.py can view it there: a weight that fits a bucket is handed out
  as a typed view of the bucket, which needs an offset divisible by the item size.
*/
module Alignment {
  import opened Arithmetic
  import opened Sequences
  import opened Wrappers
  import opened WeightChunks
  import opened Buckets
  import opened SendLoop

  // ----- the running offset, from sizes alone ------------------------------------------------

  /** A chunk goes behind the `used` bytes of the open bucket, or to the start of the next one. */
  function PlacedAt(used: nat, size: nat, bucketSize: nat): nat {
    if used + size <= bucketSize then used else 0
  }

  /** The bytes of the last chunk of a weight of n bytes that is larger than a bucket. */
  function LastPart(n: nat, bucketSize: nat): nat
    requires bucketSize > 0
  {
    if Multiple(n, bucketSize) then bucketSize else n % bucketSize
  }

  /** The bytes used in the open bucket after a weight of n bytes. */
  function UsedAfter(used: nat, n: nat, bucketSize: nat): nat
    requires bucketSize > 0
  {
    if n == 0 then used
    else if n <= bucketSize then PlacedAt(used, n, bucketSize) + n
    else LastPart(n, bucketSize)
  }

  function Used(ws: seq<Weight>, bucketSize: nat): nat
    requires bucketSize > 0
  {
    if ws == [] then 0 else UsedAfter(Used(ws[..|ws| - 1], bucketSize), |ws[|ws| - 1].data|, bucketSize)
  }

  /** Weight `w` does not fit a bucket, or is placed at a multiple of its item size. */
  predicate AlignedBehind(used: nat, w: Weight, bucketSize: nat) {
    0 < |w.data| <= bucketSize ==> Multiple(PlacedAt(used, |w.data|, bucketSize), w.dtype.itemsize)
  }

  /** Every weight that fits a bucket is placed at a multiple of its item size. */
  predicate AllAligned(ws: seq<Weight>, bucketSize: nat)
    requires bucketSize > 0
  {
    forall i | 0 <= i < |ws| :: AlignedBehind(Used(ws[..i], bucketSize), ws[i], bucketSize)
  }

  // ----- it is the offset of the packing loop ------------------------------------------------

  function PlaceFrom(used: nat, cs: seq<Chunk>, bucketSize: nat): seq<Chunk>
    decreases |cs|
  {
    if cs == [] then []
    else
      var at := PlacedAt(used, cs[0].meta.chunkSize, bucketSize);
      [PlaceAt(cs[0], at)] + PlaceFrom(at + cs[0].meta.chunkSize, cs[1..], bucketSize)
  }

  function UsedFrom(used: nat, cs: seq<Chunk>, bucketSize: nat): nat
    decreases |cs|
  {
    if cs == [] then used
    else
      var at := PlacedAt(used, cs[0].meta.chunkSize, bucketSize);
      UsedFrom(at + cs[0].meta.chunkSize, cs[1..], bucketSize)
  }

  /** All chunks packed so far, in order. */
  function Placed(p: Packing): seq<Chunk> {
    Concat(p.closed) + p.open
  }

  lemma PlaceOne(p: Packing, c: Chunk, bucketSize: nat)
    ensures var at := PlacedAt(p.offset, c.meta.chunkSize, bucketSize);
      && Placed(PackOne(p, c, bucketSize)) == Placed(p) + [PlaceAt(c, at)]
      && PackOne(p, c, bucketSize).offset == at + c.meta.chunkSize
  {
    ConcatPush(p.closed, p.open);
    hide Concat;
  }

  lemma {:induction false} PackOnto(a: seq<Chunk>, b: seq<Chunk>, bucketSize: nat)
    ensures var p, q := Pack(a, bucketSize), Pack(a + b, bucketSize);
      Placed(q) == Placed(p) + PlaceFrom(p.offset, b, bucketSize) && q.offset == UsedFrom(p.offset, b, bucketSize)
    decreases |b|
  {
    hide Placed, PackOne, PlacedAt;
    if b == [] {
      assert a + b == a;
    } else {
      assert a + b == (a + [b[0]]) + b[1..] && (a + [b[0]])[..|a|] == a;
      PlaceOne(Pack(a, bucketSize), b[0], bucketSize);
      PackOnto(a + [b[0]], b[1..], bucketSize);
    }
  }

  lemma {:induction false} LargeUsed(w: Weight, bucketSize: nat, off: nat, used: nat)
    requires bucketSize > 0 && off < |w.data| && (used == bucketSize || off + bucketSize <= |w.data|)
    ensures UsedFrom(used, ChunksFrom(w, bucketSize, off), bucketSize) == LastPart(|w.data| - off, bucketSize)
    decreases |w.data| - off
  {
    var cs, rest := ChunksFrom(w, bucketSize, off), |w.data| - off;
    var size := Min(bucketSize, rest);
    assert cs[1..] == ChunksFrom(w, bucketSize, off + size);
    hide ChunksFrom;
    if rest > bucketSize {
      LargeUsed(w, bucketSize, off + size, bucketSize);
      SameLastPart(rest, bucketSize);
    } else {
      LastPartOfSmall(rest, bucketSize);
      NoMoreChunks(w, bucketSize);
    }
  }

  lemma NoMoreChunks(w: Weight, bucketSize: nat)
    requires bucketSize > 0
    ensures ChunksFrom(w, bucketSize, |w.data|) == []
  {
  }

  lemma SameLastPart(n: nat, bucketSize: nat)
    requires n > bucketSize > 0
    ensures LastPart(n - bucketSize, bucketSize) == LastPart(n, bucketSize)
  {
    var q, r := n / bucketSize, n % bucketSize;
    assert n == q * bucketSize + r;
    assert (q - 1) * bucketSize == q * bucketSize - bucketSize;
    DivMod(n - bucketSize, q - 1, r, bucketSize);
  }

  lemma LastPartOfSmall(n: nat, bucketSize: nat)
    requires 0 < n <= bucketSize
    ensures LastPart(n, bucketSize) == n
  {
    DivMod(bucketSize, 1, 0, bucketSize);
    if n < bucketSize { DivMod(n, 0, n, bucketSize); }
  }

  lemma WeightUsed(w: Weight, bucketSize: nat, used: nat)
    requires bucketSize > 0
    ensures UsedFrom(used, ChunksFrom(w, bucketSize, 0), bucketSize) == UsedAfter(used, |w.data|, bucketSize)
  {
    if |w.data| > bucketSize {
      LargeUsed(w, bucketSize, 0, used);
    } else if |w.data| > 0 {
      NoMoreChunks(w, bucketSize);
    }
  }

  // ----- merging what was placed -------------------------------------------------------------

  lemma {:induction false} PlacedIsUnplaced(used: nat, cs: seq<Chunk>, bucketSize: nat)
    requires forall c | c in cs :: c.meta.offset.None?
    ensures |PlaceFrom(used, cs, bucketSize)| == |cs| && UnplacedAll(PlaceFrom(used, cs, bucketSize)) == cs
    decreases |cs|
  {
    if cs != [] {
      var at := PlacedAt(used, cs[0].meta.chunkSize, bucketSize);
      PlacedIsUnplaced(at + cs[0].meta.chunkSize, cs[1..], bucketSize);
    }
  }

  lemma MergeLargePlaced(w: Weight, bucketSize: nat, used: nat, s: MergeState)
    requires 0 < bucketSize < |w.data| && w.WellFormed() && s.current.None?
    ensures MergeFrom(s, PlaceFrom(used, ChunksFrom(w, bucketSize, 0), bucketSize), bucketSize)
      == Merged(MergeState(None, s.yielded + [w]), None)
  {
    var cs := ChunksFrom(w, bucketSize, 0);
    var placed := PlaceFrom(used, cs, bucketSize);
    ChunksAreCut(w, bucketSize, 0);
    MergeOneWeight(w, bucketSize, s);
    hide ChunksFrom, PlaceFrom, MergeFrom;
    forall c | c in cs ensures c.meta.offset.None? && c.meta.Nbytes() == |w.data| {
      var i :| 0 <= i < |cs| && c == cs[i];
      assert CutFrom(cs[i], w, bucketSize);
    }
    PlacedIsUnplaced(used, cs, bucketSize);
    forall c | c in placed ensures c.meta.Nbytes() == |w.data| {
      var i :| 0 <= i < |placed| && c == placed[i];
      assert Unplaced(c) == cs[i] && cs[i] in cs;
    }
    MergeIgnoresOffset(s, placed, bucketSize);
  }

  lemma MergePlacedWeight(w: Weight, bucketSize: nat, used: nat, s: MergeState)
    requires bucketSize > 0 && w.WellFormed() && s.current.None?
    ensures MergeFrom(s, PlaceFrom(used, ChunksFrom(w, bucketSize, 0), bucketSize), bucketSize)
      == if AlignedBehind(used, w, bucketSize)
         then Merged(MergeState(None, s.yielded + NonEmpty([w])), None) else Merged(s, Some(ViewMismatch))
  {
    assert [w][..0] == [] && NonEmpty([]) == [];
    if |w.data| > bucketSize {
      MergeLargePlaced(w, bucketSize, used, s);
    } else if |w.data| > 0 {
      assert w.data[0..|w.data|] == w.data;
      NoMoreChunks(w, bucketSize);
    }
  }

  /** The number of weights before the first misaligned one. */
  function AlignedCount(ws: seq<Weight>, bucketSize: nat): (r: nat)
    requires bucketSize > 0
    ensures r <= |ws|
  {
    if ws == [] then 0
    else
      var n := |ws| - 1;
      var r := AlignedCount(ws[..n], bucketSize);
      if r == n && AlignedBehind(Used(ws[..n], bucketSize), ws[n], bucketSize) then n + 1 else r
  }

  lemma {:induction false} AllCounted(ws: seq<Weight>, bucketSize: nat)
    requires bucketSize > 0
    ensures AlignedCount(ws, bucketSize) == |ws| <==> AllAligned(ws, bucketSize)
  {
    hide AlignedBehind, Used;
    if ws != [] {
      var n := |ws| - 1;
      AllCounted(ws[..n], bucketSize);
      forall i | 0 <= i < n ensures ws[..n][..i] == ws[..i] {
      }
    }
  }

  lemma NextWeight(ws: seq<Weight>, bucketSize: nat)
    requires bucketSize > 0 && ws != []
    ensures var n := |ws| - 1;
      && SplitAll(ws, bucketSize) == SplitAll(ws[..n], bucketSize) + ChunksFrom(ws[n], bucketSize, 0)
      && Used(ws, bucketSize) == UsedAfter(Used(ws[..n], bucketSize), |ws[n].data|, bucketSize)
      && NonEmpty(ws) == NonEmpty(ws[..n]) + NonEmpty([ws[n]])
  {
    var n := |ws| - 1;
    assert [ws[n]][..0] == [] && NonEmpty([]) == [];
  }

  /** What a receiver has put together when it stops at weight k. */
  function MergedTo(ws: seq<Weight>, k: nat): Merged
    requires k <= |ws|
  {
    Merged(MergeState(None, NonEmpty(ws[..k])), if k == |ws| then None else Some(ViewMismatch))
  }

  lemma NextMerged(ws: seq<Weight>, bucketSize: nat)
    requires bucketSize > 0 && ws != []
    ensures var n, k := |ws| - 1, AlignedCount(ws, bucketSize);
      MergedTo(ws, k)
      == if AlignedCount(ws[..n], bucketSize) < n then MergedTo(ws[..n], AlignedCount(ws[..n], bucketSize))
         else if AlignedBehind(Used(ws[..n], bucketSize), ws[n], bucketSize)
         then Merged(MergeState(None, NonEmpty(ws[..n]) + NonEmpty([ws[n]])), None)
         else Merged(MergeState(None, NonEmpty(ws[..n])), Some(ViewMismatch))
  {
    NextWeight(ws, bucketSize);
    var n := |ws| - 1;
    hide NonEmpty, Used, AlignedBehind;
    assert ws[..n + 1] == ws && ws[..n][..AlignedCount(ws[..n], bucketSize)] == ws[..AlignedCount(ws[..n], bucketSize)];
  }

  /** Packing all weights and merging them again comes to the first misaligned weight. */
  lemma {:induction false} MergePlaced(ws: seq<Weight>, bucketSize: nat)
    requires bucketSize > 0 && forall w | w in ws :: w.WellFormed()
    ensures var p := Pack(SplitAll(ws, bucketSize), bucketSize);
      && p.offset == Used(ws, bucketSize)
      && MergeFrom(MERGE_START, Placed(p), bucketSize) == MergedTo(ws, AlignedCount(ws, bucketSize))
  {
    if ws == [] {
      assert Placed(NOTHING_PACKED) == [];
    } else {
      hide *;
      var n := |ws| - 1;
      var cs, more := SplitAll(ws[..n], bucketSize), ChunksFrom(ws[n], bucketSize, 0);
      var p := Pack(cs, bucketSize);
      MergePlaced(ws[..n], bucketSize);
      PackOnto(cs, more, bucketSize);
      WeightUsed(ws[n], bucketSize, p.offset);
      MergeConcat(MERGE_START, Placed(p), PlaceFrom(p.offset, more, bucketSize), bucketSize);
      MergePlacedWeight(ws[n], bucketSize, p.offset, MergeState(None, NonEmpty(ws[..n])));
      NextWeight(ws, bucketSize);
      NextMerged(ws, bucketSize);
      AllOrStopped(ws[..n], AlignedCount(ws[..n], bucketSize));
    }
  }

  lemma AllOrStopped(ws: seq<Weight>, k: nat)
    requires k <= |ws|
    ensures MergedTo(ws, k).error.None? <==> k == |ws|
    ensures k == |ws| ==> MergedTo(ws, k) == Merged(MergeState(None, NonEmpty(ws)), None)
    ensures k < |ws| ==> MergedTo(ws, k) == Merged(MergeState(None, NonEmpty(ws[..k])), Some(ViewMismatch))
  {
    assert ws[..|ws|] == ws;
  }

  /**
    End to end over any transport that carries the buckets: a receiver whose chunks are the concatenated buckets puts
    together exactly the non-empty weights if and only if every weight that fits a bucket is aligned; otherwise it
    stops at the first that is not, with the weights before it.
  */
  lemma BucketsRebuildWeights(ws: seq<Weight>, bucketSize: nat, received: seq<Chunk>)
    requires bucketSize > 0 && forall w | w in ws :: w.WellFormed()
    requires received == Concat(BucketsOf(SplitAll(ws, bucketSize), bucketSize))
    ensures MergeFrom(MERGE_START, received, bucketSize) == Merged(MergeState(None, NonEmpty(ws)), None)
      <==> AllAligned(ws, bucketSize)
    ensures forall i | 0 <= i < |ws| && AllAligned(ws[..i], bucketSize)
                       && !AlignedBehind(Used(ws[..i], bucketSize), ws[i], bucketSize) ::
      MergeFrom(MERGE_START, received, bucketSize)
      == Merged(MergeState(None, NonEmpty(ws[..i])), Some(ViewMismatch))
  {
    ReceivedIsPlaced(SplitAll(ws, bucketSize), bucketSize);
    hide *;
    MergePlaced(ws, bucketSize);
    AllCounted(ws, bucketSize);
    AllOrStopped(ws, AlignedCount(ws, bucketSize));
    forall i | 0 <= i < |ws| && AllAligned(ws[..i], bucketSize)
               && !AlignedBehind(Used(ws[..i], bucketSize), ws[i], bucketSize)
      ensures AlignedCount(ws, bucketSize) == i
    {
      FirstMisaligned(ws, bucketSize, i);
    }
  }

  lemma ReceivedIsPlaced(cs: seq<Chunk>, bucketSize: nat)
    ensures Concat(BucketsOf(cs, bucketSize)) == Placed(Pack(cs, bucketSize))
  {
    ConcatPush(Pack(cs, bucketSize).closed, Pack(cs, bucketSize).open);
  }

  /** Aligned weights stop no receiver half-way either. */
  lemma PrefixMerges(ws: seq<Weight>, bucketSize: nat, yielded: seq<Chunk>)
    requires bucketSize > 0 && (forall w | w in ws :: w.WellFormed()) && AllAligned(ws, bucketSize)
    requires IsPrefix(yielded, Concat(BucketsOf(SplitAll(ws, bucketSize), bucketSize)))
    ensures MergeFrom(MERGE_START, yielded, bucketSize).error.None?
  {
    var all := Concat(BucketsOf(SplitAll(ws, bucketSize), bucketSize));
    hide Concat, BucketsOf, SplitAll, MergeFrom, AllAligned;
    BucketsRebuildWeights(ws, bucketSize, all);
    assert all == yielded + all[|yielded|..];
    MergeConcat(MERGE_START, yielded, all[|yielded|..], bucketSize);
  }

  lemma {:induction false} FirstMisaligned(ws: seq<Weight>, bucketSize: nat, i: nat)
    requires bucketSize > 0 && i < |ws| && AllAligned(ws[..i], bucketSize)
    requires !AlignedBehind(Used(ws[..i], bucketSize), ws[i], bucketSize)
    ensures AlignedCount(ws, bucketSize) == i
  {
    hide AlignedBehind, Used, AllAligned;
    var n := |ws| - 1;
    if i < n {
      assert ws[..n][..i] == ws[..i];
      FirstMisaligned(ws[..n], bucketSize, i);
    } else {
      AllCounted(ws[..n], bucketSize);
    }
  }

  // ----- sufficient conditions, and an input that fails --------------------------------------

  lemma MultipleSum(a: nat, b: nat, z: nat)
    requires z > 0 && Multiple(a, z) && Multiple(b, z)
    ensures Multiple(a + b, z)
  {
    var p, q := a / z, b / z;
    assert a == p * z && b == q * z && (p + q) * z == p * z + q * z;
    DivMod(a + b, p + q, 0, z);
  }

  lemma MultipleOfMultiple(a: nat, z: nat, d: nat)
    requires z > 0 && d > 0 && Multiple(a, z) && Multiple(z, d)
    ensures Multiple(a, d)
  {
    var p, q := a / z, z / d;
    assert a == p * z && z == q * d;
    assert (p * q) * d == p * (q * d);
    DivMod(a, p * q, 0, d);
  }

  lemma MultipleRemainder(n: nat, b: nat, z: nat)
    requires b > 0 && z > 0 && Multiple(n, z) && Multiple(b, z)
    ensures Multiple(n % b, z)
  {
    var p, q, k := n / z, b / z, n / b;
    assert n == p * z && b == q * z && n == k * b + n % b;
    assert (p - k * q) * z == p * z - k * (q * z);
    DivMod(n % b, p - k * q, 0, z);
  }

  lemma {:induction false} UsedIsMultiple(ws: seq<Weight>, bucketSize: nat, z: nat)
    requires bucketSize > 0 && z > 0 && Multiple(bucketSize, z) && forall w | w in ws :: Multiple(|w.data|, z)
    ensures Multiple(Used(ws, bucketSize), z)
  {
    if ws != [] {
      var n := |ws| - 1;
      var size, used := |ws[n].data|, Used(ws[..n], bucketSize);
      UsedIsMultiple(ws[..n], bucketSize, z);
      assert Multiple(size, z);
      DivMod(0, 0, 0, z);
      hide Used;
      MultipleSum(PlacedAt(used, size, bucketSize), size, z);
      MultipleRemainder(size, bucketSize, z);
    }
  }

  /** Sizes and bucket size that are multiples of a common multiple of the item sizes suffice. */
  lemma CommonMultipleAligns(ws: seq<Weight>, bucketSize: nat, z: nat)
    requires bucketSize > 0 && z > 0 && Multiple(bucketSize, z)
    requires forall w | w in ws :: Multiple(|w.data|, z) && Multiple(z, w.dtype.itemsize)
    ensures AllAligned(ws, bucketSize)
  {
    hide Used;
    forall i | 0 <= i < |ws| ensures AlignedBehind(Used(ws[..i], bucketSize), ws[i], bucketSize) {
      var at := PlacedAt(Used(ws[..i], bucketSize), |ws[i].data|, bucketSize);
      UsedIsMultiple(ws[..i], bucketSize, z);
      assert ws[i] in ws;
      DivMod(0, 0, 0, z);
      MultipleOfMultiple(at, z, ws[i].dtype.itemsize);
    }
  }

  /** So does a single item size that divides the bucket size. */
  lemma OneItemSizeAligns(ws: seq<Weight>, bucketSize: nat, z: nat)
    requires bucketSize > 0 && z > 0 && Multiple(bucketSize, z)
    requires forall w | w in ws :: w.WellFormed() && w.dtype.itemsize == z
    ensures AllAligned(ws, bucketSize)
  {
    forall w | w in ws ensures Multiple(|w.data|, z) && Multiple(z, w.dtype.itemsize) {
      DivMod(|w.data|, Numel(w.shape), 0, z);
      DivMod(z, 1, 0, z);
    }
    CommonMultipleAligns(ws, bucketSize, z);
  }

  /** One bfloat16 number before one float32 number: the second one starts at byte 2. */
  lemma MixedPrecisionStops(a: Weight, b: Weight, received: seq<Chunk>)
    requires a.WellFormed() && a.shape == [1] && a.dtype.itemsize == 2
    requires b.WellFormed() && b.shape == [1] && b.dtype.itemsize == 4
    requires received == Concat(BucketsOf(SplitAll([a, b], 8), 8))
    ensures MergeFrom(MERGE_START, received, 8) == Merged(MergeState(None, [a]), Some(ViewMismatch))
  {
    assert Numel([1]) == 1 * Numel([]) == 1;
    var ws := [a, b];
    assert ws[..0] == [] && ws[..1] == [a] && [a][..0] == [];
    assert Used(ws[..0], 8) == 0 && Used(ws[..1], 8) == 2;
    assert NonEmpty([a]) == [a] && AllAligned([a], 8);
    hide SplitAll, BucketsOf, MergeFrom, Concat;
    BucketsRebuildWeights(ws, 8, received);
  }
}
