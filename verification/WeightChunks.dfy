/**
  verl/checkpoint_engine/base.py: cutting weights into chunks no larger than a bucket, and
  putting the chunks together again on the receiving side.
*/
module WeightChunks {
  import opened Arithmetic
  import opened Sequences
  import opened Wrappers

  type Octet = x: int | 0 <= x < 256

  /** One byte of device memory. `Junk` is memory handed out uninitialised and never written. */
  datatype Cell = Junk | Byte(value: Octet)

  type ItemSize = n: nat | n > 0 witness 1

  datatype DType = DType(tag: nat, itemsize: ItemSize)

  datatype Weight = Weight(name: string, shape: seq<nat>, dtype: DType, data: seq<Cell>) {
    ghost predicate WellFormed() {
      |data| == Numel(shape) * dtype.itemsize
    }
  }

  datatype TensorMeta = TensorMeta(
    name: string, shape: seq<nat>, dtype: DType, chunkOffset: nat, chunkSize: nat, offset: Option<nat>)
  {
    function Nbytes(): nat {
      Numel(shape) * dtype.itemsize
    }

    /** A slice of a bucket starts at `offset` of its storage, and `view(dtype)` takes only multiples of the item size. */
    predicate Aligned() {
      offset.None? || Multiple(offset.value, dtype.itemsize)
    }
  }

  datatype Chunk = Chunk(meta: TensorMeta, data: seq<Cell>)

  // ----- splitting ---------------------------------------------------------------------------

  /** The chunks of one weight from byte `off` on. */
  function ChunksFrom(w: Weight, bucketSize: nat, off: nat): seq<Chunk>
    requires bucketSize > 0
    decreases |w.data| - off
  {
    if off >= |w.data| then []
    else
      var size := Min(bucketSize, |w.data| - off);
      [Chunk(TensorMeta(w.name, w.shape, w.dtype, off, size, None), w.data[off..off + size])]
      + ChunksFrom(w, bucketSize, off + size)
  }

  function SplitAll(ws: seq<Weight>, bucketSize: nat): seq<Chunk>
    requires bucketSize > 0
  {
    if ws == [] then []
    else SplitAll(ws[..|ws| - 1], bucketSize) + ChunksFrom(ws[|ws| - 1], bucketSize, 0)
  }

  /** The weights that own at least one byte; the others produce no chunk. */
  function NonEmpty(ws: seq<Weight>): seq<Weight> {
    if ws == [] then []
    else NonEmpty(ws[..|ws| - 1]) + (if |ws[|ws| - 1].data| > 0 then [ws[|ws| - 1]] else [])
  }

  method SplitWeightChunks(weights: seq<Weight>, bucketSize: nat) returns (chunks: seq<Chunk>)
    requires bucketSize > 0
    ensures chunks == SplitAll(weights, bucketSize)
  {
    chunks := [];
    for i := 0 to |weights|
      invariant chunks == SplitAll(weights[..i], bucketSize)
    {
      var w := weights[i];
      var chunkOffset := 0;
      ghost var before := chunks;
      while chunkOffset < |w.data|
        invariant chunkOffset <= |w.data|
        invariant before + ChunksFrom(w, bucketSize, 0) == chunks + ChunksFrom(w, bucketSize, chunkOffset)
      {
        var chunkSize := Min(bucketSize, |w.data| - chunkOffset);
        var meta := TensorMeta(w.name, w.shape, w.dtype, chunkOffset, chunkSize, None);
        chunks := chunks + [Chunk(meta, w.data[chunkOffset..chunkOffset + chunkSize])];
        chunkOffset := chunkOffset + chunkSize;
      }
      assert weights[..i + 1][..i] == weights[..i];
    }
    assert weights[..|weights|] == weights;
  }

  function Bytes(cs: seq<Chunk>): seq<Cell> {
    if cs == [] then [] else cs[0].data + Bytes(cs[1..])
  }

  /** `c` is cut out of `w`, is not empty and fits a bucket. */
  ghost predicate CutFrom(c: Chunk, w: Weight, bucketSize: nat) {
    && c.meta.name == w.name && c.meta.shape == w.shape && c.meta.dtype == w.dtype && c.meta.offset.None?
    && 0 < c.meta.chunkSize <= bucketSize
    && c.meta.chunkOffset + c.meta.chunkSize <= |w.data|
    && c.data == w.data[c.meta.chunkOffset..c.meta.chunkOffset + c.meta.chunkSize]
  }

  /** All chunks are cut from `w`, and all but the last fill a bucket. */
  ghost predicate AllCutFrom(cs: seq<Chunk>, w: Weight, bucketSize: nat) {
    && (forall k | 0 <= k < |cs| :: CutFrom(cs[k], w, bucketSize))
    && (forall k | 0 <= k < |cs| - 1 :: cs[k].meta.chunkSize == bucketSize)
  }

  lemma {:induction false} ChunksAreCut(w: Weight, bucketSize: nat, off: nat)
    requires bucketSize > 0
    ensures AllCutFrom(ChunksFrom(w, bucketSize, off), w, bucketSize)
    decreases |w.data| - off
  {
    if off < |w.data| {
      var size := Min(bucketSize, |w.data| - off);
      var rest := ChunksFrom(w, bucketSize, off + size);
      ChunksAreCut(w, bucketSize, off + size);
      assert rest != [] ==> off + size < |w.data|;
    }
  }

  /** Laid end to end, the chunks are the weight's bytes. */
  lemma {:induction false} ChunksTile(w: Weight, bucketSize: nat, off: nat)
    requires bucketSize > 0 && off <= |w.data|
    ensures Bytes(ChunksFrom(w, bucketSize, off)) == w.data[off..]
    decreases |w.data| - off
  {
    if off < |w.data| {
      var size := Min(bucketSize, |w.data| - off);
      ChunksTile(w, bucketSize, off + size);
      assert w.data[off..] == w.data[off..off + size] + w.data[off + size..];
    }
  }

  // ----- merging -----------------------------------------------------------------------------

  /** The weight being put together: `merge_name`, `merge_weight` and its byte view, `merge_offset`. */
  datatype Merging = Merging(name: string, shape: seq<nat>, dtype: DType, buffer: seq<Cell>, offset: nat)

  /** What stops `merge_weight_chunks`: one of its assertions, or a tensor view or slice that does not fit. */
  datatype MergeError =
    | WeightPending | ViewMismatch | FirstOffsetNotZero | NameMismatch | OffsetMismatch | SliceMismatch

  datatype MergeState = MergeState(current: Option<Merging>, yielded: seq<Weight>)

  const MERGE_START := MergeState(None, [])

  /** `buffer[lo : lo + size] = data`: slices are clamped, and a one-byte source is broadcast. */
  function SliceAssign(buffer: seq<Cell>, lo: nat, size: nat, data: seq<Cell>): Option<seq<Cell>> {
    var from := Min(lo, |buffer|);
    var to := Min(lo + size, |buffer|);
    if |data| == to - from then Some(buffer[..from] + data + buffer[to..])
    else if |data| == 1 then Some(buffer[..from] + seq(to - from, _ => data[0]) + buffer[to..])
    else None
  }

  function MergeStep(s: MergeState, c: Chunk, bucketSize: nat): Result<MergeState, MergeError> {
    var m := c.meta;
    if m.Nbytes() <= bucketSize then
      if s.current.Some? then Failure(WeightPending)
      else if |c.data| != m.Nbytes() || !m.Aligned() then Failure(ViewMismatch)
      else Success(s.(yielded := s.yielded + [Weight(m.name, m.shape, m.dtype, c.data)]))
    else if s.current.None? && m.chunkOffset != 0 then Failure(FirstOffsetNotZero)
    else
      var cur := if s.current.Some? then s.current.value
                 else Merging(m.name, m.shape, m.dtype, seq(m.Nbytes(), _ => Junk), 0);
      if m.name != cur.name then Failure(NameMismatch)
      else if cur.offset != m.chunkOffset then Failure(OffsetMismatch)
      else
        var written := SliceAssign(cur.buffer, m.chunkOffset, m.chunkSize, c.data);
        if written.None? then Failure(SliceMismatch)
        else if m.chunkOffset + m.chunkSize == m.Nbytes() then
          Success(MergeState(None, s.yielded + [Weight(cur.name, cur.shape, cur.dtype, written.value)]))
        else
          Success(s.(current := Some(cur.(buffer := written.value, offset := cur.offset + m.chunkSize))))
  }

  /** Everything the generator yields, and the error it stops with, if any. */
  datatype Merged = Merged(state: MergeState, error: Option<MergeError>)

  function MergeFrom(s: MergeState, cs: seq<Chunk>, bucketSize: nat): Merged
    decreases |cs|
  {
    if cs == [] then Merged(s, None)
    else
      match MergeStep(s, cs[0], bucketSize)
      case Failure(e) => Merged(s, Some(e))
      case Success(t) => MergeFrom(t, cs[1..], bucketSize)
  }

  method AssignSlice(buffer: array<Cell>, lo: nat, size: nat, data: seq<Cell>) returns (ok: bool)
    modifies buffer
    ensures var r := SliceAssign(old(buffer[..]), lo, size, data);
            ok == r.Some? && buffer[..] == if ok then r.value else old(buffer[..])
  {
    var from, to := Min(lo, buffer.Length), Min(lo + size, buffer.Length);
    ok := |data| == to - from || |data| == 1;
    if ok {
      var fill := if |data| == to - from then data else seq(to - from, _ => data[0]);
      forall k | from <= k < to {
        buffer[k] := fill[k - from];
      }
      assert buffer[..] == old(buffer[..])[..from] + fill + old(buffer[..])[to..];
    }
  }

  /**
    The merger's local variables. `pending` is the weight being merged without its bytes, which
    live in `buffer`, the byte view that chunks are written into.
  */
  class Merger {
    var pending: Option<Merging>
    var buffer: array<Cell>
    var yielded: seq<Weight>

    ghost function State(): MergeState
      reads this, buffer
    {
      MergeState(
        match pending { case None => None case Some(p) => Some(p.(buffer := buffer[..])) },
        yielded)
    }

    constructor ()
      ensures fresh(buffer) && State() == MERGE_START
    {
      pending, yielded := None, [];
      buffer := new Cell[0];
    }

    method Accept(c: Chunk, bucketSize: nat) returns (error: Option<MergeError>)
      modifies this, buffer
      ensures buffer == old(buffer) || fresh(buffer)
      ensures match MergeStep(old(State()), c, bucketSize)
              case Failure(e) => error == Some(e) && yielded == old(yielded)
              case Success(t) => error.None? && State() == t
    {
      error := None;
      var m := c.meta;
      if m.Nbytes() <= bucketSize {
        if pending.Some? { return Some(WeightPending); }
        if |c.data| != m.Nbytes() || !m.Aligned() { return Some(ViewMismatch); }
        yielded := yielded + [Weight(m.name, m.shape, m.dtype, c.data)];
        return;
      }
      if pending.None? {
        if m.chunkOffset != 0 { return Some(FirstOffsetNotZero); }
        buffer := new Cell[m.Nbytes()](_ => Junk);
        assert buffer[..] == seq(m.Nbytes(), _ => Junk);
        pending := Some(Merging(m.name, m.shape, m.dtype, [], 0));
      }
      var p := pending.value;
      if m.name != p.name { return Some(NameMismatch); }
      if p.offset != m.chunkOffset { return Some(OffsetMismatch); }
      var ok := AssignSlice(buffer, m.chunkOffset, m.chunkSize, c.data);
      if !ok { return Some(SliceMismatch); }
      if m.chunkOffset + m.chunkSize == m.Nbytes() {
        yielded := yielded + [Weight(p.name, p.shape, p.dtype, buffer[..])];
        pending := None;
      } else {
        pending := Some(p.(offset := p.offset + m.chunkSize));
      }
    }
  }

  method MergeWeightChunks(chunks: seq<Chunk>, bucketSize: nat)
    returns (yielded: seq<Weight>, error: Option<MergeError>)
    ensures var r := MergeFrom(MERGE_START, chunks, bucketSize);
            yielded == r.state.yielded && error == r.error
  {
    var merger := new Merger();
    error := None;
    for i := 0 to |chunks|
      invariant fresh(merger) && fresh(merger.buffer) && error.None?
      invariant MergeFrom(MERGE_START, chunks, bucketSize) == MergeFrom(merger.State(), chunks[i..], bucketSize)
    {
      assert chunks[i..][0] == chunks[i] && chunks[i..][1..] == chunks[i + 1..];
      error := merger.Accept(chunks[i], bucketSize);
      if error.Some? { return merger.yielded, error; }
    }
    yielded := merger.yielded;
  }

  lemma {:induction false} MergeConcat(s: MergeState, a: seq<Chunk>, b: seq<Chunk>, bucketSize: nat)
    ensures var first := MergeFrom(s, a, bucketSize);
      MergeFrom(s, a + b, bucketSize) == if first.error.None? then MergeFrom(first.state, b, bucketSize) else first
    decreases |a|
  {
    if a == [] {
      assert a + b == b;
    } else {
      assert (a + b)[1..] == a[1..] + b;
      match MergeStep(s, a[0], bucketSize)
      case Failure(_) =>
      case Success(t) => MergeConcat(t, a[1..], b, bucketSize);
    }
  }

  /** The weight being put together before its next chunk. */
  function Pending(w: Weight, s: MergeState): Merging {
    if s.current.Some? then s.current.value else Merging(w.name, w.shape, w.dtype, seq(|w.data|, _ => Junk), 0)
  }

  /** One chunk of a weight larger than a bucket. */
  lemma LargeStep(w: Weight, bucketSize: nat, off: nat, s: MergeState)
    requires bucketSize > 0 && w.WellFormed() && bucketSize < |w.data| && off < |w.data|
    requires s.current.Some? || off == 0
    requires var cur := Pending(w, s);
      && cur.name == w.name && cur.shape == w.shape && cur.dtype == w.dtype && cur.offset == off
      && |cur.buffer| == |w.data| && cur.buffer[..off] == w.data[..off]
    ensures var cs, cur, size := ChunksFrom(w, bucketSize, off), Pending(w, s), Min(bucketSize, |w.data| - off);
      && cs != [] && |cs[0].data| == size
      && var written := cur.buffer[..off] + cs[0].data + cur.buffer[off + size..];
      && |written| == |w.data| && written[..off + size] == w.data[..off + size]
      && MergeStep(s, cs[0], bucketSize) == Success(
           if off + size == |w.data| then MergeState(None, s.yielded + [w])
           else s.(current := Some(cur.(buffer := written, offset := off + size))))
  {
    var cs := ChunksFrom(w, bucketSize, off);
    var size := Min(bucketSize, |w.data| - off);
    var cur := Pending(w, s);
    var written := cur.buffer[..off] + cs[0].data + cur.buffer[off + size..];
    assert SliceAssign(cur.buffer, off, size, cs[0].data) == Some(written);
    hide SliceAssign;
    assert written[..off + size] == w.data[..off + size];
    if off + size == |w.data| {
      assert written == w.data;
    }
  }

  /** A weight larger than a bucket, with the bytes up to `off` already in the merge buffer. */
  lemma {:induction false} MergeLargeWeight(w: Weight, bucketSize: nat, off: nat, s: MergeState)
    requires bucketSize > 0 && w.WellFormed() && bucketSize < |w.data| && off < |w.data|
    requires s.current.Some? || off == 0
    requires s.current.Some? ==>
      var cur := s.current.value;
      && cur.name == w.name && cur.shape == w.shape && cur.dtype == w.dtype && cur.offset == off
      && |cur.buffer| == |w.data| && cur.buffer[..off] == w.data[..off]
    ensures MergeFrom(s, ChunksFrom(w, bucketSize, off), bucketSize)
            == Merged(MergeState(None, s.yielded + [w]), None)
    decreases |w.data| - off
  {
    var cs := ChunksFrom(w, bucketSize, off);
    var size := Min(bucketSize, |w.data| - off);
    var cur := Pending(w, s);
    var written := cur.buffer[..off] + cs[0].data + cur.buffer[off + size..];
    LargeStep(w, bucketSize, off, s);
    assert cs[1..] == ChunksFrom(w, bucketSize, off + size);
    hide MergeStep;
    if off + size < |w.data| {
      MergeLargeWeight(w, bucketSize, off + size, s.(current := Some(cur.(buffer := written, offset := off + size))));
    }
  }

  lemma {:induction false} MergeOneWeight(w: Weight, bucketSize: nat, s: MergeState)
    requires bucketSize > 0 && w.WellFormed() && s.current.None?
    ensures MergeFrom(s, ChunksFrom(w, bucketSize, 0), bucketSize)
            == Merged(MergeState(None, s.yielded + (if |w.data| > 0 then [w] else [])), None)
  {
    if bucketSize < |w.data| {
      MergeLargeWeight(w, bucketSize, 0, s);
    } else if |w.data| > 0 {
      assert w.data[0..|w.data|] == w.data;
      assert ChunksFrom(w, bucketSize, |w.data|) == [];
    }
  }

  /**
    Merging undoes splitting: no assertion of the merger fires, nothing is left pending, and the
    weights with at least one byte come out in order with identical shapes, types and bytes. In
    particular no uninitialised byte of a merge buffer is ever handed out.
  */
  lemma {:induction false} MergeUndoesSplit(ws: seq<Weight>, bucketSize: nat)
    requires bucketSize > 0 && forall w :: w in ws ==> w.WellFormed()
    ensures MergeFrom(MERGE_START, SplitAll(ws, bucketSize), bucketSize)
            == Merged(MergeState(None, NonEmpty(ws)), None)
  {
    if ws != [] {
      var n := |ws| - 1;
      MergeUndoesSplit(ws[..n], bucketSize);
      MergeConcat(MERGE_START, SplitAll(ws[..n], bucketSize), ChunksFrom(ws[n], bucketSize, 0), bucketSize);
      MergeOneWeight(ws[n], bucketSize, MergeState(None, NonEmpty(ws[..n])));
    }
  }

  // ----- chunk streams as packing needs them -------------------------------------------------

  /**
    What a stream of chunks must satisfy so that no bucket holds two chunks of one weight:
    chunks fit a bucket, and every chunk but the last of its name fills one.
  */
  ghost predicate Packable(cs: seq<Chunk>, bucketSize: nat) {
    && (forall i | 0 <= i < |cs| ::
          && 0 < cs[i].meta.chunkSize == |cs[i].data| <= bucketSize
          && cs[i].meta.offset.None?)
    && (forall i, j | 0 <= i < j < |cs| && cs[i].meta.name == cs[j].meta.name ::
          cs[i].meta.chunkSize == bucketSize)
  }

  ghost predicate DistinctNames(ws: seq<Weight>) {
    forall i, j :: 0 <= i < j < |ws| ==> ws[i].name != ws[j].name
  }

  lemma {:induction false} SplitNames(ws: seq<Weight>, bucketSize: nat, c: Chunk) returns (i: nat)
    requires bucketSize > 0 && c in SplitAll(ws, bucketSize)
    ensures i < |ws| && CutFrom(c, ws[i], bucketSize)
  {
    var n := |ws| - 1;
    if c in SplitAll(ws[..n], bucketSize) {
      i := SplitNames(ws[..n], bucketSize, c);
    } else {
      ChunksAreCut(ws[n], bucketSize, 0);
      i := n;
    }
  }

  lemma {:induction false} SplitIsPackable(ws: seq<Weight>, bucketSize: nat)
    requires bucketSize > 0 && DistinctNames(ws)
    ensures Packable(SplitAll(ws, bucketSize), bucketSize)
  {
    if ws != [] {
      var n := |ws| - 1;
      var a, b := SplitAll(ws[..n], bucketSize), ChunksFrom(ws[n], bucketSize, 0);
      SplitIsPackable(ws[..n], bucketSize);
      ChunksAreCut(ws[n], bucketSize, 0);
      var cs := a + b;
      forall i | 0 <= i < |cs|
        ensures 0 < cs[i].meta.chunkSize == |cs[i].data| <= bucketSize && cs[i].meta.offset.None?
      {
        if i >= |a| { assert CutFrom(b[i - |a|], ws[n], bucketSize); }
      }
      forall i, j | 0 <= i < |a| <= j < |cs|
        ensures cs[i].meta.name != cs[j].meta.name
      {
        var w := SplitNames(ws[..n], bucketSize, a[i]);
        assert CutFrom(b[j - |a|], ws[n], bucketSize) && ws[w].name != ws[n].name;
      }
      forall i, j | 0 <= i < j < |cs| && cs[i].meta.name == cs[j].meta.name
        ensures cs[i].meta.chunkSize == bucketSize
      {
        if i >= |a| { assert cs[i] == b[i - |a|]; }
      }
    }
  }

  // ----- the offset a chunk gets inside a bucket ---------------------------------------------

  function Unplaced(c: Chunk): Chunk {
    c.(meta := c.meta.(offset := None))
  }

  function UnplacedAll(cs: seq<Chunk>): seq<Chunk> {
    seq(|cs|, i requires 0 <= i < |cs| => Unplaced(cs[i]))
  }

  /** Beyond the alignment of weights that fit a bucket, offsets do not enter merging. */
  lemma {:induction false} MergeIgnoresOffset(s: MergeState, cs: seq<Chunk>, bucketSize: nat)
    requires forall c | c in cs && c.meta.Nbytes() <= bucketSize :: c.meta.Aligned()
    ensures MergeFrom(s, UnplacedAll(cs), bucketSize) == MergeFrom(s, cs, bucketSize)
    decreases |cs|
  {
    if cs != [] {
      assert UnplacedAll(cs)[1..] == UnplacedAll(cs[1..]);
      assert MergeStep(s, Unplaced(cs[0]), bucketSize) == MergeStep(s, cs[0], bucketSize);
      match MergeStep(s, cs[0], bucketSize)
      case Failure(_) =>
      case Success(t) => MergeIgnoresOffset(t, cs[1..], bucketSize);
    }
  }
}
