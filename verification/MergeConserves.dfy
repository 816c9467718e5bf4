/**
  What merge_weight_chunks of verl/checkpoint_engine/base.py guards: on any chunk stream, not only one that was split,
  a merge that raises nothing hands out exactly the bytes it was brought, in order and under their own names.
*/
module MergeConserves {
  import opened Arithmetic
  import opened Sequences
  import opened Wrappers
  import opened WeightChunks

  /** Each byte with the name of its weight. */
  function Tagged(name: string, data: seq<Cell>): (r: seq<(string, Cell)>)
    ensures |r| == |data|
  {
    seq(|data|, i requires 0 <= i < |data| => (name, data[i]))
  }

  /** The bytes a stream of chunks brings. */
  function Brought(cs: seq<Chunk>): seq<(string, Cell)> {
    if cs == [] then [] else Tagged(cs[0].meta.name, cs[0].data) + Brought(cs[1..])
  }

  /** The bytes of the weights handed out. */
  function HandedOut(ws: seq<Weight>): seq<(string, Cell)> {
    if ws == [] then [] else HandedOut(ws[..|ws| - 1]) + Tagged(ws[|ws| - 1].name, ws[|ws| - 1].data)
  }

  /** The bytes written so far of the weight being put together. */
  function InProgress(s: MergeState): seq<(string, Cell)> {
    if s.current.None? then []
    else Tagged(s.current.value.name, s.current.value.buffer[..Min(s.current.value.offset, |s.current.value.buffer|)])
  }

  /** Chunks have the length they say, and chunks of one name agree on shape and dtype. */
  ghost predicate Consistent(cs: seq<Chunk>) {
    && (forall c | c in cs :: |c.data| == c.meta.chunkSize)
    && forall c, d | c in cs && d in cs && c.meta.name == d.meta.name ::
         c.meta.shape == d.meta.shape && c.meta.dtype == d.meta.dtype
  }

  /** The pending weight is not complete, and has the size that chunks of its name say. */
  ghost predicate Fitting(s: MergeState, cs: seq<Chunk>) {
    s.current.Some? ==>
      var cur := s.current.value;
      && cur.offset < |cur.buffer| == Numel(cur.shape) * cur.dtype.itemsize
      && forall c | c in cs && c.meta.name == cur.name :: c.meta.shape == cur.shape && c.meta.dtype == cur.dtype
  }

  lemma TaggedConcat(name: string, a: seq<Cell>, b: seq<Cell>)
    ensures Tagged(name, a + b) == Tagged(name, a) + Tagged(name, b)
  {
  }

  lemma HandOne(ws: seq<Weight>, w: Weight)
    ensures HandedOut(ws + [w]) == HandedOut(ws) + Tagged(w.name, w.data)
  {
    assert (ws + [w])[..|ws|] == ws;
  }

  /** A write that succeeds at the end of what is there adds exactly the chunk. */
  lemma WriteAdds(buffer: seq<Cell>, off: nat, data: seq<Cell>)
    requires off < |buffer|
    ensures var written := SliceAssign(buffer, off, |data|, data);
      && (written.Some? <==> off + |data| <= |buffer|)
      && (written.Some? ==> |written.value| == |buffer| && written.value[..off + |data|] == buffer[..off] + data)
  {
  }

  lemma StepConserves(s: MergeState, cs: seq<Chunk>, bucketSize: nat)
    requires cs != [] && Consistent(cs) && Fitting(s, cs)
    ensures match MergeStep(s, cs[0], bucketSize)
            case Failure(_) => true
            case Success(t) =>
              && Fitting(t, cs[1..])
              && HandedOut(t.yielded) + InProgress(t)
                 == HandedOut(s.yielded) + InProgress(s) + Tagged(cs[0].meta.name, cs[0].data)
              && (t.yielded == s.yielded || exists w: Weight :: w.WellFormed() && t.yielded == s.yielded + [w])
  {
    hide HandedOut, Tagged, SliceAssign, Numel;
    var c := cs[0];
    var m := c.meta;
    assert c in cs;
    if MergeStep(s, c, bucketSize).Success? {
      if m.Nbytes() <= bucketSize {
        var w := Weight(m.name, m.shape, m.dtype, c.data);
        HandOne(s.yielded, w);
        assert w.WellFormed();
      } else {
        LargeStepConserves(s, cs, bucketSize);
      }
    }
  }

  lemma LargeStepConserves(s: MergeState, cs: seq<Chunk>, bucketSize: nat)
    requires cs != [] && Consistent(cs) && Fitting(s, cs) && cs[0].meta.Nbytes() > bucketSize
    requires MergeStep(s, cs[0], bucketSize).Success?
    ensures var t := MergeStep(s, cs[0], bucketSize).value;
      && Fitting(t, cs[1..])
      && HandedOut(t.yielded) + InProgress(t)
         == HandedOut(s.yielded) + InProgress(s) + Tagged(cs[0].meta.name, cs[0].data)
      && (t.yielded == s.yielded || exists w: Weight :: w.WellFormed() && t.yielded == s.yielded + [w])
  {
    hide HandedOut, Tagged, SliceAssign, Numel;
    var c := cs[0];
    var m := c.meta;
    assert c in cs;
    var cur := if s.current.Some? then s.current.value else Merging(m.name, m.shape, m.dtype, seq(m.Nbytes(), _ => Junk), 0);
    assert s.current.None? ==> cur.buffer[..0] == [];
    WriteAdds(cur.buffer, cur.offset, c.data);
    TaggedConcat(m.name, cur.buffer[..cur.offset], c.data);
    assert s.current.None? ==> InProgress(s) == Tagged(m.name, []) by { NoBytes(m.name); }
    var written := SliceAssign(cur.buffer, m.chunkOffset, m.chunkSize, c.data).value;
    var w := Weight(cur.name, cur.shape, cur.dtype, written);
    HandOne(s.yielded, w);
    if m.chunkOffset + m.chunkSize == m.Nbytes() {
      assert w.WellFormed() && written[..m.chunkOffset + m.chunkSize] == written;
    }
  }

  lemma NoBytes(name: string)
    ensures Tagged(name, []) == []
  {
  }

  /** From any state: what is handed out and in progress grows by exactly what the chunks bring. */
  lemma {:induction false} MergeConservesFrom(s: MergeState, cs: seq<Chunk>, bucketSize: nat)
    requires Consistent(cs) && Fitting(s, cs) && MergeFrom(s, cs, bucketSize).error.None?
    requires forall w | w in s.yielded :: w.WellFormed()
    ensures var t := MergeFrom(s, cs, bucketSize).state;
      && HandedOut(t.yielded) + InProgress(t) == HandedOut(s.yielded) + InProgress(s) + Brought(cs)
      && forall w | w in t.yielded :: w.WellFormed()
    decreases |cs|
  {
    hide HandedOut, InProgress, Tagged, Fitting, MergeStep;
    if cs != [] {
      StepConserves(s, cs, bucketSize);
      var t := MergeStep(s, cs[0], bucketSize).value;
      assert forall c | c in cs[1..] :: c in cs;
      MergeConservesFrom(t, cs[1..], bucketSize);
    }
  }

  /** A merge that raises nothing and ends with nothing pending hands out well-formed weights whose bytes are exactly the
      bytes of the chunks, each under the name it came with; in particular nothing is missing, doubled or uninitialised. */
  lemma MergeConservesBytes(cs: seq<Chunk>, bucketSize: nat)
    requires Consistent(cs)
    ensures var r := MergeFrom(MERGE_START, cs, bucketSize);
      r.error.None? ==>
        && HandedOut(r.state.yielded) <= Brought(cs)
        && (r.state.current.None? ==> HandedOut(r.state.yielded) == Brought(cs))
        && forall w | w in r.state.yielded :: w.WellFormed()
  {
    hide MergeFrom, Brought;
    var start, t := MERGE_START, MergeFrom(MERGE_START, cs, bucketSize).state;
    assert HandedOut(start.yielded) + InProgress(start) + Brought(cs) == Brought(cs);
    if MergeFrom(start, cs, bucketSize).error.None? {
      MergeConservesFrom(start, cs, bucketSize);
      assert HandedOut(t.yielded) + InProgress(t) == Brought(cs);
      assert t.current.None? ==> HandedOut(t.yielded) + InProgress(t) == HandedOut(t.yielded);
    }
  }
}
