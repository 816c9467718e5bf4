/**
  The two conversions of a fused query/key/value weight in verl/utils/megatron_utils.py: the rows of
  each query group stand together (queries, then one key head, then one value head), and both
  conversions collect all query rows, all key rows and all value rows.
*/
module QkvLayout {
  import opened Arithmetic
  import opened TorchChunk
  import opened Wrappers

  datatype Error = ZeroDivisionError | AssertionError | IndexError | RuntimeError

  datatype Qkv<T> = Qkv(q: seq<T>, k: seq<T>, v: seq<T>)

  // ----- convert_qkv_shard -------------------------------------------------------------------

  /** head_dim, the head counts, the tensor-parallel size and the number of query groups. */
  datatype Config = Config(headDim: nat, heads: nat, kvHeads: nat, tp: nat, groups: nat)

  /** What one chunk adds. */
  function AddChunk<T>(acc: Qkv<T>, chunk: seq<T>, qSize: nat, kvSize: nat, keepKv: bool): Qkv<T> {
    Qkv(
      acc.q + Slice(chunk, 0, qSize),
      acc.k + (if keepKv then Slice(chunk, qSize, qSize + kvSize) else []),
      acc.v + (if keepKv then Slice(chunk, qSize + kvSize, |chunk|) else []))
  }

  function AddChunks<T>(acc: Qkv<T>, chunks: seq<seq<T>>, n: nat, qSize: nat, kvSize: nat, keepKv: bool): Qkv<T>
    requires n <= |chunks|
  {
    if n == 0 then acc
    else AddChunk(AddChunks(acc, chunks, n - 1, qSize, kvSize, keepKv), chunks[n - 1], qSize, kvSize, keepKv)
  }

  function QSizeTp(c: Config): nat
    requires c.tp > 0
  {
    Div(c.headDim * c.heads, c.tp)
  }

  function KvSizeTp(c: Config): nat
    requires c.tp > 0
  {
    if c.kvHeads >= c.tp then Div(c.headDim * c.kvHeads, c.tp) else c.headDim
  }

  function KeepKv(c: Config, i: nat): bool
    requires c.tp > 0
  {
    c.kvHeads >= c.tp || Multiple(i * c.kvHeads, c.tp)
  }

  function AddPart<T>(acc: Qkv<T>, full: seq<T>, c: Config, i: nat): Qkv<T>
    requires c.tp > 0 && Div(c.groups, c.tp) > 0
  {
    var n, total := Div(c.groups, c.tp), QSizeTp(c) + 2 * KvSizeTp(c);
    var chunks := Chunks(Slice(full, i * total, (i + 1) * total), n);
    AddChunks(acc, chunks, |chunks|, Div(QSizeTp(c), n), Div(KvSizeTp(c), n), KeepKv(c, i))
  }

  /** The three lists after the first i tensor-parallel parts. */
  function AddParts<T>(full: seq<T>, c: Config, i: nat): Qkv<T>
    requires c.tp > 0 && Div(c.groups, c.tp) > 0
  {
    if i == 0 then Qkv([], [], []) else AddPart(AddParts(full, c, i - 1), full, c, i - 1)
  }

  function Converted<T>(full: seq<T>, c: Config): Result<Qkv<T>, Error> {
    if c.tp == 0 || Div(c.groups, c.tp) == 0 then Failure(ZeroDivisionError) else Success(AddParts(full, c, c.tp))
  }

  method AddAll<T>(start: Qkv<T>, chunks: seq<seq<T>>, qSize: nat, kvSize: nat, keepKv: bool) returns (r: Qkv<T>)
    ensures r == AddChunks(start, chunks, |chunks|, qSize, kvSize, keepKv)
  {
    hide Slice;
    var qShards, kShards, vShards := start.q, start.k, start.v;
    for j := 0 to |chunks|
      invariant Qkv(qShards, kShards, vShards) == AddChunks(start, chunks, j, qSize, kvSize, keepKv)
    {
      var chunk := chunks[j];
      qShards := qShards + Slice(chunk, 0, qSize);
      if keepKv {
        kShards := kShards + Slice(chunk, qSize, qSize + kvSize);
        vShards := vShards + Slice(chunk, qSize + kvSize, |chunk|);
      }
    }
    r := Qkv(qShards, kShards, vShards);
  }

  /** The body of the outer loop. */
  method ConvertPart<T>(acc: Qkv<T>, full: seq<T>, c: Config, i: nat) returns (r: Qkv<T>)
    requires c.tp > 0 && Div(c.groups, c.tp) > 0
    ensures r == AddPart(acc, full, c, i)
  {
    hide Chunks, Slice, QSizeTp, KvSizeTp, KeepKv, Div, AddChunks;
    var qSizeTp, kvSizeTp := QSizeTp(c), KvSizeTp(c);
    var totalSize := qSizeTp + 2 * kvSizeTp;
    var groupsPerPartition := Div(c.groups, c.tp);
    var qkvPart := Slice(full, i * totalSize, (i + 1) * totalSize);
    var qSizeChunk := Div(qSizeTp, groupsPerPartition);
    var kvSizeChunk := Div(kvSizeTp, groupsPerPartition);
    r := AddAll(acc, Chunks(qkvPart, groupsPerPartition), qSizeChunk, kvSizeChunk, KeepKv(c, i));
  }

  method ConvertQkvShard<T>(full: seq<T>, c: Config) returns (r: Result<Qkv<T>, Error>)
    ensures r == Converted(full, c)
  {
    hide Div, AddPart;
    if c.tp == 0 { return Failure(ZeroDivisionError); }
    var shards: Qkv<T> := Qkv([], [], []);
    for i := 0 to c.tp
      invariant i > 0 ==> Div(c.groups, c.tp) > 0
      invariant Div(c.groups, c.tp) > 0 ==> shards == AddParts(full, c, i)
    {
      if Div(c.groups, c.tp) == 0 { return Failure(ZeroDivisionError); }
      shards := ConvertPart(shards, full, c, i);
    }
    r := Success(shards);
  }

  // ----- default_tp_concat_fn ----------------------------------------------------------------

  /** `chunk.split([q, kv, kv])`, an error unless the sizes add up. */
  function SplitChunk<T>(acc: Qkv<T>, chunk: seq<T>, q: nat, kv: nat): Result<Qkv<T>, Error> {
    if q + 2 * kv != |chunk| then Failure(RuntimeError)
    else Success(Qkv(acc.q + chunk[..q], acc.k + chunk[q..q + kv], acc.v + chunk[q + kv..]))
  }

  function SplitChunks<T>(acc: Qkv<T>, chunks: seq<seq<T>>, n: nat, q: nat, kv: nat): Result<Qkv<T>, Error>
    requires n <= |chunks|
  {
    if n == 0 then Success(acc)
    else
      var r := SplitChunks(acc, chunks, n - 1, q, kv);
      if r.Failure? then r else SplitChunk(r.value, chunks[n - 1], q, kv)
  }

  /** The lists after the first i shards; kv is the key rows per shard, perKv the query heads per key head. */
  function SplitShards<T>(shards: seq<seq<T>>, i: nat, kv: nat, perKv: nat, n: nat): Result<Qkv<T>, Error>
    requires i <= |shards|
  {
    if i == 0 then Success(Qkv([], [], []))
    else
      var r := SplitShards(shards, i - 1, kv, perKv, n);
      if r.Failure? then r
      else if n == 0 then Failure(RuntimeError)
      else
        var chunks := Chunks(shards[i - 1], n);
        SplitChunks(r.value, chunks, |chunks|, Div(kv * perKv, n), Div(kv, n))
  }

  function Concatenated<T>(shards: seq<seq<T>>, heads: nat, kvHeads: nat, trainTp: nat): Result<Qkv<T>, Error> {
    if kvHeads == 0 then Failure(ZeroDivisionError)
    else if !Multiple(heads, kvHeads) then Failure(AssertionError)
    else if shards == [] then Failure(IndexError)
    else
      var perKv := Div(heads, kvHeads);
      if !Multiple(|shards[0]|, perKv + 2) then Failure(AssertionError)
      else if trainTp == 0 then Failure(ZeroDivisionError)
      else SplitShards(shards, |shards|, Div(|shards[0]|, perKv + 2), perKv, Div(kvHeads, trainTp))
  }

  method TpConcat<T>(shards: seq<seq<T>>, heads: nat, kvHeads: nat, trainTp: nat) returns (r: Result<Qkv<T>, Error>)
    ensures r == Concatenated(shards, heads, kvHeads, trainTp)
  {
    hide Chunks, Div, Multiple;
    if kvHeads == 0 { return Failure(ZeroDivisionError); }
    if !Multiple(heads, kvHeads) { return Failure(AssertionError); }
    var perKv := Div(heads, kvHeads);
    if shards == [] { return Failure(IndexError); }
    if !Multiple(|shards[0]|, perKv + 2) { return Failure(AssertionError); }
    var kvSizePerTp := Div(|shards[0]|, perKv + 2);
    if trainTp == 0 { return Failure(ZeroDivisionError); }
    var acc: Qkv<T> := Qkv([], [], []);
    for i := 0 to |shards|
      invariant SplitShards(shards, i, kvSizePerTp, perKv, Div(kvHeads, trainTp)) == Success(acc)
    {
      var n := Div(kvHeads, trainTp);
      if n == 0 {
        FailuresStay(shards, i + 1, |shards|, kvSizePerTp, perKv, n);
        return Failure(RuntimeError);
      }
      var chunks := Chunks(shards[i], n);
      var done := SplitAll(acc, chunks, Div(kvSizePerTp * perKv, n), Div(kvSizePerTp, n));
      if done.Failure? {
        FailuresStay(shards, i + 1, |shards|, kvSizePerTp, perKv, n);
        return done;
      }
      acc := done.value;
    }
    r := Success(acc);
  }

  method SplitAll<T>(start: Qkv<T>, chunks: seq<seq<T>>, q: nat, kv: nat) returns (r: Result<Qkv<T>, Error>)
    ensures r == SplitChunks(start, chunks, |chunks|, q, kv)
  {
    var acc := start;
    for j := 0 to |chunks|
      invariant SplitChunks(start, chunks, j, q, kv) == Success(acc)
    {
      var next := SplitChunk(acc, chunks[j], q, kv);
      if next.Failure? {
        ChunkFailuresStay(start, chunks, j + 1, |chunks|, q, kv);
        return next;
      }
      acc := next.value;
    }
    r := Success(acc);
  }

  lemma {:induction false} ChunkFailuresStay<T>(acc: Qkv<T>, chunks: seq<seq<T>>, m: nat, n: nat, q: nat, kv: nat)
    requires m <= n <= |chunks| && SplitChunks(acc, chunks, m, q, kv).Failure?
    ensures SplitChunks(acc, chunks, n, q, kv) == SplitChunks(acc, chunks, m, q, kv)
    decreases n
  {
    if m < n { ChunkFailuresStay(acc, chunks, m, n - 1, q, kv); }
  }

  lemma {:induction false} FailuresStay<T>(shards: seq<seq<T>>, m: nat, i: nat, kv: nat, perKv: nat, n: nat)
    requires m <= i <= |shards| && SplitShards(shards, m, kv, perKv, n).Failure?
    ensures SplitShards(shards, i, kv, perKv, n) == SplitShards(shards, m, kv, perKv, n)
    decreases i
  {
    if m < i { FailuresStay(shards, m, i - 1, kv, perKv, n); }
  }

  // ----- what both compute -------------------------------------------------------------------

  /** The query, key and value rows of consecutive groups of `a` query rows, kv key rows and kv value rows. */
  function Deinterleaved<T>(full: seq<T>, a: nat, kv: nat): Qkv<T>
    decreases |full|
  {
    var b := a + 2 * kv;
    if b == 0 || |full| < b then Qkv([], [], [])
    else
      var o := |full| - b;
      var rest := Deinterleaved(full[..o], a, kv);
      var group := full[o..];
      Qkv(rest.q + group[..a], rest.k + group[a..a + kv], rest.v + group[a + kv..])
  }

  lemma DeinterleavedPush<T>(done: seq<T>, group: seq<T>, a: nat, kv: nat)
    requires |group| == a + 2 * kv > 0
    ensures var rest := Deinterleaved(done, a, kv);
      Deinterleaved(done + group, a, kv) == Qkv(rest.q + group[..a], rest.k + group[a..a + kv], rest.v + group[a + kv..])
  {
    var o, all := |done|, done + group;
    assert all[..o] == done && all[o..] == group;
  }

  /** Both conversions add one group in the same way. */
  lemma NextGroup<T>(done: seq<T>, group: seq<T>, a: nat, kv: nat)
    requires |group| == a + 2 * kv
    ensures AddChunk(Deinterleaved(done, a, kv), group, a, kv, true) == Deinterleaved(done + group, a, kv)
    ensures SplitChunk(Deinterleaved(done, a, kv), group, a, kv) == Success(Deinterleaved(done + group, a, kv))
  {
    hide Deinterleaved;
    if group == [] {
      assert done + group == done;
    } else {
      DeinterleavedPush(done, group, a, kv);
    }
  }

  /** A part of n groups, cut into chunks and added by either conversion. */
  lemma {:induction false} GroupsAdd<T>(done: seq<T>, s: seq<T>, a: nat, kv: nat, n: nat, j: nat)
    requires n > 0 && |s| == n * (a + 2 * kv) && j <= n
    ensures |Chunks(s, n)| == n && 0 <= j * (a + 2 * kv) <= |s|
    ensures var next := Deinterleaved(done + s[..j * (a + 2 * kv)], a, kv);
      && AddChunks(Deinterleaved(done, a, kv), Chunks(s, n), j, a, kv, true) == next
      && SplitChunks(Deinterleaved(done, a, kv), Chunks(s, n), j, a, kv) == Success(next)
    decreases j
  {
    hide Deinterleaved, Chunks, AddChunk, SplitChunk;
    var b := a + 2 * kv;
    if j == 0 {
      ChunksEven(s, b, n, 0);
      assert done + s[..0] == done;
    } else {
      GroupsAdd(done, s, a, kv, n, j - 1);
      ChunksEven(s, b, n, j - 1);
      var o, g := (j - 1) * b, Group(s, b, j - 1);
      assert o + b == j * b;
      assert done + s[..o + b] == (done + s[..o]) + g;
      NextGroup(done + s[..o], g, a, kv);
    }
  }

  lemma PartAdds<T>(done: seq<T>, s: seq<T>, a: nat, kv: nat, n: nat)
    requires n > 0 && |s| == n * (a + 2 * kv)
    ensures |Chunks(s, n)| == n
    ensures AddChunks(Deinterleaved(done, a, kv), Chunks(s, n), n, a, kv, true) == Deinterleaved(done + s, a, kv)
    ensures SplitChunks(Deinterleaved(done, a, kv), Chunks(s, n), n, a, kv) == Success(Deinterleaved(done + s, a, kv))
  {
    GroupsAdd(done, s, a, kv, n, n);
    assert s[..n * (a + 2 * kv)] == s;
  }

  // ----- the conversions on a well-formed tensor ---------------------------------------------

  /** m groups per tensor-parallel part: the head counts divide as Megatron lays them out. */
  ghost predicate LaidOut(c: Config, perKv: nat, m: nat) {
    && c.tp > 0 && m > 0
    && c.kvHeads == m * c.tp && c.groups == c.kvHeads && c.heads == perKv * c.kvHeads
  }

  lemma Sizes(c: Config, perKv: nat, m: nat)
    requires LaidOut(c, perKv, m)
    ensures Div(c.groups, c.tp) == m && c.kvHeads >= c.tp
    ensures QSizeTp(c) == m * (perKv * c.headDim) && KvSizeTp(c) == m * c.headDim
    ensures Div(QSizeTp(c), m) == perKv * c.headDim && Div(KvSizeTp(c), m) == c.headDim
    ensures QSizeTp(c) + 2 * KvSizeTp(c) == m * (perKv * c.headDim + 2 * c.headDim)
  {
    var h, t := c.headDim, c.tp;
    MulAtLeast(m, t);
    DivMod(c.groups, m, 0, t);
    assert h * c.heads == (m * (perKv * h)) * t;
    DivMod(h * c.heads, m * (perKv * h), 0, t);
    assert h * c.kvHeads == (m * h) * t;
    DivMod(h * c.kvHeads, m * h, 0, t);
    DivMod(m * (perKv * h), perKv * h, 0, m);
    DivMod(m * h, h, 0, m);
  }

  lemma WholePart<T>(full: seq<T>, size: nat, i: nat)
    requires (i + 1) * size <= |full|
    ensures var part := Slice(full, i * size, (i + 1) * size);
      && 0 <= i * size && i * size + size == (i + 1) * size && |part| == size
      && full[..i * size] + part == full[..(i + 1) * size]
  {
    assert i * size + size == (i + 1) * size;
  }

  lemma {:induction false} PartsAdd<T>(full: seq<T>, c: Config, perKv: nat, m: nat, i: nat, a: nat, size: nat)
    requires LaidOut(c, perKv, m) && i <= c.tp && a == perKv * c.headDim
    requires size == m * (a + 2 * c.headDim) && |full| == c.tp * size
    ensures Div(c.groups, c.tp) > 0 && 0 <= i * size <= |full|
    ensures AddParts(full, c, i) == Deinterleaved(full[..i * size], a, c.headDim)
    decreases i
  {
    hide QSizeTp, KvSizeTp, Div, Chunks, AddChunks, Slice, Deinterleaved;
    assert m > 0;
    Sizes(c, perKv, m);
    var h := c.headDim;
    if i == 0 {
      NoRows(full, a, h);
    } else {
      BlockBefore(i - 1, c.tp, size);
      PartsAdd(full, c, perKv, m, i - 1, a, size);
      WholePart(full, size, i - 1);
      var part := Slice(full, (i - 1) * size, (i - 1 + 1) * size);
      PartAdds(full[..(i - 1) * size], part, a, h, m);
      PartIs(AddParts(full, c, i - 1), full, c, perKv, m, i - 1);
    }
  }

  lemma PartIs<T>(acc: Qkv<T>, full: seq<T>, c: Config, perKv: nat, m: nat, i: nat)
    requires LaidOut(c, perKv, m)
    ensures Div(c.groups, c.tp) > 0 && c.tp > 0
    ensures var size := m * (perKv * c.headDim + 2 * c.headDim);
      var chunks := Chunks(Slice(full, i * size, (i + 1) * size), m);
      AddPart(acc, full, c, i) == AddChunks(acc, chunks, |chunks|, perKv * c.headDim, c.headDim, true)
  {
    hide QSizeTp, KvSizeTp, Div, Chunks, AddChunks, Slice;
    Sizes(c, perKv, m);
  }

  lemma NoRows<T>(full: seq<T>, a: nat, kv: nat)
    ensures full[..0] == [] && Deinterleaved(full[..0], a, kv) == Qkv([], [], [])
  {
  }

  /** For every head counts and every tensor-parallel size dividing the key/value heads, the conversion collects the
      rows of all groups in order, and so does not depend on the tensor-parallel size. */
  lemma ConversionIsDeinterleaving<T>(full: seq<T>, c: Config, perKv: nat, m: nat)
    requires LaidOut(c, perKv, m) && |full| == c.tp * (m * (perKv * c.headDim + 2 * c.headDim))
    ensures Converted(full, c) == Success(Deinterleaved(full, perKv * c.headDim, c.headDim))
  {
    hide Deinterleaved;
    var a := perKv * c.headDim;
    PartsAdd(full, c, perKv, m, c.tp, a, m * (a + 2 * c.headDim));
    assert full[..|full|] == full;
  }

  /** The shards of the ranks, one after another. */
  function Shards<T>(full: seq<T>, size: nat, n: nat): (r: seq<seq<T>>)
    requires n * size <= |full|
    ensures |r| == n
  {
    seq(n, i requires 0 <= i < n => Slice(full, i * size, (i + 1) * size))
  }

  lemma {:induction false} ShardsAdd<T>(
    full: seq<T>, a: nat, h: nat, perKv: nat, m: nat, tp: nat, i: nat, size: nat)
    requires m > 0 && i <= tp && a == perKv * h && size == m * (a + 2 * h) && |full| == tp * size
    ensures 0 <= i * size <= |full|
    ensures SplitShards(Shards(full, size, tp), i, m * h, perKv, m) == Success(Deinterleaved(full[..i * size], a, h))
    decreases i
  {
    hide Div, Chunks, SplitChunks, Slice, Deinterleaved;
    if i == 0 {
      NoRows(full, a, h);
    } else {
      BlockBefore(i - 1, tp, size);
      ShardsAdd(full, a, h, perKv, m, tp, i - 1, size);
      ShardStep(full, a, h, perKv, m, tp, i - 1, size);
    }
  }

  lemma ShardStep<T>(full: seq<T>, a: nat, h: nat, perKv: nat, m: nat, tp: nat, i: nat, size: nat)
    requires m > 0 && i < tp && a == perKv * h && size == m * (a + 2 * h) && |full| == tp * size
    requires 0 <= i * size <= (i + 1) * size <= |full|
    requires SplitShards(Shards(full, size, tp), i, m * h, perKv, m) == Success(Deinterleaved(full[..i * size], a, h))
    ensures SplitShards(Shards(full, size, tp), i + 1, m * h, perKv, m) ==
      Success(Deinterleaved(full[..(i + 1) * size], a, h))
  {
    hide Div, Chunks, SplitChunks, Slice, Deinterleaved;
    WholePart(full, size, i);
    var part := Slice(full, i * size, (i + 1) * size);
    assert Shards(full, size, tp)[i] == part;
    PartAdds(full[..i * size], part, a, h, m);
    ShardSizes(m, h, perKv);
  }

  lemma ShardSizes(m: nat, h: nat, perKv: nat)
    requires m > 0
    ensures Div(m * h * perKv, m) == perKv * h && Div(m * h, m) == h
  {
    assert m * h * perKv == perKv * h * m;
    DivMod(m * h * perKv, perKv * h, 0, m);
    DivMod(m * h, h, 0, m);
  }

  lemma ShardZero<T>(full: seq<T>, c: Config, perKv: nat, m: nat)
    requires LaidOut(c, perKv, m) && |full| == c.tp * (m * (perKv * c.headDim + 2 * c.headDim))
    ensures var shards := Shards(full, m * (perKv * c.headDim + 2 * c.headDim), c.tp);
      && shards != [] && Multiple(|shards[0]|, perKv + 2) && Div(|shards[0]|, perKv + 2) == m * c.headDim
  {
    var size, h := m * (perKv * c.headDim + 2 * c.headDim), c.headDim;
    BlockBefore(0, c.tp, size);
    WholePart(full, size, 0);
    assert size == (m * h) * (perKv + 2);
    DivMod(size, m * h, 0, perKv + 2);
  }

  /** The concatenation of the ranks' shards gives the same rows as the conversion of the whole tensor. */
  lemma ConversionsAgree<T>(full: seq<T>, c: Config, perKv: nat, m: nat)
    requires LaidOut(c, perKv, m) && |full| == c.tp * (m * (perKv * c.headDim + 2 * c.headDim))
    ensures Concatenated(Shards(full, m * (perKv * c.headDim + 2 * c.headDim), c.tp), c.heads, c.kvHeads, c.tp) ==
      Converted(full, c)
  {
    hide Deinterleaved, Converted, SplitShards, Shards;
    var h := c.headDim;
    ConversionIsDeinterleaving(full, c, perKv, m);
    MulAtLeast(m, c.tp);
    DivMod(c.heads, perKv, 0, c.kvHeads);
    DivMod(c.kvHeads, m, 0, c.tp);
    ShardZero(full, c, perKv, m);
    ShardsAdd(full, perKv * h, h, perKv, m, c.tp, c.tp, m * (perKv * h + 2 * h));
    assert full[..|full|] == full;
  }

  /** Two tensor-parallel sizes, one result. */
  lemma TpSizeDoesNotMatter<T>(full: seq<T>, c: Config, d: Config, perKv: nat, m: nat, n: nat)
    requires LaidOut(c, perKv, m) && LaidOut(d, perKv, n) && c.headDim == d.headDim && c.kvHeads == d.kvHeads
    requires |full| == c.kvHeads * (perKv * c.headDim + 2 * c.headDim)
    ensures Converted(full, c) == Converted(full, d)
  {
    var b := perKv * c.headDim + 2 * c.headDim;
    assert c.tp * (m * b) == (m * c.tp) * b && d.tp * (n * b) == (n * d.tp) * b;
    hide Converted, Deinterleaved;
    ConversionIsDeinterleaving(full, c, perKv, m);
    ConversionIsDeinterleaving(full, d, perKv, n);
  }

  /** Every row of the fused weight is used exactly once. */
  lemma {:induction false} RowsOnce<T>(full: seq<T>, a: nat, kv: nat, n: nat)
    requires |full| == n * (a + 2 * kv)
    ensures var r := Deinterleaved(full, a, kv); multiset(r.q) + multiset(r.k) + multiset(r.v) == multiset(full)
    decreases n
  {
    var b := a + 2 * kv;
    if n == 0 || b == 0 {
      assert full == [];
    } else {
      BlockBefore(n - 1, n, b);
      var o := |full| - b;
      var group := full[o..];
      assert o == (n - 1) * b;
      RowsOnce(full[..o], a, kv, n - 1);
      assert full == full[..o] + group;
      assert group == group[..a] + group[a..a + kv] + group[a + kv..];
    }
  }

  /** The fused layout of a list of groups. */
  function Interleaved<T>(groups: seq<Qkv<T>>): seq<T> {
    if groups == [] then []
    else
      var g := groups[|groups| - 1];
      Interleaved(groups[..|groups| - 1]) + (g.q + g.k + g.v)
  }

  /** All queries, all keys, all values. */
  function Gathered<T>(groups: seq<Qkv<T>>): Qkv<T> {
    if groups == [] then Qkv([], [], [])
    else
      var g, rest := groups[|groups| - 1], Gathered(groups[..|groups| - 1]);
      Qkv(rest.q + g.q, rest.k + g.k, rest.v + g.v)
  }

  lemma RowParts<T>(q: seq<T>, k: seq<T>, v: seq<T>)
    ensures var row := q + k + v;
      row[..|q|] == q && row[|q|..|q| + |k|] == k && row[|q| + |k|..] == v
  {
  }

  /** De-interleaving undoes the fused layout. */
  lemma {:induction false} UndoesInterleaving<T>(groups: seq<Qkv<T>>, a: nat, kv: nat)
    requires a + 2 * kv > 0 && forall g | g in groups :: |g.q| == a && |g.k| == kv && |g.v| == kv
    ensures Deinterleaved(Interleaved(groups), a, kv) == Gathered(groups)
    decreases |groups|
  {
    if groups != [] {
      var n := |groups| - 1;
      var g := groups[n];
      UndoesInterleaving(groups[..n], a, kv);
      assert g in groups;
      RowParts(g.q, g.k, g.v);
      hide Deinterleaved;
      DeinterleavedPush(Interleaved(groups[..n]), g.q + g.k + g.v, a, kv);
    }
  }
}
