/**
  default_tp_concat_fn of verl/utils/megatron_utils.py on any shards: when it refuses, and that it never drops or doubles
  a row when it does not.
*/
module QkvConcat {
  import opened Arithmetic
  import opened Sequences
  import opened TorchChunk
  import opened Wrappers
  import opened QkvLayout

  /** Splitting fails with no other error than torch's. */
  lemma {:induction false} ChunkErrors<T>(acc: Qkv<T>, chunks: seq<seq<T>>, n: nat, q: nat, kv: nat)
    requires n <= |chunks|
    ensures SplitChunks(acc, chunks, n, q, kv).Failure? ==> SplitChunks(acc, chunks, n, q, kv).error == RuntimeError
  {
    if n > 0 { ChunkErrors(acc, chunks, n - 1, q, kv); }
  }

  lemma {:induction false} ShardErrors<T>(shards: seq<seq<T>>, i: nat, kv: nat, perKv: nat, n: nat)
    requires i <= |shards|
    ensures SplitShards(shards, i, kv, perKv, n).Failure? ==> SplitShards(shards, i, kv, perKv, n).error == RuntimeError
  {
    hide Chunks, SplitChunks, Div;
    if i > 0 {
      ShardErrors(shards, i - 1, kv, perKv, n);
      var r := SplitShards(shards, i - 1, kv, perKv, n);
      if r.Success? && n > 0 {
        var chunks := Chunks(shards[i - 1], n);
        ChunkErrors(r.value, chunks, |chunks|, Div(kv * perKv, n), Div(kv, n));
      }
    }
  }

  /** An assertion fails exactly if the heads are not a multiple of the key/value heads, or the rows of the first shard
      are not whole groups of queries, one key and one value. */
  lemma ConcatRefusesIff<T>(shards: seq<seq<T>>, heads: nat, kvHeads: nat, trainTp: nat)
    ensures Concatenated(shards, heads, kvHeads, trainTp) == Failure(Error.AssertionError) <==>
      kvHeads > 0 && (heads % kvHeads != 0 || (shards != [] && |shards[0]| % (heads / kvHeads + 2) != 0))
  {
    hide SplitShards;
    if kvHeads > 0 && shards != [] && trainTp > 0 {
      var perKv := Div(heads, kvHeads);
      ShardErrors(shards, |shards|, Div(|shards[0]|, perKv + 2), perKv, Div(kvHeads, trainTp));
    }
  }

  // ----- rows --------------------------------------------------------------------------------

  lemma {:induction false} PiecesConcat<T>(s: seq<T>, size: nat)
    requires size > 0
    ensures Concat(Pieces(s, size)) == s
    decreases |s|
  {
    if |s| > size {
      PiecesConcat(s[size..], size);
      assert s == s[..size] + s[size..];
    }
  }

  lemma {:induction false} EmptyConcat<T>(n: nat)
    ensures Concat<T>(seq(n, _ => [])) == []
  {
    if n > 0 {
      var e: seq<seq<T>> := seq(n, _ => []);
      EmptyConcat<T>(n - 1);
      assert e[1..] == seq(n - 1, _ => []);
    }
  }

  /** Chunking loses nothing. */
  lemma ChunksConcat<T>(s: seq<T>, n: nat)
    requires n > 0
    ensures Concat(Chunks(s, n)) == s
  {
    if s == [] {
      EmptyConcat<T>(n);
    } else {
      DivPositive(|s| + n - 1, n);
      PiecesConcat(s, Div(|s| + n - 1, n));
    }
  }

  lemma DivPositive(a: nat, n: nat)
    requires 0 < n <= a
    ensures Div(a, n) > 0
  {
    var q, r := a / n, a % n;
    assert a == q * n + r;
  }

  function RowsOf<T>(r: Qkv<T>): multiset<T> {
    multiset(r.q) + multiset(r.k) + multiset(r.v)
  }

  lemma ChunkKeepsRows<T>(acc: Qkv<T>, chunk: seq<T>, q: nat, kv: nat)
    requires SplitChunk(acc, chunk, q, kv).Success?
    ensures RowsOf(SplitChunk(acc, chunk, q, kv).value) == RowsOf(acc) + multiset(chunk)
  {
    assert chunk == chunk[..q] + chunk[q..q + kv] + chunk[q + kv..];
  }

  lemma {:induction false} ChunksKeepRows<T>(acc: Qkv<T>, chunks: seq<seq<T>>, n: nat, q: nat, kv: nat)
    requires n <= |chunks| && SplitChunks(acc, chunks, n, q, kv).Success?
    ensures RowsOf(SplitChunks(acc, chunks, n, q, kv).value) == RowsOf(acc) + multiset(Concat(chunks[..n]))
  {
    hide SplitChunk, RowsOf, Concat;
    if n == 0 {
      NothingConcat(chunks);
    } else {
      ChunksKeepRows(acc, chunks, n - 1, q, kv);
      ChunkKeepsRows(SplitChunks(acc, chunks, n - 1, q, kv).value, chunks[n - 1], q, kv);
      ConcatNext(chunks, n - 1);
    }
  }

  lemma NothingConcat<T>(s: seq<seq<T>>)
    ensures s[..0] == [] && Concat(s[..0]) == []
  {
  }

  lemma {:induction false} ShardsKeepRows<T>(shards: seq<seq<T>>, i: nat, kv: nat, perKv: nat, n: nat)
    requires i <= |shards| && SplitShards(shards, i, kv, perKv, n).Success?
    ensures RowsOf(SplitShards(shards, i, kv, perKv, n).value) == multiset(Concat(shards[..i]))
  {
    hide Chunks, SplitChunks, Div, Concat;
    if i == 0 {
      NothingConcat(shards);
    } else {
      hide RowsOf;
      ShardsKeepRows(shards, i - 1, kv, perKv, n);
      var chunks := Chunks(shards[i - 1], n);
      ChunksKeepRows(SplitShards(shards, i - 1, kv, perKv, n).value, chunks, |chunks|, Div(kv * perKv, n), Div(kv, n));
      ChunksConcat(shards[i - 1], n);
      assert chunks[..|chunks|] == chunks;
      ConcatNext(shards, i - 1);
    }
  }

  /** Whatever the head counts and the shards: if the concatenation succeeds, it uses every row exactly once. */
  lemma ConcatKeepsRows<T>(shards: seq<seq<T>>, heads: nat, kvHeads: nat, trainTp: nat)
    requires Concatenated(shards, heads, kvHeads, trainTp).Success?
    ensures RowsOf(Concatenated(shards, heads, kvHeads, trainTp).value) == multiset(Concat(shards))
  {
    hide SplitShards, RowsOf, Concat, Div;
    var perKv := Div(heads, kvHeads);
    ShardsKeepRows(shards, |shards|, Div(|shards[0]|, perKv + 2), perKv, Div(kvHeads, trainTp));
    assert shards[..|shards|] == shards;
  }
}
