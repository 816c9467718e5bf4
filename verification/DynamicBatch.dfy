/**
  Dynamic batching of verl/utils/seqlen_balancing.py: the loops of rearrange_micro_batches, the
  inversion of the index lists and the restoration of the original order.
*/
module DynamicBatch {
  import opened Sequences
  import opened Arithmetic
  import opened Wrappers
  import opened BalancedPartitions
  import opened MicroBatches
  import KarmarkarKarp

  /** The loop that turns group indices back into sample indices. */
  method ExpandGroups(groupParts: seq<seq<nat>>, g: nat) returns (micro: seq<seq<nat>>)
    ensures micro == ExpandAll(groupParts, g)
  {
    micro := [];
    for i := 0 to |groupParts|
      invariant micro == ExpandAll(groupParts[..i], g)
    {
      var samples: seq<nat> := [];
      for j := 0 to |groupParts[i]|
        invariant samples == Expand(groupParts[i][..j], g)
      {
        assert groupParts[i][..j + 1][..j] == groupParts[i][..j];
        var start := groupParts[i][j] * g;
        samples := samples + Range(start, g);
      }
      assert groupParts[i][..|groupParts[i]|] == groupParts[i];
      micro := micro + [samples];
      assert micro == ExpandAll(groupParts[..i + 1], g);
    }
    assert groupParts[..|groupParts|] == groupParts;
  }

  /** The index lists of rearrange_micro_batches. */
  method RearrangeMicroBatches(cfg: Config, seqlens: seq<nat>) returns (r: Result<seq<seq<nat>>, Error>)
    ensures r == Rearranged(cfg, seqlens)
  {
    hide CountBeforeRounding, Balanced, SortByKey, ExpandAll, GroupWorkloads, Workloads;
    var n := MicroCount(cfg, seqlens);
    if n.Failure? { return Failure(n.error); }
    var micro: seq<seq<nat>>, workloads: seq<nat>;
    if cfg.groupSize > 1 {
      workloads := GroupWorkloads(Workloads(seqlens), cfg.groupSize);
      var groups := KarmarkarKarp.GetSeqlenBalancedPartitions(workloads, n.value, false);
      if groups.Failure? { return groups; }
      micro := ExpandGroups(groups.value, cfg.groupSize);
    } else {
      workloads := Workloads(seqlens);
      var parts := KarmarkarKarp.GetSeqlenBalancedPartitions(workloads, n.value, false);
      if parts.Failure? { return parts; }
      micro := parts.value;
    }
    if cfg.balance {
      micro := SortByKey(workloads, cfg.groupSize, micro);
      micro := Interleave.Reverse(Interleave.Evens(micro)) + Interleave.Odds(micro);
    }
    r := Success(micro);
  }

  // ----- get_reverse_idx ---------------------------------------------------------------------

  /** The copy after the first m writes. */
  ghost function Written(idx: seq<nat>, m: nat): (r: seq<nat>)
    requires m <= |idx| && Below(idx[..m], |idx|)
    ensures |r| == |idx|
  {
    if m == 0 then idx
    else
      assert idx[m - 1] == idx[..m][m - 1];
      assert idx[..m - 1] == idx[..m][..m - 1];
      Written(idx, m - 1)[idx[m - 1] := m - 1]
  }

  method GetReverseIdx(idxMap: seq<nat>) returns (r: Result<seq<nat>, Error>)
    ensures r.Success? <==> Below(idxMap, |idxMap|)
    ensures r.Success? ==> idxMap[..|idxMap|] == idxMap && r.value == Written(idxMap, |idxMap|)
    ensures r.Failure? ==> r.error == IndexError
  {
    var n := |idxMap|;
    var reverse := new nat[n](i requires 0 <= i < n => idxMap[i]);
    assert reverse[..] == idxMap;
    for i := 0 to n
      invariant Below(idxMap[..i], n) && reverse[..] == Written(idxMap, i)
    {
      if idxMap[i] >= n { return Failure(IndexError); }
      assert idxMap[..i + 1] == idxMap[..i] + [idxMap[i]];
      reverse[idxMap[i]] := i;
    }
    assert idxMap[..n] == idxMap;
    r := Success(reverse[..]);
  }

  /** Later writes win. */
  lemma {:induction false} LastWriteWins(idx: seq<nat>, m: nat, i: nat)
    requires i < m <= |idx| && Below(idx[..m], |idx|) && forall j | i < j < m :: idx[j] != idx[i]
    ensures idx[i] < |idx| && Written(idx, m)[idx[i]] == i
    decreases m
  {
    assert idx[i] == idx[..m][i];
    assert idx[..m - 1] == idx[..m][..m - 1];
    if i < m - 1 {
      LastWriteWins(idx, m - 1, i);
    }
  }

  ghost predicate Inverts(rev: seq<nat>, idx: seq<nat>) {
    forall i | 0 <= i < |idx| :: idx[i] < |rev| && rev[idx[i]] == i
  }

  /** The result is an inverse exactly when no index occurs twice. */
  lemma ReverseInvertsIff(idx: seq<nat>)
    requires Below(idx, |idx|)
    ensures idx[..|idx|] == idx && (Inverts(Written(idx, |idx|), idx) <==> Distinct(idx))
  {
    assert idx[..|idx|] == idx;
    var rev := Written(idx, |idx|);
    if Distinct(idx) {
      forall i: nat | i < |idx| ensures idx[i] < |rev| && rev[idx[i]] == i {
        LastWriteWins(idx, |idx|, i);
      }
    } else {
      hide Written;
      var i, j :| 0 <= i < j < |idx| && idx[i] == idx[j];
      assert rev[idx[i]] != i || rev[idx[j]] != j;
    }
  }

  // ----- restore_dynamic_batch ---------------------------------------------------------------

  lemma {:induction false} WrittenBelow(idx: seq<nat>, m: nat)
    requires m <= |idx| && Below(idx, |idx|)
    ensures Below(idx[..m], |idx|) && Below(Written(idx, m), |idx|)
    decreases m
  {
    if m > 0 {
      WrittenBelow(idx, m - 1);
    }
  }

  method RestoreDynamicBatch<T>(data: seq<T>, lists: seq<seq<nat>>) returns (r: Result<seq<T>, Error>)
    ensures |Concat(lists)| != |data| ==> r == Failure(AssertionError)
    ensures |Concat(lists)| == |data| ==> (r.Success? <==> Below(Concat(lists), |data|))
    ensures r.Success? ==> |r.value| == |data| && RestoredBy(data, Concat(lists), r.value)
  {
    var indices: seq<nat> := [];
    for i := 0 to |lists|
      invariant indices == Concat(lists[..i])
    {
      ConcatNext(lists, i);
      indices := indices + lists[i];
    }
    assert lists[..|lists|] == lists;
    if |indices| != |data| { return Failure(AssertionError); }
    var revert := GetReverseIdx(indices);
    if revert.Failure? { return Failure(revert.error); }
    WrittenBelow(indices, |indices|);
    r := Success(Select(data, revert.value));
  }

  /** Row j of the result is the row at place Written(idx)[j] of the data. */
  ghost predicate RestoredBy<T>(data: seq<T>, idx: seq<nat>, restored: seq<T>) {
    && |data| == |idx| == |restored| && Below(idx, |idx|)
    && (WrittenBelow(idx, |idx|); restored == Select(data, Written(idx, |idx|)))
  }

  function MapRows<T, U>(f: T -> U, rows: seq<T>): (r: seq<U>)
    ensures |r| == |rows|
  {
    seq(|rows|, i requires 0 <= i < |rows| => f(rows[i]))
  }

  ghost predicate ListsBelow(lists: seq<seq<nat>>, n: nat) {
    forall i | 0 <= i < |lists| :: Below(lists[i], n)
  }

  /** f on the rows of each micro-batch. */
  ghost function Outputs<T, U>(f: T -> U, rows: seq<T>, lists: seq<seq<nat>>): (r: seq<seq<U>>)
    requires ListsBelow(lists, |rows|)
    ensures |r| == |lists|
  {
    seq(|lists|, i requires 0 <= i < |lists| => MapRows(f, Select(rows, lists[i])))
  }

  lemma {:induction false} ConcatBelow(lists: seq<seq<nat>>, n: nat)
    requires ListsBelow(lists, n)
    ensures Below(Concat(lists), n)
  {
    if lists != [] {
      assert ListsBelow(lists[1..], n);
      ConcatBelow(lists[1..], n);
    }
  }

  lemma {:induction false} OutputsConcat<T, U>(f: T -> U, rows: seq<T>, lists: seq<seq<nat>>)
    requires ListsBelow(lists, |rows|) && Below(Concat(lists), |rows|)
    ensures Concat(Outputs(f, rows, lists)) == MapRows(f, Select(rows, Concat(lists)))
  {
    if lists != [] {
      var tail := lists[1..];
      assert ListsBelow(tail, |rows|);
      ConcatBelow(tail, |rows|);
      OutputsConcat(f, rows, tail);
      assert Outputs(f, rows, lists)[1..] == Outputs(f, rows, tail);
      assert Concat(lists) == lists[0] + Concat(tail);
      hide Concat;
      assert Select(rows, lists[0] + Concat(tail)) == Select(rows, lists[0]) + Select(rows, Concat(tail));
    }
  }

  lemma CoverIsPermutation(lists: seq<seq<nat>>, n: nat)
    requires Covers(lists, n)
    ensures |Concat(lists)| == n && Below(Concat(lists), n) && Distinct(Concat(lists)) && ListsBelow(lists, n)
    ensures forall j: nat | j < n :: j in Concat(lists)
  {
    var c := Concat(lists);
    assert |multiset(c)| == |multiset(Indices(n))|;
    CoverElements(lists, n);
    forall i | 0 <= i < |c| ensures c[i] < n {
      assert c[i] in multiset(Indices(n));
    }
    forall i, j | 0 <= i < j < |c| ensures c[i] != c[j] {
      TwiceCounts(c, i, j);
      assert multiset(c)[c[i]] <= 1;
    }
    forall i: nat | i < |lists| ensures Below(lists[i], n) {
      CoverBelow(lists, n, i);
    }
    forall j: nat | j < n ensures j in c {
      assert Indices(n)[j] == j && j in multiset(Indices(n));
    }
  }

  /** Restoring the concatenated row-wise results gives the results in the original order. */
  lemma RestoreUndoes<T, U>(f: T -> U, rows: seq<T>, lists: seq<seq<nat>>)
    requires Covers(lists, |rows|)
    ensures ListsBelow(lists, |rows|)
    ensures RestoredBy(Concat(Outputs(f, rows, lists)), Concat(lists), MapRows(f, rows))
  {
    var n, idx := |rows|, Concat(lists);
    CoverIsPermutation(lists, n);
    OutputsConcat(f, rows, lists);
    ReverseInvertsIff(idx);
    WrittenBelow(idx, n);
    var data := Concat(Outputs(f, rows, lists));
    hide Written, Concat, Outputs, Covers;
    forall j: nat | j < n ensures f(rows[j]) == data[Written(idx, n)[j]] {
      assert j in idx;
      var i :| 0 <= i < |idx| && idx[i] == j;
    }
    assert MapRows(f, rows) == Select(data, Written(idx, n));
  }

  /** The round trip of dynamic batching, for every configuration that yields micro-batches. */
  lemma DynamicBatchRoundTrip<T, U>(cfg: Config, seqlens: seq<nat>, f: T -> U, rows: seq<T>)
    requires Rearranged(cfg, seqlens).Success? && |rows| == |seqlens|
    ensures var lists := Rearranged(cfg, seqlens).value;
      && ListsBelow(lists, |rows|)
      && RestoredBy(Concat(Outputs(f, rows, lists)), Concat(lists), MapRows(f, rows))
  {
    hide Rearranged, MicroCount, Outputs, Covers, ListsBelow, RestoredBy;
    RearrangedIff(cfg, seqlens);
    RearrangedAre(cfg, seqlens);
    var lists := Rearranged(cfg, seqlens).value;
    assert Covers(lists, |Workloads(seqlens)|);
    RestoreUndoes(f, rows, lists);
  }
}
