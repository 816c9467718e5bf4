/**
  greedy_partition of verl/utils/seqlen_balancing.py: each item goes to the part with the smallest
  running sum. With equal sizes a bias above the total is added to every item, which makes the
  running sums order the parts by count first and by real sum second.
*/
module GreedyPartition {
  import opened Sequences
  import opened Arithmetic
  import opened Wrappers
  import opened DifferencingSpec
  import opened BalancedPartitions

  function Bias(seqlens: seq<nat>, equal: bool): nat {
    if equal then Total(seqlens) + 1 else 0
  }

  /** partitions and partition_sums */
  datatype Bins = Bins(parts: seq<seq<nat>>, sums: seq<nat>)

  function NoItems(k: nat): Bins {
    Bins(seq(k, _ => []), seq(k, _ => 0))
  }

  /** The first of the smallest among the first n sums. */
  function FirstLeast(sums: seq<nat>, n: nat): (r: nat)
    requires 0 < n <= |sums|
    ensures r < n
    ensures forall j | 0 <= j < n :: sums[r] <= sums[j] && (j < r ==> sums[r] < sums[j])
  {
    if n == 1 then 0
    else
      var b := FirstLeast(sums, n - 1);
      if sums[n - 1] < sums[b] then n - 1 else b
  }

  function Put(b: Bins, j: nat, x: nat, w: nat): Bins
    requires j < |b.parts| == |b.sums|
  {
    Bins(b.parts[j := b.parts[j] + [x]], b.sums[j := b.sums[j] + w])
  }

  /** The bins after the first m items. */
  function Assigned(seqlens: seq<nat>, bias: nat, k: nat, m: nat): (b: Bins)
    requires k > 0 && m <= |seqlens|
    ensures |b.parts| == |b.sums| == k
  {
    if m == 0 then NoItems(k)
    else
      var b := Assigned(seqlens, bias, k, m - 1);
      Put(b, FirstLeast(b.sums, k), m - 1, seqlens[m - 1] + bias)
  }

  predicate AllHold(parts: seq<seq<nat>>, k: nat, n: nat) {
    forall p | p in parts :: |p| * k == n
  }

  function Greedy(seqlens: seq<nat>, k: nat, equal: bool): Result<seq<seq<nat>>, Error> {
    if k == 0 then (if seqlens == [] then Success([]) else Failure(TypeError))
    else
      var parts := Assigned(seqlens, Bias(seqlens, equal), k, |seqlens|).parts;
      if equal && !AllHold(parts, k, |seqlens|) then Failure(AssertionError) else Success(parts)
  }

  /** The inner loop: the index of the smallest running sum, None when there is no part. */
  method SmallestSum(sums: seq<nat>) returns (minIdx: Option<nat>)
    ensures minIdx == if sums == [] then None else Some(FirstLeast(sums, |sums|))
    ensures sums != [] ==>
      minIdx.value < |sums| && forall j | 0 <= j < |sums| ::
        sums[minIdx.value] <= sums[j] && (j < minIdx.value ==> sums[minIdx.value] < sums[j])
  {
    minIdx := None;
    for j := 0 to |sums|
      invariant minIdx == if j == 0 then None else Some(FirstLeast(sums, j))
    {
      if minIdx.None? || sums[j] < sums[minIdx.value] {
        minIdx := Some(j);
      }
    }
  }

  /** The closing assertions. */
  method CountsHold(partitions: seq<seq<nat>>, k: nat, n: nat) returns (ok: bool)
    ensures ok == AllHold(partitions, k, n)
  {
    for i := 0 to |partitions|
      invariant forall j | 0 <= j < i :: |partitions[j]| * k == n
    {
      assert partitions[i] in partitions;
      if |partitions[i]| * k != n { return false; }
    }
    ok := true;
  }

  lemma AssignedStep(seqlens: seq<nat>, bias: nat, k: nat, m: nat)
    requires k > 0 && m < |seqlens|
    ensures var b := Assigned(seqlens, bias, k, m);
      Assigned(seqlens, bias, k, m + 1) == Put(b, FirstLeast(b.sums, k), m, seqlens[m] + bias)
  {
  }

  method GreedyPartition(seqlens: seq<nat>, k: nat, equal: bool) returns (r: Result<seq<seq<nat>>, Error>)
    ensures r == Greedy(seqlens, k, equal)
  {
    var bias := if equal then Total(seqlens) + 1 else 0;
    var partitions: seq<seq<nat>> := seq(k, _ => []);
    var partitionSums: seq<nat> := seq(k, _ => 0);
    for i := 0 to |seqlens|
      invariant k == 0 ==> i == 0 && partitions == [] && partitionSums == []
      invariant k > 0 ==> Bins(partitions, partitionSums) == Assigned(seqlens, bias, k, i)
    {
      var minIdx := SmallestSum(partitionSums);
      if minIdx.None? { return Failure(TypeError); }
      AssignedStep(seqlens, bias, k, i);
      hide FirstLeast, Assigned;
      partitions := partitions[minIdx.value := partitions[minIdx.value] + [i]];
      partitionSums := partitionSums[minIdx.value := partitionSums[minIdx.value] + (seqlens[i] + bias)];
    }
    hide Assigned, AllHold;
    if equal {
      var ok := CountsHold(partitions, k, |seqlens|);
      if !ok { return Failure(AssertionError); }
    }
    r := Success(partitions);
  }

  /** A part lists its items in the order they come. */
  lemma {:induction false} AssignedIncrease(seqlens: seq<nat>, bias: nat, k: nat, m: nat)
    requires k > 0 && m <= |seqlens|
    ensures forall p | p in Assigned(seqlens, bias, k, m).parts :: Increasing(p) && Below(p, m)
  {
    hide FirstLeast;
    if m > 0 {
      AssignedIncrease(seqlens, bias, k, m - 1);
      var b := Assigned(seqlens, bias, k, m - 1);
      var j := FirstLeast(b.sums, k);
      assert b.parts[j] in b.parts;
      forall p | p in Put(b, j, m - 1, seqlens[m - 1] + bias).parts ensures Increasing(p) && Below(p, m) {
        assert p in b.parts || p == b.parts[j] + [m - 1];
      }
    }
  }

  // ----- what the running sums are -----------------------------------------------------------

  ghost predicate SumsAre(seqlens: seq<nat>, bias: nat, b: Bins) {
    && |b.parts| == |b.sums|
    && forall j | 0 <= j < |b.parts| :: b.sums[j] == PartSum(seqlens, b.parts[j]) + |b.parts[j]| * bias
  }

  lemma PutOne(seqlens: seq<nat>, p: seq<nat>, x: nat)
    requires x < |seqlens|
    ensures PartSum(seqlens, p + [x]) == PartSum(seqlens, p) + seqlens[x]
  {
    assert (p + [x])[..|p|] == p;
  }

  lemma PutSums(seqlens: seq<nat>, bias: nat, b: Bins, j: nat, x: nat)
    requires SumsAre(seqlens, bias, b) && j < |b.parts| && x < |seqlens|
    ensures SumsAre(seqlens, bias, Put(b, j, x, seqlens[x] + bias))
  {
    PutOne(seqlens, b.parts[j], x);
    hide PartSum;
    var p := b.parts[j];
    assert (|p| + 1) * bias == |p| * bias + bias;
    assert |p + [x]| == |p| + 1;
  }

  lemma {:induction false} AssignedSums(seqlens: seq<nat>, bias: nat, k: nat, m: nat)
    requires k > 0 && m <= |seqlens|
    ensures SumsAre(seqlens, bias, Assigned(seqlens, bias, k, m))
    decreases m
  {
    if m > 0 {
      hide SumsAre, PartSum, FirstLeast;
      AssignedSums(seqlens, bias, k, m - 1);
      var b := Assigned(seqlens, bias, k, m - 1);
      PutSums(seqlens, bias, b, FirstLeast(b.sums, k), m - 1);
    }
  }

  // ----- exact cover -------------------------------------------------------------------------

  lemma PutCovers(b: Bins, j: nat, x: nat, w: nat)
    requires j < |b.parts| == |b.sums| && Covers(b.parts, x)
    ensures Covers(Put(b, j, x, w).parts, x + 1)
  {
    var p, q := b.parts, Put(b, j, x, w).parts;
    var before, after := p[..j], p[j + 1..];
    assert p == before + [p[j]] + after && q == before + [p[j] + [x]] + after;
    ConcatThree(before, p[j], after);
    ConcatThree(before, p[j] + [x], after);
    assert Indices(x + 1) == Indices(x) + [x];
  }

  lemma ConcatThree(a: seq<seq<nat>>, p: seq<nat>, b: seq<seq<nat>>)
    ensures Concat(a + [p] + b) == Concat(a) + p + Concat(b)
  {
    ConcatSplit(a + [p], b);
    ConcatSplit(a, [p]);
    assert Concat([p]) == p;
  }

  lemma {:induction false} ConcatEmpties(k: nat)
    ensures Concat(NoItems(k).parts) == []
  {
    if k > 0 {
      ConcatEmpties(k - 1);
      assert NoItems(k).parts[1..] == NoItems(k - 1).parts;
    }
  }

  /** Each item is assigned exactly once. */
  lemma {:induction false} AssignedCovers(seqlens: seq<nat>, bias: nat, k: nat, m: nat)
    requires k > 0 && m <= |seqlens|
    ensures Covers(Assigned(seqlens, bias, k, m).parts, m)
    decreases m
  {
    if m == 0 {
      ConcatEmpties(k);
      assert Indices(0) == [];
    } else {
      AssignedCovers(seqlens, bias, k, m - 1);
      var b := Assigned(seqlens, bias, k, m - 1);
      PutCovers(b, FirstLeast(b.sums, k), m - 1, seqlens[m - 1] + bias);
    }
  }

  // ----- without bias: a bounded spread ------------------------------------------------------

  ghost predicate SumsWithin(sums: seq<nat>, bound: nat) {
    forall i, j | 0 <= i < |sums| && 0 <= j < |sums| :: sums[i] - sums[j] <= bound
  }

  lemma {:induction false} AssignedWithin(seqlens: seq<nat>, bias: nat, k: nat, m: nat)
    requires k > 0 && m <= |seqlens|
    ensures SumsWithin(Assigned(seqlens, bias, k, m).sums, MaxOf(seqlens) + bias)
    decreases m
  {
    if m > 0 {
      AssignedWithin(seqlens, bias, k, m - 1);
      MaxIsMax(seqlens, m - 1);
    }
  }

  /** The heaviest part exceeds the lightest by at most the largest item. */
  lemma GreedySpread(seqlens: seq<nat>, k: nat)
    requires k > 0
    ensures var r := Greedy(seqlens, k, false);
      && r.Success? && |r.value| == k && Covers(r.value, |seqlens|)
      && SpreadAtMost(seqlens, r.value, MaxOf(seqlens))
  {
    hide Assigned, PartSum, Covers;
    AssignedSums(seqlens, 0, k, |seqlens|);
    AssignedCovers(seqlens, 0, k, |seqlens|);
    AssignedWithin(seqlens, 0, k, |seqlens|);
  }

  // ----- with bias: equal counts -------------------------------------------------------------

  /** With remainders below the bias, the sums compare as (count, remainder) pairs. */
  lemma CountFirst(c: nat, s: nat, d: nat, t: nat, bias: nat)
    requires s < bias && t < bias
    ensures s + c * bias <= t + d * bias <==> c < d || (c == d && s <= t)
  {
    if c < d {
      MulAtLeast(d - c, bias);
      assert (d - c) * bias == d * bias - c * bias;
    } else if c > d {
      MulAtLeast(c - d, bias);
      assert (c - d) * bias == c * bias - d * bias;
    }
  }

  ghost predicate PartsBelow(seqlens: seq<nat>, parts: seq<seq<nat>>, bias: nat) {
    forall j | 0 <= j < |parts| :: PartSum(seqlens, parts[j]) < bias
  }

  lemma {:induction false} TotalPrefix(s: seq<nat>, m: nat)
    requires m <= |s|
    ensures Total(s[..m]) <= Total(s)
    decreases |s|
  {
    if m < |s| {
      TotalPrefix(s[..|s| - 1], m);
      assert s[..|s| - 1][..m] == s[..m];
    } else {
      assert s[..m] == s;
    }
  }

  /** No part outweighs all items so far. */
  lemma {:induction false} PartsAtMost(seqlens: seq<nat>, bias: nat, k: nat, m: nat, j: nat)
    requires k > 0 && m <= |seqlens| && j < k
    ensures PartSum(seqlens, Assigned(seqlens, bias, k, m).parts[j]) <= Total(seqlens[..m])
    decreases m
  {
    if m > 0 {
      PartsAtMost(seqlens, bias, k, m - 1, j);
      var b := Assigned(seqlens, bias, k, m - 1);
      PutOne(seqlens, b.parts[j], m - 1);
      assert seqlens[..m][..m - 1] == seqlens[..m - 1];
      hide PartSum;
    }
  }

  lemma BiasIsAbove(seqlens: seq<nat>, k: nat, m: nat)
    requires k > 0 && m <= |seqlens|
    ensures PartsBelow(seqlens, Assigned(seqlens, Bias(seqlens, true), k, m).parts, Bias(seqlens, true))
  {
    hide Assigned, PartSum;
    TotalPrefix(seqlens, m);
    forall j | 0 <= j < k ensures PartSum(seqlens, Assigned(seqlens, Bias(seqlens, true), k, m).parts[j]) <= Total(seqlens) {
      PartsAtMost(seqlens, Bias(seqlens, true), k, m, j);
    }
  }

  /** Running sums order the parts by count first and by real sum second. */
  lemma SumsOrderByCount(seqlens: seq<nat>, k: nat, m: nat, i: nat, j: nat)
    requires k > 0 && m <= |seqlens| && i < k && j < k
    ensures var b := Assigned(seqlens, Bias(seqlens, true), k, m);
      && |b.sums| == |b.parts| == k
      && (b.sums[i] <= b.sums[j] <==>
          || |b.parts[i]| < |b.parts[j]|
          || (|b.parts[i]| == |b.parts[j]| && PartSum(seqlens, b.parts[i]) <= PartSum(seqlens, b.parts[j])))
  {
    hide Assigned, PartSum, Bias;
    var bias := Bias(seqlens, true);
    var b := Assigned(seqlens, bias, k, m);
    AssignedSums(seqlens, bias, k, m);
    BiasIsAbove(seqlens, k, m);
    CountFirst(|b.parts[i]|, PartSum(seqlens, b.parts[i]), |b.parts[j]|, PartSum(seqlens, b.parts[j]), bias);
  }

  ghost predicate CountsWithinOne(parts: seq<seq<nat>>) {
    forall i, j | 0 <= i < |parts| && 0 <= j < |parts| :: |parts[i]| <= |parts[j]| + 1
  }

  lemma {:induction false} CountsDifferByOne(seqlens: seq<nat>, k: nat, m: nat)
    requires k > 0 && m <= |seqlens|
    ensures CountsWithinOne(Assigned(seqlens, Bias(seqlens, true), k, m).parts)
    decreases m
  {
    if m > 0 {
      CountsDifferByOne(seqlens, k, m - 1);
      var b := Assigned(seqlens, Bias(seqlens, true), k, m - 1);
      var a := FirstLeast(b.sums, k);
      forall j | 0 <= j < k ensures |b.parts[a]| <= |b.parts[j]| {
        SumsOrderByCount(seqlens, k, m - 1, a, j);
      }
      hide Assigned, Bias, FirstLeast;
    }
  }

  lemma {:induction false} ConcatCountAtLeast(parts: seq<seq<nat>>, c: nat)
    requires forall j | 0 <= j < |parts| :: |parts[j]| >= c
    ensures |Concat(parts)| >= |parts| * c
    ensures (exists j | 0 <= j < |parts| :: |parts[j]| > c) ==> |Concat(parts)| > |parts| * c
    decreases |parts|
  {
    if parts != [] {
      ConcatCountAtLeast(parts[1..], c);
      assert |Concat(parts)| == |parts[0]| + |Concat(parts[1..])|;
      hide Concat;
      assert |parts| * c == c + |parts[1..]| * c;
      if j :| 0 <= j < |parts| && |parts[j]| > c {
        assert j > 0 ==> parts[1..][j - 1] == parts[j];
      }
    }
  }

  lemma {:induction false} ConcatCountAtMost(parts: seq<seq<nat>>, c: nat)
    requires forall j | 0 <= j < |parts| :: |parts[j]| <= c
    ensures |Concat(parts)| <= |parts| * c
    ensures (exists j | 0 <= j < |parts| :: |parts[j]| < c) ==> |Concat(parts)| < |parts| * c
    decreases |parts|
  {
    if parts != [] {
      ConcatCountAtMost(parts[1..], c);
      assert |Concat(parts)| == |parts[0]| + |Concat(parts[1..])|;
      hide Concat;
      assert |parts| * c == c + |parts[1..]| * c;
      if j :| 0 <= j < |parts| && |parts[j]| < c {
        assert j > 0 ==> parts[1..][j - 1] == parts[j];
      }
    }
  }

  lemma AllEqual(parts: seq<seq<nat>>, k: nat, n: nat, q: nat)
    requires |parts| == k > 0 && CountsWithinOne(parts) && |Concat(parts)| == n && n == k * q
    ensures forall j | 0 <= j < k :: |parts[j]| == q
  {
    hide Concat;
    forall j | 0 <= j < k ensures |parts[j]| == q {
      if |parts[j]| > q {
        ConcatCountAtLeast(parts, q);
      } else if |parts[j]| < q {
        ConcatCountAtMost(parts, q);
      }
    }
  }

  lemma CoverLength(parts: seq<seq<nat>>, n: nat)
    requires Covers(parts, n)
    ensures |Concat(parts)| == n
  {
    assert |multiset(Concat(parts))| == |multiset(Indices(n))|;
  }

  /** With equal sizes the closing assertion holds exactly when k divides the number of items. */
  lemma GreedyEqualIff(seqlens: seq<nat>, k: nat)
    requires k > 0
    ensures var r := Greedy(seqlens, k, true);
      && (r.Success? <==> Multiple(|seqlens|, k))
      && (r.Success? ==> |r.value| == k && Covers(r.value, |seqlens|) && AllHold(r.value, k, |seqlens|))
  {
    hide Assigned, Covers, Bias, Concat, CountsWithinOne;
    var n := |seqlens|;
    var parts := Assigned(seqlens, Bias(seqlens, true), k, n).parts;
    AssignedCovers(seqlens, Bias(seqlens, true), k, n);
    if Multiple(n, k) {
      CountsDifferByOne(seqlens, k, n);
      CoverLength(parts, n);
      AllEqual(parts, k, n, n / k);
    } else if AllHold(parts, k, n) {
      assert parts[0] in parts;
      DivMod(n, |parts[0]|, 0, k);
      assert false;
    }
  }
}
