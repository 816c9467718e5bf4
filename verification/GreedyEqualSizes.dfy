/**
  How far the weights stay together when greedy_partition of verl/utils/seqlen_balancing.py is asked
  for equal sizes: every block of k consecutive items goes one to each part, so two parts differ by at
  most the ranges of the blocks, and no better bound holds.
*/
module GreedyEqualSizes {
  import opened Arithmetic
  import opened Sequences
  import opened Wrappers
  import opened TorchChunk
  import opened DifferencingSpec
  import opened BalancedPartitions
  import opened GreedyPartition

  // ----- one item of each block --------------------------------------------------------------

  /** The smallest count says in which block of k items the loop is. */
  lemma LeastCountIsBlock(parts: seq<seq<nat>>, k: nat, m: nat, a: nat)
    requires |parts| == k > 0 && a < k && |Concat<nat>(parts)| == m
    requires CountsWithinOne(parts) && forall j | 0 <= j < k :: |parts[a]| <= |parts[j]|
    ensures Div(m, k) == |parts[a]|
  {
    hide Concat;
    var c := |parts[a]|;
    ConcatCountAtLeast(parts, c);
    ConcatCountAtMost(parts, c + 1);
    assert k * (c + 1) == c * k + k && k * c == c * k;
    DivMod(m, c, m - c * k, k);
  }

  lemma NextBlock(seqlens: seq<nat>, k: nat, m: nat)
    requires k > 0 && m < |seqlens|
    ensures var b := Assigned(seqlens, Bias(seqlens, true), k, m);
      Div(m, k) == |b.parts[FirstLeast(b.sums, k)]|
  {
    var b := Assigned(seqlens, Bias(seqlens, true), k, m);
    var a := FirstLeast(b.sums, k);
    CountsDifferByOne(seqlens, k, m);
    AssignedCovers(seqlens, Bias(seqlens, true), k, m);
    CoverLength(b.parts, m);
    forall j | 0 <= j < k ensures |b.parts[a]| <= |b.parts[j]| {
      SumsOrderByCount(seqlens, k, m, a, j);
    }
    hide Assigned, Bias, FirstLeast, CountsWithinOne, Div;
    LeastCountIsBlock(b.parts, k, m, a);
  }

  /** The t-th item of every part comes from block t. */
  lemma {:induction false} OneOfEachBlock(seqlens: seq<nat>, k: nat, m: nat, j: nat, t: nat)
    requires k > 0 && m <= |seqlens| && j < k
    requires t < |Assigned(seqlens, Bias(seqlens, true), k, m).parts[j]|
    ensures var x := Assigned(seqlens, Bias(seqlens, true), k, m).parts[j][t]; x < m && Div(x, k) == t
    decreases m
  {
    hide Bias, Div;
    if m > 0 {
      var b := Assigned(seqlens, Bias(seqlens, true), k, m - 1);
      NextBlock(seqlens, k, m - 1);
      if t < |b.parts[j]| { OneOfEachBlock(seqlens, k, m - 1, j, t); }
    }
  }

  // ----- the spread --------------------------------------------------------------------------

  function MinOf(s: seq<nat>): nat
    requires s != []
  {
    if |s| == 1 then s[0] else if s[0] < MinOf(s[1..]) then s[0] else MinOf(s[1..])
  }

  lemma {:induction false} MinIsMin(s: seq<nat>, i: nat)
    requires i < |s|
    ensures MinOf(s) <= s[i]
  {
    if i > 0 { MinIsMin(s[1..], i - 1); }
  }

  /** The range of block t. */
  function BlockRange(s: seq<nat>, k: nat, t: nat): int
    requires k > 0 && (t + 1) * k <= |s|
  {
    var block := Group(s, k, t);
    MaxOf(block) - MinOf(block)
  }

  /** The ranges of the first `rounds` blocks together. */
  function RangesSum(s: seq<nat>, k: nat, rounds: nat): int
    requires k > 0 && rounds * k <= |s|
  {
    if rounds == 0 then 0
    else
      BlockBefore(rounds - 1, rounds, k);
      RangesSum(s, k, rounds - 1) + BlockRange(s, k, rounds - 1)
  }

  lemma InBlock(s: seq<nat>, k: nat, t: nat, x: nat)
    requires k > 0 && (t + 1) * k <= |s| && x < |s| && Div(x, k) == t
    ensures MinOf(Group(s, k, t)) <= s[x] <= MaxOf(Group(s, k, t))
  {
    assert x == t * k + x % k;
    assert t * k + k == (t + 1) * k;
    var block := Group(s, k, t);
    assert block[x % k] == s[x];
    MinIsMin(block, x % k);
    MaxIsMax(block, x % k);
  }

  /** Two lists with one item of each block. */
  lemma {:induction false} ListsDiffer(s: seq<nat>, k: nat, p: seq<nat>, q: seq<nat>, rounds: nat)
    requires k > 0 && rounds * k <= |s| && |p| == |q| == rounds
    requires forall t | 0 <= t < rounds :: p[t] < |s| && Div(p[t], k) == t && q[t] < |s| && Div(q[t], k) == t
    ensures PartSum(s, p) - PartSum(s, q) <= RangesSum(s, k, rounds)
    decreases rounds
  {
    if rounds > 0 {
      var t := rounds - 1;
      BlockBefore(t, rounds, k);
      ListsDiffer(s, k, p[..t], q[..t], t);
      InBlock(s, k, t, p[t]);
      InBlock(s, k, t, q[t]);
      hide Group, MaxOf, MinOf, Div;
    }
  }

  /** One item of each block, in order. */
  ghost predicate OnePerBlock(p: seq<nat>, k: nat, n: nat)
    requires k > 0
  {
    |p| == Div(n, k) && forall t | 0 <= t < |p| :: p[t] < n && Div(p[t], k) == t
  }

  lemma PartsOnePerBlock(seqlens: seq<nat>, k: nat, h: nat)
    requires k > 0 && Multiple(|seqlens|, k) && h < k && Greedy(seqlens, k, true).Success?
    ensures |Greedy(seqlens, k, true).value| == k && OnePerBlock(Greedy(seqlens, k, true).value[h], k, |seqlens|)
  {
    var n, parts := |seqlens|, Greedy(seqlens, k, true).value;
    assert parts[h] in parts;
    DivMod(n, |parts[h]|, 0, k);
    forall t | 0 <= t < |parts[h]| ensures parts[h][t] < n && Div(parts[h][t], k) == t {
      OneOfEachBlock(seqlens, k, n, h, t);
    }
  }

  lemma BlocksFill(n: nat, k: nat)
    requires k > 0 && Multiple(n, k)
    ensures Div(n, k) * k == n
  {
  }

  /** With equal sizes two parts differ by at most the ranges of all blocks together. */
  lemma EqualSizesSpread(seqlens: seq<nat>, k: nat)
    requires k > 0 && Multiple(|seqlens|, k)
    ensures 0 <= Div(|seqlens|, k) * k <= |seqlens|
    ensures var r := Greedy(seqlens, k, true);
      r.Success? && SpreadAtMost(seqlens, r.value, RangesSum(seqlens, k, Div(|seqlens|, k)))
  {
    hide Greedy, PartSum, RangesSum, Div, AllHold, Covers;
    GreedyEqualIff(seqlens, k);
    BlocksFill(|seqlens|, k);
    var parts := Greedy(seqlens, k, true).value;
    forall i, j | 0 <= i < |parts| && 0 <= j < |parts|
      ensures PartSum(seqlens, parts[i]) - PartSum(seqlens, parts[j]) <= RangesSum(seqlens, k, Div(|seqlens|, k))
    {
      PartsOnePerBlock(seqlens, k, i);
      PartsOnePerBlock(seqlens, k, j);
      ListsDiffer(seqlens, k, parts[i], parts[j], Div(|seqlens|, k));
    }
  }

  // ----- the largest item is a bound only for one part or one block --------------------------

  /** 0, w, ..., w, over and over */
  function ZeroThenWs(w: nat, k: nat, rounds: nat): (r: seq<nat>)
    requires k > 0
    ensures |r| == rounds * k
  {
    seq(rounds * k, i requires 0 <= i < rounds * k => if i % k == 0 then 0 else w)
  }

  /** The sums r items into a block: part 0 at `a` or one bias more, the others at a + d or one item more. */
  function SumsIn(k: nat, r: nat, a: nat, d: nat, item: nat, bias: nat): (s: seq<nat>)
    ensures |s| == k
  {
    seq(k, j => if j == 0 then (if r > 0 then a + bias else a) else if j < r then a + d + item else a + d)
  }

  lemma {:induction false} FirstLeastIs(sums: seq<nat>, n: nat, r: nat)
    requires r < n <= |sums|
    requires (forall j | 0 <= j < n :: sums[r] <= sums[j]) && forall j | 0 <= j < r :: sums[r] < sums[j]
    ensures FirstLeast(sums, n) == r
    decreases n
  {
    if r < n - 1 { FirstLeastIs(sums, n - 1, r); }
  }

  lemma ItemAt(w: nat, k: nat, rounds: nat, t: nat, r: nat)
    requires t < rounds && r < k
    ensures 0 <= t * k + r < rounds * k && ZeroThenWs(w, k, rounds)[t * k + r] == if r == 0 then 0 else w
  {
    BlockBefore(t, rounds, k);
    DivMod(t * k + r, t, r, k);
  }

  /** Part r gets the r-th item of the block. */
  lemma NextSums(k: nat, r: nat, a: nat, d: nat, w: nat, bias: nat)
    requires r < k && d < bias
    ensures var s, x := SumsIn(k, r, a, d, bias + w, bias), if r == 0 then 0 else w;
      FirstLeast(s, k) == r && s[r := s[r] + (x + bias)] == SumsIn(k, r + 1, a, d, bias + w, bias)
  {
    FirstLeastIs(SumsIn(k, r, a, d, bias + w, bias), k, r);
    hide FirstLeast;
  }

  lemma AssignedNext(seqlens: seq<nat>, bias: nat, k: nat, m: nat)
    requires k > 0 && m < |seqlens|
    ensures var s := Assigned(seqlens, bias, k, m).sums;
      Assigned(seqlens, bias, k, m + 1).sums ==
        s[FirstLeast(s, k) := s[FirstLeast(s, k)] + (seqlens[m] + bias)]
  {
    hide FirstLeast;
  }

  /** A full block: all parts have one item more. */
  lemma NextRound(k: nat, t: nat, w: nat, bias: nat)
    ensures SumsIn(k, k, t * bias, t * w, bias + w, bias) == SumsIn(k, 0, (t + 1) * bias, (t + 1) * w, bias + w, bias)
  {
    assert (t + 1) * bias == t * bias + bias && (t + 1) * w == t * w + w;
  }

  /** Part 0 is first in every block, and so takes all the zeros. */
  lemma {:induction false} SumsAfter(w: nat, k: nat, rounds: nat, bias: nat, t: nat, r: nat)
    requires k > 0 && t < rounds && r <= k && rounds * w < bias
    ensures 0 <= t * k + r <= rounds * k
    ensures Assigned(ZeroThenWs(w, k, rounds), bias, k, t * k + r).sums ==
      SumsIn(k, r, t * bias, t * w, bias + w, bias)
    decreases t, r
  {
    hide Assigned, ZeroThenWs, SumsIn, FirstLeast;
    var s := ZeroThenWs(w, k, rounds);
    BlockBefore(t, rounds, k);
    if r > 0 {
      SumsAfter(w, k, rounds, bias, t, r - 1);
      ItemAt(w, k, rounds, t, r - 1);
      AssignedNext(s, bias, k, t * k + r - 1);
      MulMono(t, rounds, w);
      NextSums(k, r - 1, t * bias, t * w, w, bias);
    } else if t > 0 {
      SumsAfter(w, k, rounds, bias, t - 1, k);
      assert (t - 1) * k + k == t * k;
      NextRound(k, t - 1, w, bias);
    } else {
      NoSums(s, bias, k, bias + w);
    }
  }

  lemma NoSums(seqlens: seq<nat>, bias: nat, k: nat, item: nat)
    requires k > 0
    ensures Assigned(seqlens, bias, k, 0).sums == SumsIn(k, 0, 0, 0, item, bias)
  {
  }

  lemma {:induction false} ZeroThenWsTotal(w: nat, k: nat, rounds: nat, t: nat)
    requires k >= 2 && t <= rounds
    ensures 0 <= t * k <= rounds * k && Total(ZeroThenWs(w, k, rounds)[..t * k]) >= t * w
    decreases t
  {
    hide ZeroThenWs;
    var s := ZeroThenWs(w, k, rounds);
    if t > 0 {
      BlockBefore(t - 1, rounds, k);
      ZeroThenWsTotal(w, k, rounds, t - 1);
      ItemAt(w, k, rounds, t - 1, 1);
      var o, p := (t - 1) * k, s[..t * k];
      TotalPrefix(p, o + 2);
      TotalPrefix(p[..o + 1], o);
      assert p[..o + 2][..o + 1] == p[..o + 1] && p[..o + 1][..o] == s[..o] && p[..o + 2][o + 1] == w;
      assert (t - 1) * w + w == t * w;
    } else {
      BlockBefore(0, rounds + 1, k);
    }
  }

  /** With equal sizes the weights can drift apart block by block, for any number of parts: one part takes nothing, each
      other one w per block. */
  lemma EqualSizesMayNotBalance(w: nat, k: nat, rounds: nat, j: nat)
    requires 0 < j < k && rounds > 0
    ensures var s := ZeroThenWs(w, k, rounds); var r := Greedy(s, k, true);
      && r.Success? && |r.value| == k
      && PartSum(s, r.value[0]) == 0 && PartSum(s, r.value[j]) == rounds * w
  {
    hide Assigned, ZeroThenWs, PartSum, Covers, Multiple;
    var s, n := ZeroThenWs(w, k, rounds), rounds * k;
    var bias := Bias(s, true);
    ZeroThenWsTotal(w, k, rounds, rounds);
    assert s[..n] == s;
    SumsAfter(w, k, rounds, bias, rounds - 1, k);
    NextRound(k, rounds - 1, w, bias);
    assert (rounds - 1) * k + k == n;
    AssignedSums(s, bias, k, n);
    IsMultiple(rounds, k);
    GreedyEqualIff(s, k);
    PartsOnePerBlock(s, k, 0);
    PartsOnePerBlock(s, k, j);
  }

  lemma IsMultiple(q: nat, k: nat)
    requires k > 0
    ensures 0 <= q * k && Multiple(q * k, k) && Div(q * k, k) == q
  {
    DivMod(q * k, q, 0, k);
  }

  /** The largest item bounds the difference of the sums. */
  ghost predicate BalancedByLargest(s: seq<nat>, k: nat) {
    var r := Greedy(s, k, true);
    r.Success? && SpreadAtMost(s, r.value, MaxOf(s))
  }

  lemma {:induction false} MaxAtMost(s: seq<nat>, b: nat)
    requires forall i | 0 <= i < |s| :: s[i] <= b
    ensures MaxOf(s) <= b
  {
    if s != [] { MaxAtMost(s[1..], b); }
  }

  lemma OneBlock(s: seq<nat>, k: nat)
    requires k > 0 && Multiple(|s|, k) && (k == 1 || |s| <= k)
    ensures BalancedByLargest(s, k)
  {
    EqualSizesSpread(s, k);
    GreedyEqualIff(s, k);
    var rounds := Div(|s|, k);
    if k > 1 {
      if |s| == k {
        DivMod(k, 1, 0, k);
        assert Group(s, k, 0) == s;
      } else if |s| < k {
        DivMod(|s|, 0, |s|, k);
      }
      assert RangesSum(s, k, rounds) <= MaxOf(s);
    }
    hide PartSum, RangesSum, Greedy, Div, MaxOf;
  }

  /** For every list of n items the sums differ by at most the largest item if and only if there is one part, or one item
      per part. */
  lemma EqualSizesBalanceIff(n: nat, k: nat)
    requires k > 0 && Multiple(n, k)
    ensures (forall s: seq<nat> | |s| == n :: BalancedByLargest(s, k)) <==> k == 1 || n <= k
  {
    if k == 1 || n <= k {
      forall s: seq<nat> | |s| == n ensures BalancedByLargest(s, k) {
        OneBlock(s, k);
      }
    } else {
      var rounds := Div(n, k);
      BlocksFill(n, k);
      MoreThanOne(n, k);
      var s := ZeroThenWs(1, k, rounds);
      EqualSizesMayNotBalance(1, k, rounds, 1);
      MaxAtMost(s, 1);
      hide Greedy, PartSum, MaxOf, ZeroThenWs;
      assert |s| == n;
      assert !BalancedByLargest(s, k);
    }
  }

  lemma MoreThanOne(n: nat, k: nat)
    requires k > 0 && Multiple(n, k) && n > k
    ensures Div(n, k) > 1
  {
    BlocksFill(n, k);
    if Div(n, k) <= 1 { MulMono(Div(n, k), 1, k); }
  }
}
