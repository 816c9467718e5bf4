/**
  What rearrange_micro_batches of verl/utils/seqlen_balancing.py does with max_token_len: the limit
  only decides how many micro-batches there are. Their workloads are bounded; their token counts
  stay within the limit for all batches only in the smallest cases.
*/
module TokenLimit {
  import opened Arithmetic
  import opened Sequences
  import opened Wrappers
  import opened BalancedPartitions
  import opened MicroBatches

  /** n times the heaviest micro-batch is at most the whole workload plus n - 1 times the heaviest group. */
  lemma HeaviestMicroBatch(cfg: Config, seqlens: seq<nat>, i: nat)
    requires Rearranged(cfg, seqlens).Success? && i < |Rearranged(cfg, seqlens).value|
    ensures var r, work := Rearranged(cfg, seqlens).value, Workloads(seqlens);
      && cfg.groupSize > 0
      && |r| * PartSum(work, r[i]) <=
         PartSum(work, Indices(|seqlens|)) + (|r| - 1) * MaxOf(GroupWorkloads(work, cfg.groupSize))
  {
    hide Rearranged, Covers, SpreadAtMost, Workloads, GroupWorkloads, MaxOf, PartSum, MicroCount, GroupsTogether;
    RearrangedIff(cfg, seqlens);
    RearrangedAre(cfg, seqlens);
    var work := Workloads(seqlens);
    HeaviestPart(work, Rearranged(cfg, seqlens).value, MaxOf(GroupWorkloads(work, cfg.groupSize)), i);
  }

  /** The same arguments with another limit, for sequences of up to the limit. */
  function WithLimit(cfg: Config, limit: nat): Config {
    cfg.(maxSeqLen := limit, maxTokenLen := limit)
  }

  /** The arguments left at their defaults, but for the group size and the reordering. */
  function Plain(g: nat, balance: bool): Config {
    Config(0, 0, g, None, [], None, balance)
  }

  /** No micro-batch exceeds the limit. */
  ghost predicate KeepsLimit(cfg: Config, seqlens: seq<nat>) {
    var r := Rearranged(cfg, seqlens);
    r.Success? ==> forall p | p in r.value :: PartSum(seqlens, p) <= cfg.maxTokenLen
  }

  ghost predicate AtMost(seqlens: seq<nat>, limit: nat) {
    forall i | 0 <= i < |seqlens| :: seqlens[i] <= limit
  }

  // ----- lower bounds on a part --------------------------------------------------------------

  lemma PartSumSplit(seqlens: seq<nat>, p: seq<nat>, i: nat)
    requires i < |p| && p[i] < |seqlens|
    ensures PartSum(seqlens, p) == PartSum(seqlens, p[..i]) + seqlens[p[i]] + PartSum(seqlens, p[i + 1..])
  {
    assert p == p[..i] + [p[i]] + p[i + 1..];
    PartSumConcat(seqlens, p[..i] + [p[i]], p[i + 1..]);
    PartSumConcat(seqlens, p[..i], [p[i]]);
    assert [p[i]][..0] == [];
  }

  /** Two members of a part weigh no more than the part. */
  lemma TwoMembers(seqlens: seq<nat>, p: seq<nat>, x: nat, y: nat)
    requires x in p && y in p && x != y && x < |seqlens| && y < |seqlens|
    ensures PartSum(seqlens, p) >= seqlens[x] + seqlens[y]
  {
    var i :| 0 <= i < |p| && p[i] == x;
    var j :| 0 <= j < |p| && p[j] == y;
    PartSumSplit(seqlens, p, i);
    if j < i {
      PartSumSplit(seqlens, p[..i], j);
    } else {
      PartSumSplit(seqlens, p[i + 1..], j - i - 1);
    }
  }

  /** No part weighs more than the whole. */
  lemma PartAtMostTotal(seqlens: seq<nat>, parts: seq<seq<nat>>, i: nat)
    requires Covers(parts, |seqlens|) && i < |parts|
    ensures PartSum(seqlens, parts[i]) <= Total(seqlens)
  {
    SumAround(seqlens, parts, i);
    PartSumPermute(seqlens, Concat(parts), Indices(|seqlens|));
    IndicesTotal(seqlens, |seqlens|);
    assert seqlens[..|seqlens|] == seqlens;
  }

  lemma {:induction false} IndicesTotal(seqlens: seq<nat>, n: nat)
    requires n <= |seqlens|
    ensures PartSum(seqlens, Indices(n)) == Total(seqlens[..n])
  {
    if n > 0 {
      IndicesTotal(seqlens, n - 1);
      assert Indices(n)[..n - 1] == Indices(n - 1);
      assert seqlens[..n][..n - 1] == seqlens[..n - 1];
    }
  }

  // ----- how many micro-batches there are ----------------------------------------------------

  /** The number of micro-batches when the tokens call for m. */
  function CountFor(cfg: Config, m: nat): int
    requires cfg.dividedBy != Some(0)
  {
    if cfg.dividedBy.Some? then RoundUpDivisible(Raised(cfg, m), cfg.dividedBy.value) else Raised(cfg, m)
  }

  lemma CountForFacts(cfg: Config, m: nat, q: nat)
    requires cfg.dividedBy != Some(0) && m <= q
    ensures m <= CountFor(cfg, m) <= CountFor(cfg, q)
    ensures q <= CountFor(cfg, m) ==> CountFor(cfg, q) == CountFor(cfg, m)
  {
    hide MaxOf, RoundUpDivisible;
    if cfg.dividedBy.Some? {
      var d, x, y := cfg.dividedBy.value, Raised(cfg, m), Raised(cfg, q);
      RoundUpIsLeast(x, d);
      RoundUpIsLeast(y, d);
      LeastMultiple(x, d, RoundUpDivisible(y, d));
      if q <= CountFor(cfg, m) { LeastMultiple(y, d, RoundUpDivisible(x, d)); }
    }
  }

  /** The tokens call for one micro-batch per limit, and no more than there are groups. */
  function CalledFor(limit: nat, groups: nat, seqlens: seq<nat>): int
    requires limit > 0
  {
    Min(groups, CeilDiv(Total(seqlens), limit))
  }

  lemma CalledForFacts(limit: nat, groups: nat, seqlens: seq<nat>, m: nat)
    requires limit > 0
    ensures 0 <= CalledFor(limit, groups, seqlens) <= groups
    ensures CalledFor(limit, groups, seqlens) <= m <==> groups <= m || Total(seqlens) <= m * limit
  {
    CeilDivCovers(Total(seqlens), limit, m);
    CeilDivIsLeast(Total(seqlens), limit);
    CeilDivCovers(0, limit, 0);
    var c := CeilDiv(Total(seqlens), limit);
    assert (0 - c) * limit == 0 - c * limit;
    if c < 0 { MulAtLeast(0 - c, limit); }
    hide CeilDiv, Total;
  }

  lemma CountIs(cfg: Config, limit: nat, seqlens: seq<nat>)
    requires limit > 0 && cfg.groupSize > 0 && Multiple(|seqlens|, cfg.groupSize)
    ensures var groups, n := Div(|seqlens|, cfg.groupSize), MicroCount(WithLimit(cfg, limit), seqlens);
      && 0 <= CalledFor(limit, groups, seqlens)
      && (n.Success? ==> cfg.dividedBy != Some(0))
      && (cfg.dividedBy != Some(0) ==>
            var m := CountFor(cfg, CalledFor(limit, groups, seqlens));
            m >= 0 && n == if m <= groups then Success(m) else Failure(Error.AssertionError))
  {
    var groups := Div(|seqlens|, cfg.groupSize);
    CalledForFacts(limit, groups, seqlens, 0);
    if cfg.dividedBy != Some(0) {
      CountForFacts(cfg, CalledFor(limit, groups, seqlens), CalledFor(limit, groups, seqlens));
    }
    hide CeilDiv, Total, MaxOf, RoundUpDivisible;
  }

  /** What every list of index lists satisfies that is made. */
  lemma MadeLists(cfg: Config, limit: nat, seqlens: seq<nat>)
    requires Rearranged(WithLimit(cfg, limit), seqlens).Success?
    ensures var r, n := Rearranged(WithLimit(cfg, limit), seqlens).value, MicroCount(WithLimit(cfg, limit), seqlens);
      && n == Success(|r|) && |r| > 0 && limit > 0 && cfg.groupSize > 0 && Multiple(|seqlens|, cfg.groupSize)
      && Covers(r, |seqlens|) && (forall p | p in r :: p != [])
      && GroupsTogether(r, Div(|seqlens|, cfg.groupSize), cfg.groupSize)
  {
    hide Rearranged, Covers, SpreadAtMost, GroupsTogether, CountBeforeRounding;
    RearrangedIff(WithLimit(cfg, limit), seqlens);
    RearrangedAre(WithLimit(cfg, limit), seqlens);
  }

  /**
    The number of micro-batches of a batch with more tokens than one limit is the number of samples already, or
    larger than the number of groups, so that the request fails.
  */
  predicate CountForcesLimit(cfg: Config, size: nat)
    requires cfg.groupSize > 0
  {
    var groups := Div(size, cfg.groupSize);
    || groups == 0 || cfg.dividedBy == Some(0)
    || (var n := CountFor(cfg, if groups < 2 then groups else 2);
        n > groups || (cfg.groupSize == 1 && n == groups))
  }

  // ----- when the limit is kept --------------------------------------------------------------

  lemma {:induction false} NoEmptyPart(parts: seq<seq<nat>>)
    requires forall p | p in parts :: p != []
    ensures |Concat(parts)| >= |parts|
    ensures |Concat(parts)| == |parts| ==> forall p | p in parts :: |p| == 1
  {
    if parts != [] {
      assert forall p | p in parts[1..] :: p in parts;
      NoEmptyPart(parts[1..]);
      assert parts[0] in parts && parts == [parts[0]] + parts[1..];
    }
  }

  lemma Singles(seqlens: seq<nat>, parts: seq<seq<nat>>, limit: nat)
    requires AtMost(seqlens, limit) && Covers(parts, |seqlens|) && |parts| == |seqlens|
    requires forall p | p in parts :: p != []
    ensures forall p | p in parts :: PartSum(seqlens, p) <= limit
  {
    assert |multiset(Concat(parts))| == |multiset(Indices(|seqlens|))|;
    NoEmptyPart(parts);
    hide Concat;
    forall p | p in parts ensures PartSum(seqlens, p) <= limit {
      assert |p| == 1 && p[..0] == [];
    }
  }

  lemma WholeFits(seqlens: seq<nat>, parts: seq<seq<nat>>, limit: nat)
    requires Covers(parts, |seqlens|) && Total(seqlens) <= limit
    ensures forall p | p in parts :: PartSum(seqlens, p) <= limit
  {
    hide Covers, PartSum;
    forall p | p in parts ensures PartSum(seqlens, p) <= limit {
      var i :| 0 <= i < |parts| && parts[i] == p;
      PartAtMostTotal(seqlens, parts, i);
    }
  }

  lemma ForcedKeeps(cfg: Config, limit: nat, seqlens: seq<nat>)
    requires cfg.groupSize > 0 && CountForcesLimit(cfg, |seqlens|) && AtMost(seqlens, limit)
    ensures KeepsLimit(WithLimit(cfg, limit), seqlens)
  {
    hide Rearranged, MicroCount, Covers, GroupsTogether, PartSum, CountFor, CalledFor, AtMost, Total, Multiple, Div;
    if Rearranged(WithLimit(cfg, limit), seqlens).Success? {
      MadeLists(cfg, limit, seqlens);
      CountIs(cfg, limit, seqlens);
      var r, groups := Rearranged(WithLimit(cfg, limit), seqlens).value, Div(|seqlens|, cfg.groupSize);
      if Total(seqlens) <= limit {
        WholeFits(seqlens, r, limit);
      } else {
        var m := CalledFor(limit, groups, seqlens);
        CalledForFacts(limit, groups, seqlens, 1);
        CalledForFacts(limit, groups, seqlens, 0);
        AsManyAsSamples(cfg, |seqlens|, m);
        Singles(seqlens, r, limit);
      }
    }
  }

  lemma AsManyAsSamples(cfg: Config, size: nat, m: nat)
    requires cfg.groupSize > 0 && cfg.dividedBy != Some(0) && CountForcesLimit(cfg, size)
    requires var groups := Div(size, cfg.groupSize);
      0 < m <= groups && (m > 1 || groups <= 1) && CountFor(cfg, m) <= groups
    ensures cfg.groupSize == 1 && CountFor(cfg, m) == size
  {
    CountForFacts(cfg, if Div(size, cfg.groupSize) < 2 then Div(size, cfg.groupSize) else 2, m);
    hide CountFor;
  }

  // ----- when it is not ----------------------------------------------------------------------

  function Same(x: nat, n: nat): (r: seq<nat>)
    ensures |r| == n
  {
    seq(n, _ => x)
  }

  lemma {:induction false} SameTotal(x: nat, n: nat)
    ensures Total(Same(x, n)) == n * x
  {
    if n > 0 {
      SameTotal(x, n - 1);
      assert Same(x, n)[..n - 1] == Same(x, n - 1);
      assert n * x == (n - 1) * x + x;
    }
  }

  lemma {:induction false} PadTotal(s: seq<nat>, n: nat)
    ensures Total(s + Same(0, n)) == Total(s)
  {
    if n == 0 {
      assert s + Same(0, 0) == s;
    } else {
      PadTotal(s, n - 1);
      assert (s + Same(0, n))[..|s| + n - 1] == s + Same(0, n - 1);
    }
  }

  lemma QuotientPositive(n: nat, g: nat)
    requires g > 0 && n > 0 && Multiple(n, g)
    ensures 0 < Div(n, g) <= n && (g >= 2 ==> g <= n && Div(n, g) < n)
  {
    var q := n / g;
    assert n == q * g == g * q;
    MulMono(1, g, q);
    if g >= 2 { MulMono(2, g, q); }
    if q <= 0 { MulMono(q, 0, g); }
    MulMono(1, q, g);
  }

  /** A sample of full length and one more token in the same group. */
  function HeavyGroup(limit: nat, size: nat): (r: seq<nat>)
    requires size >= 2
    ensures |r| == size
  {
    [limit, 1] + Same(0, size - 2)
  }

  lemma HeavyTotal(limit: nat, size: nat)
    requires size >= 2
    ensures Total(HeavyGroup(limit, size)) == limit + 1
    ensures HeavyGroup(limit, size)[0] + HeavyGroup(limit, size)[1] == limit + 1
    ensures limit > 0 ==> AtMost(HeavyGroup(limit, size), limit)
  {
    PadTotal([limit, 1], size - 2);
    var s: seq<nat>, t: seq<nat> := [limit, 1], [limit];
    assert s[..1] == t && t[..0] == [];
    assert Total(t) == limit && Total(s) == Total(t) + 1;
  }

  /** The lists that are made when the number of micro-batches is at most the number of groups. */
  lemma Makes(cfg: Config, limit: nat, s: seq<nat>)
    requires limit > 0 && cfg.groupSize > 0 && Multiple(|s|, cfg.groupSize) && cfg.dividedBy != Some(0)
    requires var groups := Div(|s|, cfg.groupSize);
      CalledFor(limit, groups, s) >= 0 && 0 < CountFor(cfg, CalledFor(limit, groups, s)) <= groups
    ensures var r, groups := Rearranged(WithLimit(cfg, limit), s), Div(|s|, cfg.groupSize);
      && r.Success? && |r.value| == CountFor(cfg, CalledFor(limit, groups, s))
      && Covers(r.value, |s|) && GroupsTogether(r.value, groups, cfg.groupSize)
  {
    hide Rearranged, MicroCount, PartSum, Covers, Total, CountFor, CalledFor, Div, Multiple, GroupsTogether;
    CountIs(cfg, limit, s);
    RearrangedIff(WithLimit(cfg, limit), s);
    MadeLists(cfg, limit, s);
  }

  lemma HeavyCount(cfg: Config, limit: nat, size: nat)
    requires limit > 0 && cfg.groupSize >= 2 && Multiple(size, cfg.groupSize) && !CountForcesLimit(cfg, size)
    ensures size >= 2 && var s, groups := HeavyGroup(limit, size), Div(size, cfg.groupSize);
      && groups > 0 && CalledFor(limit, groups, s) >= 0
      && 0 < CountFor(cfg, CalledFor(limit, groups, s)) <= groups
  {
    var g, groups := cfg.groupSize, Div(size, cfg.groupSize);
    DivMod(0, 0, 0, g);
    QuotientPositive(size, g);
    var s := HeavyGroup(limit, size);
    HeavyTotal(limit, size);
    hide Total, CountFor, CalledFor, Div, Multiple, HeavyGroup;
    CalledForFacts(limit, groups, s, 0);
    CalledForFacts(limit, groups, s, 1);
    CalledForFacts(limit, groups, s, 2);
    CountForFacts(cfg, CalledFor(limit, groups, s), CalledFor(limit, groups, s));
  }

  /** A group is never split, even if it exceeds the limit. */
  lemma HeavyGroupExceeds(cfg: Config, limit: nat, size: nat)
    requires limit > 0 && cfg.groupSize >= 2 && Multiple(size, cfg.groupSize) && !CountForcesLimit(cfg, size)
    ensures size >= 2 && AtMost(HeavyGroup(limit, size), limit)
    ensures !KeepsLimit(WithLimit(cfg, limit), HeavyGroup(limit, size))
  {
    HeavyCount(cfg, limit, size);
    HeavyTotal(limit, size);
    hide Rearranged, PartSum, Covers, CountFor, CalledFor, Div, GroupsTogether, Multiple, HeavyGroup, AtMost;
    var s, groups := HeavyGroup(limit, size), Div(size, cfg.groupSize);
    Makes(cfg, limit, s);
    TogetherInFirst(s, Rearranged(WithLimit(cfg, limit), s).value, groups, cfg.groupSize);
  }

  /** Some list holds the first two samples. */
  lemma TogetherInFirst(s: seq<nat>, parts: seq<seq<nat>>, groups: nat, g: nat)
    requires g >= 2 && groups > 0 && |s| >= 2 && GroupsTogether(parts, groups, g)
    ensures exists p | p in parts :: PartSum(s, p) >= s[0] + s[1]
  {
    hide PartSum;
    assert SomeHas(parts, 0, g);
    var p :| p in parts && HasGroup(p, 0, g);
    var i: nat :| GroupAt(p, 0, g, i);
    assert p[i..i + g][0] == Range(0 * g, g)[0] == 0 && p[i..i + g][1] == Range(0 * g, g)[1] == 1;
    assert p[i] == 0 && p[i + 1] == 1;
    TwoMembers(s, p, 0, 1);
  }

  /** n + 1 samples of which any two exceed the limit, with no more tokens than n limits; 6, 6 and 5 for n = 2 and a limit
      of 10. */
  function Long(limit: nat, n: nat, size: nat): (r: seq<nat>)
    requires size > n
    ensures |r| == size
  {
    Same(limit / 2 + 1, n) + [limit - limit / 2] + Same(0, size - n - 1)
  }

  lemma LongTotal(limit: nat, n: nat, size: nat)
    requires limit >= 3 && size > n >= 2
    ensures limit < Total(Long(limit, n, size)) <= n * limit
  {
    var h, s: seq<nat> := limit / 2, Same(limit / 2 + 1, n) + [limit - limit / 2];
    PadTotal(s, size - n - 1);
    SameTotal(h + 1, n);
    assert s[..n] == Same(h + 1, n) && Total(s) == Total(s[..n]) + (limit - h);
    assert n * (h + 1) + n * (limit - h - 1) == n * limit;
    MulMono(2, n, h + 1);
    MulMono(2, n, limit - h - 1);
    assert s + Same(0, size - n - 1) == Long(limit, n, size);
  }

  /** Of more than n numbers below n, two are equal. */
  lemma {:induction false} Pigeonhole(f: seq<nat>, n: nat) returns (i: nat, j: nat)
    requires |f| > n && Below(f, n)
    ensures i < j < |f| && f[i] == f[j]
    decreases n
  {
    assert f[0] < n;
    if k: nat :| k < |f| && f[k] == n - 1 {
      if l: nat :| l < |f| && l != k && f[l] == n - 1 {
        i, j := Min(k, l), k + l - Min(k, l);
      } else {
        var x, y := Pigeonhole(f[..k] + f[k + 1..], n - 1);
        i, j := if x < k then x else x + 1, if y < k then y else y + 1;
      }
    } else {
      i, j := Pigeonhole(f, n - 1);
    }
  }

  /** The list that holds sample x. */
  lemma Holders(parts: seq<seq<nat>>, size: nat, m: nat) returns (f: seq<nat>)
    requires Covers(parts, size) && m <= size
    ensures |f| == m && Below(f, |parts|) && forall x: nat | x < m :: x in parts[f[x]]
    decreases m
  {
    if m == 0 {
      f := [];
    } else {
      f := Holders(parts, size, m - 1);
      var i, j := CoverMember(parts, size, m - 1);
      assert m - 1 in parts[i];
      f := f + [i];
    }
  }

  /** n lists cannot keep the n + 1 long samples apart. */
  lemma LongTogether(limit: nat, n: nat, size: nat, parts: seq<seq<nat>>)
    requires size > n && Covers(parts, size) && |parts| == n
    ensures exists p | p in parts :: PartSum(Long(limit, n, size), p) > limit
  {
    hide Covers, PartSum;
    var f := Holders(parts, size, n + 1);
    var x, y := Pigeonhole(f, n);
    assert parts[f[x]] in parts;
    TwoMembers(Long(limit, n, size), parts[f[x]], x, y);
  }

  lemma LongAtMost(limit: nat, n: nat, size: nat)
    requires limit >= 3 && size > n
    ensures AtMost(Long(limit, n, size), limit)
  {
  }

  lemma LongCount(cfg: Config, limit: nat, size: nat)
    requires limit >= 3 && cfg.groupSize == 1 && !CountForcesLimit(cfg, size)
    ensures var n := CountFor(cfg, 2);
      && 2 <= n < size && Div(size, 1) == size && Multiple(size, 1)
      && CalledFor(limit, size, Long(limit, n, size)) >= 0
      && CountFor(cfg, CalledFor(limit, size, Long(limit, n, size))) == n
  {
    DivMod(size, size, 0, 1);
    CountForFacts(cfg, 1, 1);
    CountForFacts(cfg, 2, 2);
    var n := CountFor(cfg, 2);
    hide CountFor;
    var s := Long(limit, n, size);
    LongTotal(limit, n, size);
    hide Total, CalledFor, Long;
    CalledForFacts(limit, size, s, n);
    CalledForFacts(limit, size, s, 1);
    CountForFacts(cfg, 2, CalledFor(limit, size, s));
  }

  /** Single samples: with fewer micro-batches than samples there are lengths that exceed the limit. */
  lemma LongExceed(cfg: Config, limit: nat, size: nat)
    requires limit >= 3 && cfg.groupSize == 1 && !CountForcesLimit(cfg, size)
    ensures var n := CountFor(cfg, 2);
      && 2 <= n < size && AtMost(Long(limit, n, size), limit)
      && !KeepsLimit(WithLimit(cfg, limit), Long(limit, n, size))
  {
    LongCount(cfg, limit, size);
    hide Rearranged, PartSum, Covers, CountFor, CalledFor, GroupsTogether, Long, AtMost, Div, Multiple;
    var n := CountFor(cfg, 2);
    LongAtMost(limit, n, size);
    var s := Long(limit, n, size);
    Makes(cfg, limit, s);
    LongTogether(limit, n, size, Rearranged(WithLimit(cfg, limit), s).value);
  }

  /** Whatever the lengths up to the limit, micro-batches of a batch of this size stay within it. */
  ghost predicate AlwaysKeeps(limit: nat, cfg: Config, size: nat) {
    forall seqlens: seq<nat> | |seqlens| == size && AtMost(seqlens, limit) :: KeepsLimit(WithLimit(cfg, limit), seqlens)
  }

  /** For each limit of at least three tokens, the micro-batches of all batches of a size stay within the limit if and only
      if the other arguments force them to. */
  lemma TokenLimitAtIff(limit: nat, cfg: Config, size: nat)
    requires limit >= 3 && cfg.groupSize > 0 && Multiple(size, cfg.groupSize)
    ensures AlwaysKeeps(limit, cfg, size) <==> CountForcesLimit(cfg, size)
  {
    hide KeepsLimit, AtMost, CountForcesLimit;
    if CountForcesLimit(cfg, size) {
      forall seqlens: seq<nat> | |seqlens| == size && AtMost(seqlens, limit)
        ensures KeepsLimit(WithLimit(cfg, limit), seqlens)
      {
        ForcedKeeps(cfg, limit, seqlens);
      }
    } else if cfg.groupSize == 1 {
      LongExceed(cfg, limit, size);
    } else {
      HeavyGroupExceeds(cfg, limit, size);
    }
  }

  /** The same as a promise for every limit. */
  lemma TokenLimitIff(cfg: Config, size: nat)
    requires cfg.groupSize > 0 && Multiple(size, cfg.groupSize)
    ensures (forall limit: nat :: AlwaysKeeps(limit, cfg, size)) <==> CountForcesLimit(cfg, size)
  {
    hide KeepsLimit, AtMost, CountForcesLimit;
    if CountForcesLimit(cfg, size) {
      forall limit: nat, seqlens: seq<nat> | |seqlens| == size && AtMost(seqlens, limit)
        ensures KeepsLimit(WithLimit(cfg, limit), seqlens)
      {
        ForcedKeeps(cfg, limit, seqlens);
      }
    } else {
      TokenLimitAtIff(3, cfg, size);
    }
  }

  /** With the default arguments: at most two samples and no forced groups. */
  lemma DefaultTokenLimitIff(g: nat, balance: bool, size: nat)
    requires g > 0 && Multiple(size, g)
    ensures (forall limit: nat :: AlwaysKeeps(limit, Plain(g, balance), size)) <==> size == 0 || (g == 1 && size <= 2)
  {
    TokenLimitIff(Plain(g, balance), size);
    hide AlwaysKeeps;
    if size > 0 { QuotientPositive(size, g); }
    DivMod(0, 0, 0, g);
    DivMod(size, size, 0, 1);
  }
}
