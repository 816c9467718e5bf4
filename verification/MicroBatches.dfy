/**
  The index part of rearrange_micro_batches of verl/utils/seqlen_balancing.py: how many micro-batches,
  which samples go together, and in which order the micro-batches are processed.
*/
module MicroBatches {
  import opened Sequences
  import opened Arithmetic
  import opened Wrappers
  import opened BalancedPartitions
  import opened Interleave

  // ----- how many micro-batches --------------------------------------------------------------

  /** Python's `a // b`, rounding down for either sign of b. */
  function FloorDiv(a: int, b: int): int
    requires b != 0
  {
    if b > 0 then a / b else (0 - a) / (0 - b)
  }

  /** `-(a // -b)` */
  function CeilDiv(a: int, b: int): int
    requires b != 0
  {
    0 - FloorDiv(a, 0 - b)
  }

  function RoundUpDivisible(a: int, b: int): int
    requires b != 0
  {
    FloorDiv(a + b - 1, b) * b
  }

  /** The least integer not below a / b, for either sign of the divisor. */
  lemma CeilDivIsLeast(a: int, b: int)
    requires b != 0
    ensures b > 0 ==> (CeilDiv(a, b) - 1) * b < a <= CeilDiv(a, b) * b
    ensures b < 0 ==> CeilDiv(a, b) * b <= a < (CeilDiv(a, b) - 1) * b
  {
    if b > 0 {
      var q, r := (0 - a) / b, (0 - a) % b;
      assert 0 - a == q * b + r;
      assert CeilDiv(a, b) == 0 - q;
      assert (0 - q) * b == 0 - q * b;
      assert (0 - q - 1) * b == 0 - q * b - b;
    } else {
      var d := 0 - b;
      var q, r := a / d, a % d;
      assert a == q * d + r;
      assert CeilDiv(a, b) == 0 - q;
      assert (0 - q) * b == q * d;
      assert (0 - q - 1) * b == q * d + d;
    }
  }

  /** The least multiple of b that is at least a. */
  lemma RoundUpIsLeast(a: int, b: nat)
    requires b > 0
    ensures RoundUpDivisible(a, b) % b == 0 && a <= RoundUpDivisible(a, b) < a + b
    ensures a >= 0 ==> RoundUpDivisible(a, b) >= 0 && Multiple(RoundUpDivisible(a, b), b)
  {
    var q, r := (a + b - 1) / b, (a + b - 1) % b;
    assert a + b - 1 == q * b + r;
    assert RoundUpDivisible(a, b) == q * b;
    DivMod(q * b, q, 0, b);
  }

  /** The arguments, with the padded width, and the counts of the other ranks of the all-reduce. */
  datatype Config = Config(
    maxSeqLen: nat, maxTokenLen: nat, groupSize: nat, minMicro: Option<nat>, peers: seq<nat>,
    dividedBy: Option<nat>, balance: bool)

  /** n raised to the requested minimum and to the other ranks' numbers. */
  function Raised(cfg: Config, n: int): int {
    var m := if cfg.minMicro.Some? && cfg.minMicro.value > n then cfg.minMicro.value else n;
    if MaxOf(cfg.peers) > m then MaxOf(cfg.peers) else m
  }

  function CountBeforeRounding(cfg: Config, seqlens: seq<nat>): int
    requires cfg.groupSize > 0 && cfg.maxTokenLen > 0
  {
    var groups, needed := |seqlens| / cfg.groupSize, CeilDiv(Total(seqlens), cfg.maxTokenLen);
    Raised(cfg, if groups <= needed then groups else needed)
  }

  function MicroCount(cfg: Config, seqlens: seq<nat>): Result<nat, Error> {
    if cfg.maxTokenLen < cfg.maxSeqLen then Failure(AssertionError)
    else if cfg.groupSize == 0 then Failure(ZeroDivisionError)
    else if !Multiple(|seqlens|, cfg.groupSize) then Failure(AssertionError)
    else if cfg.maxTokenLen == 0 then Failure(ZeroDivisionError)
    else
      var n := CountBeforeRounding(cfg, seqlens);
      CountIsNat(cfg, seqlens);
      if cfg.dividedBy == Some(0) then Failure(ZeroDivisionError)
      else
        var m := if cfg.dividedBy.Some? then RoundUpDivisible(n, cfg.dividedBy.value) else n;
        if cfg.dividedBy.Some? then
          RoundUpIsLeast(n, cfg.dividedBy.value);
          if m <= |seqlens| / cfg.groupSize then Success(m) else Failure(AssertionError)
        else if m <= |seqlens| / cfg.groupSize then Success(m) else Failure(AssertionError)
  }

  lemma CountIsNat(cfg: Config, seqlens: seq<nat>)
    requires cfg.groupSize > 0 && cfg.maxTokenLen > 0
    ensures CountBeforeRounding(cfg, seqlens) >= 0
  {
    var a, b := Total(seqlens), cfg.maxTokenLen;
    var c := CeilDiv(a, b);
    CeilDivIsLeast(a, b);
    assert (0 - c) * b == 0 - c * b;
    if c < 0 { MulAtLeast(0 - c, b); }
  }

  /** What the number of micro-batches has to meet: an even split would fit (or there is one group each), the
      requested minimum, the other ranks' numbers, divisibility. */
  ghost predicate Meets(cfg: Config, seqlens: seq<nat>, m: nat)
    requires cfg.groupSize > 0
  {
    && (m >= |seqlens| / cfg.groupSize || Total(seqlens) <= m * cfg.maxTokenLen)
    && (cfg.minMicro.Some? ==> m >= cfg.minMicro.value) && m >= MaxOf(cfg.peers)
    && (cfg.dividedBy.Some? ==> cfg.dividedBy.value > 0 && Multiple(m, cfg.dividedBy.value))
  }

  lemma CeilDivCovers(a: nat, b: nat, m: nat)
    requires b > 0
    ensures a <= m * b <==> CeilDiv(a, b) <= m
  {
    var c := CeilDiv(a, b);
    CeilDivIsLeast(a, b);
    hide CeilDiv;
    if m >= c {
      MulMono(c, m, b);
    } else {
      MulMono(m, c - 1, b);
    }
  }

  lemma LeastMultiple(n: nat, d: nat, m: nat)
    requires d > 0 && m >= n && Multiple(m, d)
    ensures RoundUpDivisible(n, d) <= m
  {
    var r := RoundUpDivisible(n, d);
    RoundUpIsLeast(n, d);
    hide RoundUpDivisible;
    assert r == (r / d) * d && m == (m / d) * d;
    hide Multiple;
    MultiplesApart(r / d, m / d, d);
  }

  /** Before rounding, the number is the least that meets everything but divisibility. */
  lemma CountMeets(cfg: Config, seqlens: seq<nat>, m: nat)
    requires cfg.groupSize > 0 && cfg.maxTokenLen > 0
    ensures CountBeforeRounding(cfg, seqlens) <= m <==> Meets(cfg.(dividedBy := None), seqlens, m)
  {
    CeilDivCovers(Total(seqlens), cfg.maxTokenLen, m);
    hide CeilDiv, Total, MaxOf;
  }

  /** The number of micro-batches is the least that meets every demand; the request fails when that exceeds the number
      of groups. */
  lemma MicroCountIsLeast(cfg: Config, seqlens: seq<nat>, m: nat)
    requires MicroCount(cfg, seqlens).Success?
    ensures var n := MicroCount(cfg, seqlens).value;
      && cfg.groupSize > 0 && n <= |seqlens| / cfg.groupSize && Meets(cfg, seqlens, n)
      && (Meets(cfg, seqlens, m) ==> m >= n)
  {
    hide CountBeforeRounding, Total, MaxOf, RoundUpDivisible, Multiple;
    var n := MicroCount(cfg, seqlens).value;
    CountMeets(cfg, seqlens, n);
    CountMeets(cfg, seqlens, m);
    CountIsNat(cfg, seqlens);
    if cfg.dividedBy.Some? {
      RoundUpIsLeast(CountBeforeRounding(cfg, seqlens), cfg.dividedBy.value);
      if Meets(cfg, seqlens, m) { LeastMultiple(CountBeforeRounding(cfg, seqlens), cfg.dividedBy.value, m); }
    }
  }

  /** There is a number of micro-batches exactly if the limit holds every sequence, the groups divide the batch, and some
      number up to that of the groups meets every demand. */
  lemma MicroCountIff(cfg: Config, seqlens: seq<nat>)
    ensures MicroCount(cfg, seqlens).Success? <==>
      && 0 < cfg.maxTokenLen && cfg.maxSeqLen <= cfg.maxTokenLen
      && cfg.groupSize > 0 && Multiple(|seqlens|, cfg.groupSize)
      && exists m: nat :: m <= |seqlens| / cfg.groupSize && Meets(cfg, seqlens, m)
  {
    hide CountBeforeRounding, Meets, RoundUpDivisible, Total, MaxOf;
    if MicroCount(cfg, seqlens).Success? {
      MicroCountIsLeast(cfg, seqlens, MicroCount(cfg, seqlens).value);
    } else if 0 < cfg.maxTokenLen && cfg.maxSeqLen <= cfg.maxTokenLen && cfg.groupSize > 0 && Multiple(|seqlens|, cfg.groupSize) {
      forall m: nat | m <= |seqlens| / cfg.groupSize ensures !Meets(cfg, seqlens, m) {
        MeetsBounds(cfg, seqlens, m);
      }
    }
  }

  /** Whatever meets the demands is at least the number computed. */
  lemma MeetsBounds(cfg: Config, seqlens: seq<nat>, m: nat)
    requires cfg.groupSize > 0 && cfg.maxTokenLen > 0
    ensures Meets(cfg, seqlens, m) ==>
      && cfg.dividedBy != Some(0) && CountBeforeRounding(cfg, seqlens) <= m
      && (cfg.dividedBy.Some? ==> RoundUpDivisible(CountBeforeRounding(cfg, seqlens), cfg.dividedBy.value) <= m)
  {
    hide CountBeforeRounding, RoundUpDivisible, Total, MaxOf, Multiple;
    CountMeets(cfg, seqlens, m);
    CountIsNat(cfg, seqlens);
    if Meets(cfg, seqlens, m) && cfg.dividedBy.Some? {
      LeastMultiple(CountBeforeRounding(cfg, seqlens), cfg.dividedBy.value, m);
    }
  }

  // ----- workloads ---------------------------------------------------------------------------

  /** calculate_workload */
  function Workload(n: nat): nat {
    24576 * n + n * n
  }

  /** It is the number of operations of a transformer block of hidden size h = 4096, 12 h^2 n + 2 h n^2, in units of 2 h. */
  lemma WorkloadIsFlops(n: nat)
    ensures var h := 4096; 2 * h * Workload(n) == 12 * h * h * n + 2 * h * n * n
  {
    assert 2 * 4096 * (n * n) == 2 * 4096 * n * n;
  }

  /** One sequence outweighs two of together as many tokens by twice the product of their lengths. */
  lemma LongOutweighsParts(a: nat, b: nat)
    ensures Workload(1) == 24577
    ensures Workload(a + b) == Workload(a) + Workload(b) + 2 * a * b
  {
    assert (a + b) * (a + b) == a * a + 2 * a * b + b * b;
  }

  function Workloads(seqlens: seq<nat>): (r: seq<nat>)
    ensures |r| == |seqlens| && forall i | 0 <= i < |r| :: r[i] == Workload(seqlens[i])
  {
    seq(|seqlens|, i requires 0 <= i < |seqlens| => Workload(seqlens[i]))
  }

  function Block<T>(s: seq<T>, q: nat, g: nat): seq<T>
    requires (q + 1) * g <= |s|
  {
    assert q * g + g == (q + 1) * g;
    s[q * g..(q + 1) * g]
  }

  lemma BlockFits(q: nat, g: nat, n: nat)
    requires g > 0 && q < n / g
    ensures (q + 1) * g <= n
  {
    var d := n / g;
    assert n == d * g + n % g;
    assert (d - q - 1) * g >= 0;
    assert (d - q - 1) * g == d * g - (q + 1) * g;
  }

  /** `view(num_groups, g).sum(dim=1)` */
  function GroupWorkloads(work: seq<nat>, g: nat): (r: seq<nat>)
    requires g > 0
    ensures |r| == |work| / g
  {
    seq(|work| / g, q requires 0 <= q < |work| / g => BlockFits(q, g, |work|); Total(Block(work, q, g)))
  }

  // ----- groups back to samples --------------------------------------------------------------

  function Range(a: nat, n: nat): (r: seq<nat>)
    ensures |r| == n
  {
    seq(n, i requires 0 <= i < n => a + i)
  }

  /** Group q becomes samples q * g, ..., q * g + g - 1. */
  function Expand(part: seq<nat>, g: nat): seq<nat> {
    if part == [] then [] else Expand(part[..|part| - 1], g) + Range(part[|part| - 1] * g, g)
  }

  function ExpandAll(parts: seq<seq<nat>>, g: nat): (r: seq<seq<nat>>)
    ensures |r| == |parts|
  {
    seq(|parts|, i requires 0 <= i < |parts| => Expand(parts[i], g))
  }

  lemma {:induction false} ExpandConcat(p: seq<nat>, q: seq<nat>, g: nat)
    ensures Expand(p + q, g) == Expand(p, g) + Expand(q, g)
    decreases |q|
  {
    hide Range;
    if q == [] {
      assert p + q == p;
    } else {
      assert (p + q)[..|p + q| - 1] == p + q[..|q| - 1];
      ExpandConcat(p, q[..|q| - 1], g);
    }
  }

  lemma {:induction false} ExpandAllConcat(parts: seq<seq<nat>>, g: nat)
    ensures Concat(ExpandAll(parts, g)) == Expand(Concat(parts), g)
  {
    if parts != [] {
      ExpandAllConcat(parts[1..], g);
      assert ExpandAll(parts, g)[1..] == ExpandAll(parts[1..], g);
      ExpandConcat(parts[0], Concat(parts[1..]), g);
    }
  }

  lemma {:induction false} ExpandPermute(p: seq<nat>, q: seq<nat>, g: nat)
    requires multiset(p) == multiset(q)
    ensures multiset(Expand(p, g)) == multiset(Expand(q, g))
    decreases |p|
  {
    if p == [] {
      assert |multiset(q)| == 0;
    } else {
      var i := TakeOut(p, q);
      var x, m := q[i], |p| - 1;
      ExpandPermute(p[..m], DifferencingSpec.Without(q, i), g);
      assert q == q[..i] + [x] + q[i + 1..];
      ExpandConcat(q[..i], [x], g);
      ExpandConcat(q[..i] + [x], q[i + 1..], g);
      ExpandConcat(q[..i], q[i + 1..], g);
      ExpandSingle(x, g);
    }
  }

  lemma ExpandSingle(x: nat, g: nat)
    ensures Expand([x], g) == Range(x * g, g)
  {
    assert [x][..0] == [];
  }

  lemma {:induction false} ExpandIndices(n: nat, g: nat)
    ensures Expand(Indices(n), g) == Indices(n * g)
  {
    if n > 0 {
      ExpandIndices(n - 1, g);
      assert Indices(n)[..n - 1] == Indices(n - 1);
      assert (n - 1) * g + g == n * g;
    } else {
      assert n * g == 0;
    }
  }

  /** A cover of the groups becomes a cover of the samples. */
  lemma ExpandCovers(parts: seq<seq<nat>>, n: nat, g: nat)
    requires Covers(parts, n)
    ensures Covers(ExpandAll(parts, g), n * g)
  {
    ExpandAllConcat(parts, g);
    ExpandPermute(Concat(parts), Indices(n), g);
    ExpandIndices(n, g);
  }

  lemma {:induction false} ExpandLength(part: seq<nat>, g: nat)
    ensures |Expand(part, g)| == |part| * g
  {
    if part != [] {
      ExpandLength(part[..|part| - 1], g);
      assert |part| * g == (|part| - 1) * g + g;
    }
  }

  /** Group part[i] occupies g consecutive places. */
  lemma {:induction false} ExpandAt(part: seq<nat>, g: nat, i: nat)
    requires i < |part|
    ensures i * g + g <= |Expand(part, g)| && Expand(part, g)[i * g..i * g + g] == Range(part[i] * g, g)
    decreases |part|
  {
    var m := |part| - 1;
    var front, last := Expand(part[..m], g), Range(part[m] * g, g);
    ExpandLength(part[..m], g);
    assert Expand(part, g) == front + last && |front| == m * g;
    if i < m {
      ExpandAt(part[..m], g, i);
      BlockBefore(i, m, g);
      hide Expand, Range;
      PrefixSlice(front, last, i * g, g);
    } else {
      assert (front + last)[|front|..|front| + g] == last;
    }
  }

  lemma PrefixSlice<T>(a: seq<T>, b: seq<T>, i: nat, n: nat)
    requires i + n <= |a|
    ensures (a + b)[i..i + n] == a[i..i + n]
  {
  }

  // ----- workload of expanded groups ---------------------------------------------------------

  lemma {:induction false} RangeSum(work: seq<nat>, a: nat, n: nat)
    requires a + n <= |work|
    ensures PartSum(work, Range(a, n)) == Total(work[a..a + n])
    decreases n
  {
    if n > 0 {
      RangeSum(work, a, n - 1);
      assert Range(a, n)[..n - 1] == Range(a, n - 1);
      assert work[a..a + n][..n - 1] == work[a..a + n - 1];
    }
  }

  /** The workload of the samples of a list of groups is the workload of the groups. */
  lemma {:induction false} GroupSum(work: seq<nat>, q: seq<nat>, g: nat)
    requires g > 0 && forall i | 0 <= i < |q| :: q[i] < |work| / g
    ensures PartSum(work, Expand(q, g)) == PartSum(GroupWorkloads(work, g), q)
    decreases |q|
  {
    if q != [] {
      var m := |q| - 1;
      GroupSum(work, q[..m], g);
      PartSumConcat(work, Expand(q[..m], g), Range(q[m] * g, g));
      OneGroupSum(work, q[m], g);
      hide Range, GroupWorkloads;
    }
  }

  lemma OneGroupSum(work: seq<nat>, q: nat, g: nat)
    requires g > 0 && q < |work| / g
    ensures PartSum(work, Range(q * g, g)) == GroupWorkloads(work, g)[q]
  {
    hide PartSum, Range, Total;
    BlockFits(q, g, |work|);
    BlockBefore(q, q + 1, g);
    RangeSum(work, q * g, g);
    assert GroupWorkloads(work, g)[q] == Total(Block(work, q, g));
  }

  // ----- sorting micro-batches by workload ---------------------------------------------------

  lemma LeaderFits(i: nat, g: nat, n: nat)
    requires g > 0 && i < Div(n + g - 1, g)
    ensures 0 <= i * g < n
  {
    BlockFits(i, g, n + g - 1);
    BlockBefore(i, i + 1, g);
  }

  /** The groups of a micro-batch: `idx // g for idx in partition[::g]` */
  function Leaders(part: seq<nat>, g: nat): seq<nat>
    requires g > 0
  {
    seq(Div(|part| + g - 1, g), i requires 0 <= i < Div(|part| + g - 1, g) =>
      LeaderFits(i, g, |part|);
      Div(part[i * g], g))
  }

  /** The first component of the sort key. */
  function KeySum(w: seq<nat>, g: nat, part: seq<nat>): nat {
    PartSum(w, if g > 1 then Leaders(part, g) else part)
  }

  predicate KeyLess(w: seq<nat>, g: nat, a: seq<nat>, b: seq<nat>) {
    var x, y := KeySum(w, g, a), KeySum(w, g, b);
    x < y || (x == y && First(a) < First(b))
  }

  function InsertByKey(w: seq<nat>, g: nat, x: seq<nat>, s: seq<seq<nat>>): seq<seq<nat>>
    decreases |s|
  {
    if s == [] || !KeyLess(w, g, x, s[0]) then [x] + s else [s[0]] + InsertByKey(w, g, x, s[1..])
  }

  /** `micro_bsz_idx.sort(key=..., reverse=True)` */
  function SortByKey(w: seq<nat>, g: nat, s: seq<seq<nat>>): seq<seq<nat>>
    decreases |s|
  {
    if s == [] then [] else InsertByKey(w, g, s[0], SortByKey(w, g, s[1..]))
  }

  /** The second component. */
  function First(part: seq<nat>): nat {
    if part == [] then 0 else part[0]
  }

  /** By workload, and among equal workloads by the first index. */
  ghost predicate KeysFall(w: seq<nat>, g: nat, s: seq<seq<nat>>) {
    forall i, j | 0 <= i < j < |s| :: KeyAtLeast(w, g, s[i], s[j])
  }

  ghost predicate KeyAtLeast(w: seq<nat>, g: nat, a: seq<nat>, b: seq<nat>) {
    KeySum(w, g, a) > KeySum(w, g, b) || (KeySum(w, g, a) == KeySum(w, g, b) && First(a) >= First(b))
  }

  lemma KeyOrder(w: seq<nat>, g: nat, a: seq<nat>, b: seq<nat>, c: seq<nat>)
    ensures KeyLess(w, g, a, b) ==> KeyAtLeast(w, g, b, a)
    ensures !KeyLess(w, g, a, b) ==> KeyAtLeast(w, g, a, b)
    ensures KeyAtLeast(w, g, a, b) && KeyAtLeast(w, g, b, c) ==> KeyAtLeast(w, g, a, c)
  {
    hide KeySum, First;
  }

  lemma {:induction false} InsertByKeyKeeps(w: seq<nat>, g: nat, x: seq<nat>, s: seq<seq<nat>>)
    ensures multiset(InsertByKey(w, g, x, s)) == multiset{x} + multiset(s)
    decreases |s|
  {
    hide KeyLess;
    if s != [] && KeyLess(w, g, x, s[0]) {
      InsertByKeyKeeps(w, g, x, s[1..]);
      assert s == [s[0]] + s[1..];
    }
  }

  lemma {:induction false} InsertByKeyFalls(w: seq<nat>, g: nat, x: seq<nat>, s: seq<seq<nat>>)
    requires KeysFall(w, g, s)
    ensures KeysFall(w, g, InsertByKey(w, g, x, s))
    decreases |s|
  {
    hide KeyLess, KeyAtLeast;
    if s != [] && KeyLess(w, g, x, s[0]) {
      KeyOrder(w, g, x, s[0], s[0]);
      var r := InsertByKey(w, g, x, s[1..]);
      InsertByKeyFalls(w, g, x, s[1..]);
      InsertByKeyKeeps(w, g, x, s[1..]);
      assert InsertByKey(w, g, x, s) == [s[0]] + r;
      hide InsertByKey;
      forall j | 0 <= j < |r| ensures KeyAtLeast(w, g, s[0], r[j]) {
        assert r[j] in multiset(r);
        assert r[j] == x || r[j] in s[1..];
      }
    } else if s != [] {
      forall j | 0 <= j < |s| ensures KeyAtLeast(w, g, x, s[j]) {
        KeyOrder(w, g, x, s[0], s[j]);
      }
    }
  }

  /** Ties are broken by the first index. */
  lemma TiesByFirst(w: seq<nat>, g: nat, s: seq<seq<nat>>, i: nat, j: nat)
    requires i < j < |SortByKey(w, g, s)|
    ensures var r := SortByKey(w, g, s);
      && KeySum(w, g, r[i]) >= KeySum(w, g, r[j])
      && (KeySum(w, g, r[i]) == KeySum(w, g, r[j]) && r[i] != [] && r[j] != [] ==> r[i][0] >= r[j][0])
  {
    hide SortByKey, KeySum;
    SortByKeyFacts(w, g, s);
  }

  lemma NoKeys(w: seq<nat>, g: nat)
    ensures KeysFall(w, g, [])
  {
  }

  lemma {:induction false} SortByKeyFacts(w: seq<nat>, g: nat, s: seq<seq<nat>>)
    ensures multiset(SortByKey(w, g, s)) == multiset(s) && KeysFall(w, g, SortByKey(w, g, s))
    decreases |s|
  {
    hide InsertByKey, KeySum, KeysFall;
    if s == [] {
      NoKeys(w, g);
    } else {
      SortByKeyFacts(w, g, s[1..]);
      InsertByKeyKeeps(w, g, s[0], SortByKey(w, g, s[1..]));
      InsertByKeyFalls(w, g, s[0], SortByKey(w, g, s[1..]));
      assert s == [s[0]] + s[1..];
    }
  }

  // ----- the whole ---------------------------------------------------------------------------

  function UnitWork(seqlens: seq<nat>, g: nat): seq<nat> {
    if g > 1 then GroupWorkloads(Workloads(seqlens), g) else Workloads(seqlens)
  }

  function Samples(parts: seq<seq<nat>>, g: nat): seq<seq<nat>> {
    if g > 1 then ExpandAll(parts, g) else parts
  }

  function Order(w: seq<nat>, g: nat, parts: seq<seq<nat>>, balance: bool): seq<seq<nat>> {
    if balance then LargestInside(SortByKey(w, g, parts)) else parts
  }

  /** The index lists rearrange_micro_batches returns. */
  function Rearranged(cfg: Config, seqlens: seq<nat>): Result<seq<seq<nat>>, Error> {
    var n := MicroCount(cfg, seqlens);
    if n.Failure? then Failure(n.error)
    else
      var w := UnitWork(seqlens, cfg.groupSize);
      var parts := Balanced(w, n.value, false);
      if parts.Failure? then parts
      else Success(Order(w, cfg.groupSize, Samples(parts.value, cfg.groupSize), cfg.balance))
  }

  /** Without balancing the micro-batches come as partitioned. */
  lemma UnbalancedKeepsOrder(cfg: Config, seqlens: seq<nat>)
    requires Rearranged(cfg, seqlens).Success? && !cfg.balance
    ensures MicroCount(cfg, seqlens).Success? && cfg.groupSize > 0
    ensures var b := Balanced(GroupWorkloads(Workloads(seqlens), cfg.groupSize), MicroCount(cfg, seqlens).value, false);
      b.Success? && Rearranged(cfg, seqlens).value == ExpandAll(b.value, cfg.groupSize)
  {
    hide CountBeforeRounding, Balanced, ExpandAll, GroupWorkloads, Multiple;
    var b := Balanced(UnitWork(seqlens, cfg.groupSize), MicroCount(cfg, seqlens).value, false);
    UniformBranches(seqlens, if b.Success? then b.value else [], cfg.groupSize);
  }

  lemma OneGroupEach(work: seq<nat>, parts: seq<seq<nat>>)
    ensures GroupWorkloads(work, 1) == work && ExpandAll(parts, 1) == parts
  {
    forall q | 0 <= q < |work| ensures GroupWorkloads(work, 1)[q] == work[q] {
      OneGroupSum(work, q, 1);
      assert Range(q * 1, 1) == [q] && [q][..0] == [];
    }
    forall i | 0 <= i < |parts| ensures Expand(parts[i], 1) == parts[i] {
      ExpandByOne(parts[i]);
    }
  }

  lemma {:induction false} ExpandByOne(part: seq<nat>)
    ensures Expand(part, 1) == part
  {
    if part != [] {
      ExpandByOne(part[..|part| - 1]);
      assert Range(part[|part| - 1] * 1, 1) == [part[|part| - 1]];
    }
  }

  lemma UniformBranches(seqlens: seq<nat>, parts: seq<seq<nat>>, g: nat)
    requires g > 0
    ensures UnitWork(seqlens, g) == GroupWorkloads(Workloads(seqlens), g) && Samples(parts, g) == ExpandAll(parts, g)
  {
    if g == 1 { OneGroupEach(Workloads(seqlens), parts); }
  }

  lemma LeadersOfExpanded(q: seq<nat>, g: nat)
    requires g > 0
    ensures Leaders(Expand(q, g), g) == q
  {
    var e := Expand(q, g);
    ExpandLength(q, g);
    DivMod(|e| + g - 1, |q|, g - 1, g);
    forall i | 0 <= i < |q| ensures Leaders(e, g)[i] == q[i] {
      ExpandAt(q, g, i);
      LeaderFits(i, g, |e|);
      assert e[i * g..i * g + g][0] == Range(q[i] * g, g)[0] == q[i] * g;
      DivMod(q[i] * g, q[i], 0, g);
    }
  }

  /** The sort key of a micro-batch is the workload of its samples. */
  lemma KeyIsWorkload(work: seq<nat>, q: seq<nat>, g: nat)
    requires g > 0 && forall i | 0 <= i < |q| :: q[i] < |work| / g
    ensures KeySum(GroupWorkloads(work, g), g, Expand(q, g)) == PartSum(work, Expand(q, g))
  {
    LeadersOfExpanded(q, g);
    GroupSum(work, q, g);
    if g == 1 { ExpandByOne(q); }
  }

  function Weights(work: seq<nat>, parts: seq<seq<nat>>): (r: seq<int>)
    ensures |r| == |parts|
  {
    seq(|parts|, i requires 0 <= i < |parts| => PartSum(work, parts[i]))
  }

  /** Group q stands in consecutive places of the micro-batch. */
  ghost predicate HasGroup(part: seq<nat>, q: nat, g: nat) {
    exists i: nat :: GroupAt(part, q, g, i)
  }

  ghost predicate GroupAt(part: seq<nat>, q: nat, g: nat, i: nat) {
    i + g <= |part| && part[i..i + g] == Range(q * g, g)
  }

  ghost predicate SomeHas(parts: seq<seq<nat>>, q: nat, g: nat) {
    exists p | p in parts :: HasGroup(p, q, g)
  }

  ghost predicate GroupsTogether(parts: seq<seq<nat>>, groups: nat, g: nat) {
    forall q: nat | q < groups :: SomeHas(parts, q, g)
  }

  /** What is promised of the index lists, whatever their order. */
  ghost predicate Sound(work: seq<nat>, g: nat, parts: seq<seq<nat>>)
    requires g > 0
  {
    && Covers(parts, |work|) && (forall p | p in parts :: p != [])
    && SpreadAtMost(work, parts, MaxOf(GroupWorkloads(work, g)))
    && GroupsTogether(parts, Div(|work|, g), g)
  }

  lemma {:induction false} ConcatPermute(a: seq<seq<nat>>, b: seq<seq<nat>>)
    requires multiset(a) == multiset(b)
    ensures multiset(Concat(a)) == multiset(Concat(b))
    decreases |a|
  {
    if a == [] {
      assert |multiset(b)| == 0;
    } else {
      var i := TakeOut(a, b);
      var x, m := b[i], |a| - 1;
      ConcatPermute(a[..m], DifferencingSpec.Without(b, i));
      assert a == a[..m] + [x] && b == b[..i] + [x] + b[i + 1..];
      ConcatSplit(a[..m], [x]);
      ConcatSplit(b[..i] + [x], b[i + 1..]);
      ConcatSplit(b[..i], [x]);
      ConcatSplit(b[..i], b[i + 1..]);
    }
  }

  lemma SpreadPermute(work: seq<nat>, a: seq<seq<nat>>, b: seq<seq<nat>>, bound: int)
    requires (forall x :: x in a <==> x in b) && SpreadAtMost(work, a, bound)
    ensures SpreadAtMost(work, b, bound)
  {
    hide PartSum;
    forall i, j | 0 <= i < |b| && 0 <= j < |b| ensures PartSum(work, b[i]) - PartSum(work, b[j]) <= bound {
      assert b[i] in a && b[j] in a;
      var m :| 0 <= m < |a| && a[m] == b[i];
      var n :| 0 <= n < |a| && a[n] == b[j];
    }
  }

  lemma SoundPermute(work: seq<nat>, g: nat, a: seq<seq<nat>>, b: seq<seq<nat>>)
    requires g > 0 && multiset(a) == multiset(b) && Sound(work, g, a)
    ensures Sound(work, g, b) && |a| == |b|
  {
    hide SpreadAtMost, HasGroup, Concat;
    ConcatPermute(a, b);
    SameMembers(a, b);
    SpreadPermute(work, a, b, MaxOf(GroupWorkloads(work, g)));
    forall q: nat | q < Div(|work|, g) ensures SomeHas(b, q, g) {
      assert SomeHas(a, q, g);
      var p :| p in a && HasGroup(p, q, g);
      assert p in b;
    }
  }

  lemma CoverMember(parts: seq<seq<nat>>, n: nat, q: nat) returns (i: nat, j: nat)
    requires Covers(parts, n) && q < n
    ensures i < |parts| && j < |parts[i]| && parts[i][j] == q
  {
    assert Indices(n)[q] == q && q in multiset(Indices(n)) && q in multiset(Concat(parts));
    i, j := ConcatMember(parts, q);
  }

  lemma {:induction false} ConcatMember(parts: seq<seq<nat>>, q: nat) returns (i: nat, j: nat)
    requires q in Concat(parts)
    ensures i < |parts| && j < |parts[i]| && parts[i][j] == q
  {
    if q in parts[0] {
      i := 0;
      j :| 0 <= j < |parts[0]| && parts[0][j] == q;
    } else {
      i, j := ConcatMember(parts[1..], q);
      i := i + 1;
    }
  }

  lemma CoverBelow(parts: seq<seq<nat>>, n: nat, i: nat)
    requires Covers(parts, n) && i < |parts|
    ensures forall j | 0 <= j < |parts[i]| :: parts[i][j] < n
  {
    PartOfConcat(parts, i);
    forall j | 0 <= j < |parts[i]| ensures parts[i][j] < n {
      assert parts[i][j] in multiset(parts[i]);
      assert parts[i][j] in multiset(Indices(n));
    }
  }

  lemma HasGroupAt(part: seq<nat>, q: nat, g: nat, i: nat)
    requires i + g <= |part| && part[i..i + g] == Range(q * g, g)
    ensures HasGroup(part, q, g)
  {
    assert GroupAt(part, q, g, i);
  }

  lemma ExpandedGroups(parts: seq<seq<nat>>, n: nat, g: nat)
    requires g > 0 && Covers(parts, n)
    ensures GroupsTogether(ExpandAll(parts, g), n, g)
  {
    hide Expand, Range;
    var r := ExpandAll(parts, g);
    forall q: nat | q < n ensures SomeHas(r, q, g) {
      var i, j := CoverMember(parts, n, q);
      ExpandAt(parts[i], g, j);
      assert r[i] in r && r[i] == Expand(parts[i], g);
      HasGroupAt(r[i], q, g, j * g);
    }
  }

  lemma ExpandedSpread(work: seq<nat>, parts: seq<seq<nat>>, g: nat, bound: int)
    requires g > 0 && Covers(parts, Div(|work|, g)) && SpreadAtMost(GroupWorkloads(work, g), parts, bound)
    ensures SpreadAtMost(work, ExpandAll(parts, g), bound)
  {
    var r := ExpandAll(parts, g);
    forall i | 0 <= i < |parts| ensures PartSum(work, r[i]) == PartSum(GroupWorkloads(work, g), parts[i]) {
      CoverBelow(parts, Div(|work|, g), i);
      GroupSum(work, parts[i], g);
    }
    hide PartSum, ExpandAll, GroupWorkloads;
  }

  lemma ExpandedIsSound(work: seq<nat>, parts: seq<seq<nat>>, g: nat)
    requires g > 0 && Multiple(|work|, g) && Covers(parts, Div(|work|, g))
    requires (forall p | p in parts :: p != [])
    requires SpreadAtMost(GroupWorkloads(work, g), parts, MaxOf(GroupWorkloads(work, g)))
    ensures Sound(work, g, ExpandAll(parts, g))
  {
    hide SpreadAtMost, GroupsTogether, Covers, Expand, MaxOf, GroupWorkloads;
    var r, n := ExpandAll(parts, g), Div(|work|, g);
    ExpandedSpread(work, parts, g, MaxOf(GroupWorkloads(work, g)));
    ExpandedGroups(parts, n, g);
    ExpandCovers(parts, n, g);
    assert n * g == |work|;
    forall p | p in r ensures p != [] {
      var i :| 0 <= i < |r| && r[i] == p;
      ExpandLength(parts[i], g);
      assert parts[i] in parts;
      MulAtLeast(|parts[i]|, g);
    }
  }

  lemma OrderPermutes(w: seq<nat>, g: nat, parts: seq<seq<nat>>, balance: bool)
    ensures multiset(Order(w, g, parts, balance)) == multiset(parts)
  {
    SortByKeyFacts(w, g, parts);
    BothPermute(SortByKey(w, g, parts));
  }

  lemma WeightsInOrder(work: seq<nat>, s: seq<seq<nat>>)
    ensures Weights(work, LargestInside(s)) == LargestInside(Weights(work, s))
  {
    forall i: nat | i < |s| ensures Weights(work, LargestInside(s))[i] == LargestInside(Weights(work, s))[i] {
      LargestInsideAt(s, i);
      LargestInsideAt(Weights(work, s), i);
    }
  }

  lemma SortedWeightsFall(work: seq<nat>, parts: seq<seq<nat>>, g: nat)
    requires g > 0 && Covers(parts, Div(|work|, g))
    ensures Falling(Weights(work, SortByKey(GroupWorkloads(work, g), g, ExpandAll(parts, g))))
  {
    var w, r := GroupWorkloads(work, g), ExpandAll(parts, g);
    var s := SortByKey(w, g, r);
    SortByKeyFacts(w, g, r);
    SameMembers(s, r);
    forall i | 0 <= i < |s| ensures KeySum(w, g, s[i]) == PartSum(work, s[i]) {
      assert s[i] in s && s[i] in r;
      var j :| 0 <= j < |r| && r[j] == s[i];
      CoverBelow(parts, Div(|work|, g), j);
      KeyIsWorkload(work, parts[j], g);
    }
    hide KeySum, PartSum, SortByKey;
  }

  /** Micro-batches are made exactly when their number can be served and is not zero. */
  lemma RearrangedIff(cfg: Config, seqlens: seq<nat>)
    ensures Rearranged(cfg, seqlens).Success? <==>
      MicroCount(cfg, seqlens).Success? && MicroCount(cfg, seqlens).value > 0
  {
    hide Balanced, Order, CountBeforeRounding;
    if MicroCount(cfg, seqlens).Success? {
      var w := UnitWork(seqlens, cfg.groupSize);
      UniformBranches(seqlens, [], cfg.groupSize);
      BalancedIff(w, MicroCount(cfg, seqlens).value, false);
    }
  }

  /** Every sample is in exactly one micro-batch, forced groups stay together, workloads differ by at most the
      heaviest group, and with balancing they rise to the middle and fall after it. */
  lemma RearrangedAre(cfg: Config, seqlens: seq<nat>)
    requires MicroCount(cfg, seqlens).Success? && MicroCount(cfg, seqlens).value > 0
    ensures var r, work, n := Rearranged(cfg, seqlens), Workloads(seqlens), MicroCount(cfg, seqlens).value;
      && r.Success? && |r.value| == n && cfg.groupSize > 0 && Sound(work, cfg.groupSize, r.value)
      && (cfg.balance ==> Mountain(Weights(work, r.value), (n - 1) / 2))
  {
    hide SpreadAtMost, Covers, MicroCount, Order, Sound, GroupWorkloads, Workloads, Bounds, Mountain, Rearranged;
    var parts := RearrangedFrom(cfg, seqlens);
    var g, work := cfg.groupSize, Workloads(seqlens);
    ExpandedIsSound(work, parts, g);
    var w, micro := GroupWorkloads(work, g), ExpandAll(parts, g);
    OrderPermutes(w, g, micro, cfg.balance);
    SoundPermute(work, g, micro, Order(w, g, micro, cfg.balance));
    if cfg.balance { BalancedOrder(work, parts, g); }
  }

  /** The partition of the groups behind the index lists. */
  lemma RearrangedFrom(cfg: Config, seqlens: seq<nat>) returns (parts: seq<seq<nat>>)
    requires MicroCount(cfg, seqlens).Success? && MicroCount(cfg, seqlens).value > 0
    ensures var g, work := cfg.groupSize, Workloads(seqlens);
      && g > 0 && Multiple(|work|, g) && |parts| == MicroCount(cfg, seqlens).value
      && Covers(parts, Div(|work|, g)) && (forall p | p in parts :: p != [])
      && SpreadAtMost(GroupWorkloads(work, g), parts, MaxOf(GroupWorkloads(work, g)))
      && Rearranged(cfg, seqlens) == Success(Order(GroupWorkloads(work, g), g, ExpandAll(parts, g), cfg.balance))
  {
    hide Balanced, SpreadAtMost, Covers, Order, GroupWorkloads, Workloads, Bounds, CountBeforeRounding, UnitWork, Samples;
    RearrangedIff(cfg, seqlens);
    var g, n := cfg.groupSize, MicroCount(cfg, seqlens).value;
    var w := UnitWork(seqlens, g);
    parts := Balanced(w, n, false).value;
    UniformBranches(seqlens, parts, g);
    BalancedPartitionsAre(w, n, false);
    MaxBounds(w, n, false);
  }

  lemma BalancedOrder(work: seq<nat>, parts: seq<seq<nat>>, g: nat)
    requires g > 0 && Covers(parts, Div(|work|, g)) && parts != []
    ensures var r := Order(GroupWorkloads(work, g), g, ExpandAll(parts, g), true);
      Mountain(Weights(work, r), (|parts| - 1) / 2)
  {
    hide LargestInside, Weights, SortByKey, ExpandAll, Mountain, GroupWorkloads, Falling;
    var w, r := GroupWorkloads(work, g), ExpandAll(parts, g);
    SortedWeightsFall(work, parts, g);
    SortByKeyFacts(w, g, r);
    SameMembers(SortByKey(w, g, r), r);
    WeightsInOrder(work, SortByKey(w, g, r));
    LargestInsideIsMountain(Weights(work, SortByKey(w, g, r)));
  }
}
