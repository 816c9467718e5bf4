/**
  Dynamic context parallelism of verl/utils/megatron_utils.py: the size of a context-parallel group is
  rounded to a power of two, the batch is sliced over the groups, and a strided merge puts the
  sequences back in order.
*/
module ContextParallel {
  import opened Sequences
  import opened Arithmetic
  import opened Wrappers
  import opened BalancedPartitions

  datatype Error = ValueError | OverflowError | AssertionError

  // ----- the rounded size --------------------------------------------------------------------

  function Pow2(k: nat): nat {
    if k == 0 then 1 else 2 * Pow2(k - 1)
  }

  /** `int.bit_length` */
  function BitLength(x: nat): nat {
    if x == 0 then 0 else 1 + BitLength(x / 2)
  }

  /** `math.ceil(a / b)` */
  function CeilQuot(a: nat, b: nat): nat
    requires b > 0
  {
    Div(a + b - 1, b)
  }

  /** `1 << (size - 1).bit_length()`; for size 0 the shifted value is that of -1, whose bit length is 1. */
  function RoundPow2(size: nat): nat {
    Pow2(BitLength(if size == 0 then 1 else size - 1))
  }

  lemma {:induction false} BitLengthBounds(x: nat)
    ensures x < Pow2(BitLength(x)) && (x > 0 ==> BitLength(x) > 0 && Pow2(BitLength(x) - 1) <= x)
  {
    if x > 0 {
      BitLengthBounds(x / 2);
      if x / 2 == 0 {
        assert x == 1 && BitLength(0) == 0;
      }
    }
  }

  lemma {:induction false} Pow2Mono(j: nat, k: nat)
    requires j <= k
    ensures Pow2(j) <= Pow2(k)
    decreases k
  {
    if j < k { Pow2Mono(j, k - 1); }
  }

  /** The least power of two that is at least `size`. */
  lemma RoundPow2IsLeast(size: nat)
    requires size > 0
    ensures size <= RoundPow2(size)
    ensures forall k: nat | Pow2(k) >= size :: Pow2(k) >= RoundPow2(size)
  {
    assert BitLength(0) == 0;
    hide BitLength;
    BitLengthBounds(size - 1);
    forall k: nat | Pow2(k) >= size ensures Pow2(k) >= RoundPow2(size) {
      if k < BitLength(size - 1) {
        Pow2Mono(k, BitLength(size - 1) - 1);
      } else {
        Pow2Mono(BitLength(size - 1), k);
      }
    }
  }

  lemma CeilCovers(a: nat, b: nat, c: nat)
    requires b > 0
    ensures a <= c * b <==> CeilQuot(a, b) <= c
  {
    var q, r := (a + b - 1) / b, (a + b - 1) % b;
    assert a + b - 1 == q * b + r;
    assert (c - q) * b == c * b - q * b;
    assert (q - c) * b == q * b - c * b;
    if c >= q {
      assert (c - q) * b >= 0;
    } else {
      MulAtLeast(q - c, b);
    }
  }

  /** The group size covers the longest sequence. */
  ghost predicate CoversLongest(size: nat, longest: nat, perRank: nat) {
    longest <= size * perRank
  }

  /** The rounded size is the least power of two that covers the longest sequence, unless all sequences are empty, when
      it is 2 and 1 would do. */
  lemma LocalSizeIsLeastIff(longest: nat, perRank: nat)
    requires perRank > 0
    ensures var size := RoundPow2(CeilQuot(longest, perRank));
      && CoversLongest(size, longest, perRank)
      && (longest > 0 <==> forall k: nat | CoversLongest(Pow2(k), longest, perRank) :: Pow2(k) >= size)
  {
    var c := CeilQuot(longest, perRank);
    var size := RoundPow2(c);
    CeilCovers(longest, perRank, size);
    CeilCovers(longest, perRank, 0);
    if longest > 0 {
      RoundPow2IsLeast(c);
      forall k: nat | CoversLongest(Pow2(k), longest, perRank) ensures Pow2(k) >= size {
        CeilCovers(longest, perRank, Pow2(k));
      }
    } else {
      assert c == 0 && BitLength(1) == 1 && size == 2;
      assert CoversLongest(Pow2(0), longest, perRank) && Pow2(0) == 1;
    }
  }

  // ----- dynamic_cp_split_batch --------------------------------------------------------------

  /** The batch as it is, or the assigned size with the rows that stay on this rank. */
  datatype Outcome = Untouched | Assigned(localCp: nat, rows: seq<nat>)

  /** `indices[start:end]` */
  function RowsFrom(start: nat, end: nat): seq<nat> {
    if start <= end then seq(end - start, i requires 0 <= i < end - start => start + i) else []
  }

  /** The rows of one rank when the group is smaller than the data-parallel size. */
  function RankRows(n: nat, dpSize: nat, dpRank: nat, localCp: nat): seq<nat>
    requires 0 < localCp <= dpSize
  {
    var start := SliceStart(n, dpSize, dpRank, localCp);
    RowsFrom(start, Min(start + PerCp(n, dpSize, localCp), n))
  }

  /** `local_dp_rank * num_seq_per_local_cp` */
  function SliceStart(n: nat, dpSize: nat, dpRank: nat, localCp: nat): nat
    requires 0 < localCp <= dpSize
  {
    Div(dpRank, localCp) * PerCp(n, dpSize, localCp)
  }

  function PerCp(n: nat, dpSize: nat, localCp: nat): nat
    requires 0 < localCp <= dpSize
  {
    DivPositive(dpSize, localCp);
    CeilQuot(n, Div(dpSize, localCp))
  }

  lemma DivPositive(a: nat, b: nat)
    requires 0 < b <= a
    ensures Div(a, b) > 0
  {
    var q, r := a / b, a % b;
    assert a == q * b + r;
  }

  /** The size all ranks agree on, or `None` for a batch that is left untouched. */
  function LocalSize(lens: seq<nat>, perRank: nat, dpSize: nat): Result<Option<nat>, Error> {
    if lens == [] then Failure(ValueError)
    else if |lens| < dpSize then Success(None)
    else if perRank == 0 then Failure(if MaxOf(lens) == 0 then ValueError else OverflowError)
    else
      var localCp := RoundPow2(CeilQuot(MaxOf(lens), perRank));
      if localCp > dpSize then Failure(Error.AssertionError) else Success(Some(localCp))
  }

  lemma LocalSizeBounds(lens: seq<nat>, perRank: nat, dpSize: nat)
    ensures match LocalSize(lens, perRank, dpSize)
            case Success(Some(c)) => 0 < c <= dpSize <= |lens|
            case _ => true
  {
    if perRank > 0 && lens != [] {
      var c := CeilQuot(MaxOf(lens), perRank);
      Pow2Positive(BitLength(if c == 0 then 1 else c - 1));
    }
  }

  /** A group of `size` ranks holds each of the sequences. */
  ghost predicate CoversAll(lens: seq<nat>, size: nat, perRank: nat) {
    forall i | 0 <= i < |lens| :: lens[i] <= size * perRank
  }

  ghost predicate PowerOfTwo(c: nat) {
    exists k: nat :: c == Pow2(k)
  }

  lemma CoversLongestIff(lens: seq<nat>, size: nat, perRank: nat)
    ensures CoversAll(lens, size, perRank) <==> CoversLongest(size, MaxOf(lens), perRank)
  {
    forall i | 0 <= i < |lens| ensures lens[i] <= MaxOf(lens) {
      MaxIsMax(lens, i);
    }
    if lens != [] {
      var i := MaxIsSome(lens);
    }
  }

  /** The agreed size is a power of two that holds every sequence, and the least such unless all are empty. */
  lemma LocalSizeHolds(lens: seq<nat>, perRank: nat, dpSize: nat, c: nat)
    requires LocalSize(lens, perRank, dpSize) == Success(Some(c))
    ensures PowerOfTwo(c) && CoversAll(lens, c, perRank)
    ensures (forall d: nat | PowerOfTwo(d) && CoversAll(lens, d, perRank) :: d >= c) <==>
      exists i :: 0 <= i < |lens| && lens[i] > 0
  {
    hide PowerOfTwo, CoversAll, RoundPow2, CeilQuot, MaxOf;
    RoundedHolds(lens, perRank, c);
  }

  lemma RoundedHolds(lens: seq<nat>, perRank: nat, c: nat)
    requires lens != [] && perRank > 0 && c == RoundPow2(CeilQuot(MaxOf(lens), perRank))
    ensures PowerOfTwo(c) && CoversAll(lens, c, perRank)
    ensures (forall d: nat | PowerOfTwo(d) && CoversAll(lens, d, perRank) :: d >= c) <==>
      exists i :: 0 <= i < |lens| && lens[i] > 0
  {
    hide CeilQuot, RoundPow2, MaxOf, CoversLongest, Pow2;
    var longest := MaxOf(lens);
    LocalSizeIsLeastIff(longest, perRank);
    RoundedIsPower(CeilQuot(longest, perRank));
    CoversLongestIff(lens, c, perRank);
    forall d: nat ensures CoversAll(lens, d, perRank) <==> CoversLongest(d, longest, perRank) {
      CoversLongestIff(lens, d, perRank);
    }
    AllEmptyIff(lens);
    hide CoversAll;
    if longest > 0 {
      forall d: nat | PowerOfTwo(d) && CoversAll(lens, d, perRank) ensures d >= c {
        var k: nat :| d == Pow2(k);
        LeastPower(longest, perRank, k);
      }
    } else {
      var k: nat :| CoversLongest(Pow2(k), longest, perRank) && Pow2(k) < c;
      assert PowerOfTwo(Pow2(k)) && CoversAll(lens, Pow2(k), perRank);
    }
  }

  lemma LeastPower(longest: nat, perRank: nat, k: nat)
    requires perRank > 0 && longest > 0 && CoversLongest(Pow2(k), longest, perRank)
    ensures Pow2(k) >= RoundPow2(CeilQuot(longest, perRank))
  {
    LocalSizeIsLeastIff(longest, perRank);
    hide CeilQuot, RoundPow2, CoversLongest, Pow2;
  }

  lemma RoundedIsPower(size: nat)
    ensures PowerOfTwo(RoundPow2(size))
  {
    hide Pow2, BitLength;
  }

  lemma AllEmptyIff(lens: seq<nat>)
    ensures MaxOf(lens) > 0 <==> exists i :: 0 <= i < |lens| && lens[i] > 0
  {
    if lens != [] {
      var i := MaxIsSome(lens);
      forall j | 0 <= j < |lens| ensures lens[j] <= MaxOf(lens) {
        MaxIsMax(lens, j);
      }
    }
  }

  /** A batch is left untouched exactly if it is not empty and has fewer sequences than there are ranks; a larger one is
      refused exactly if no power of two up to the data-parallel size holds every sequence, or if that size is 1 and all
      are empty. */
  lemma UntouchedIff(lens: seq<nat>, perRank: nat, dpSize: nat)
    ensures LocalSize(lens, perRank, dpSize) == Success(None) <==> 0 < |lens| < dpSize
    ensures perRank > 0 && 0 < |lens| && dpSize <= |lens| ==>
      (LocalSize(lens, perRank, dpSize) == Failure(Error.AssertionError) <==>
        (dpSize == 1 && forall i | 0 <= i < |lens| :: lens[i] == 0)
        || forall d: nat | PowerOfTwo(d) && d <= dpSize :: !CoversAll(lens, d, perRank))
  {
    if perRank > 0 && 0 < |lens| && dpSize <= |lens| { RefusedIff(lens, perRank, dpSize); }
  }

  lemma RefusedIff(lens: seq<nat>, perRank: nat, dpSize: nat)
    requires perRank > 0 && 0 < |lens| && dpSize <= |lens|
    ensures LocalSize(lens, perRank, dpSize) == Failure(Error.AssertionError) <==>
        (dpSize == 1 && forall i | 0 <= i < |lens| :: lens[i] == 0)
        || forall d: nat | PowerOfTwo(d) && d <= dpSize :: !CoversAll(lens, d, perRank)
  {
    var c := RoundPow2(CeilQuot(MaxOf(lens), perRank));
    SizeOfEmpty(perRank);
    hide CeilQuot, RoundPow2, MaxOf, CoversAll, CoversLongest, Pow2;
    RoundedHolds(lens, perRank, c);
    AllEmptyIff(lens);
    if c <= dpSize {
      assert PowerOfTwo(c) && CoversAll(lens, c, perRank);
    } else {
      forall d: nat | PowerOfTwo(d) && d <= dpSize
        ensures CoversAll(lens, d, perRank) ==> dpSize == 1 && MaxOf(lens) == 0
      {
        PowerPositive(d);
      }
    }
  }

  lemma PowerPositive(d: nat)
    requires PowerOfTwo(d)
    ensures d > 0
  {
    var k: nat :| d == Pow2(k);
    Pow2Positive(k);
  }

  lemma SizeOfEmpty(perRank: nat)
    requires perRank > 0
    ensures RoundPow2(CeilQuot(0, perRank)) == 2 && Pow2(0) == 1
  {
    CeilCovers(0, perRank, 0);
    assert BitLength(1) == 1;
  }

  /** What one rank does. `index_select_tensor_dict` asserts that it selects at least one row of `input_ids`. */
  function SplitBatch(lens: seq<nat>, perRank: nat, dpSize: nat, dpRank: nat): Result<Outcome, Error> {
    LocalSizeBounds(lens, perRank, dpSize);
    match LocalSize(lens, perRank, dpSize)
    case Failure(e) => Failure(e)
    case Success(None) => Success(Untouched)
    case Success(Some(c)) =>
      if c == dpSize then Success(Assigned(c, Indices(|lens|)))
      else if RankRows(|lens|, dpSize, dpRank, c) == [] then Failure(Error.AssertionError)
      else Success(Assigned(c, RankRows(|lens|, dpSize, dpRank, c)))
  }

  lemma {:induction false} Pow2Positive(k: nat)
    ensures Pow2(k) > 0
  {
    if k > 0 { Pow2Positive(k - 1); }
  }

  // ----- dynamic_cp_merge_output -------------------------------------------------------------

  /** `s[i::step]` */
  function Strided<T>(s: seq<T>, i: nat, step: nat): seq<T>
    requires step > 0
    decreases |s| - i
  {
    if i >= |s| then [] else [s[i]] + Strided(s, i + step, step)
  }

  function Outputs<K, T>(gathered: seq<map<K, seq<T>>>, k: K): (r: seq<seq<T>>)
    requires forall i | 0 <= i < |gathered| :: k in gathered[i]
    ensures |r| == |gathered|
  {
    seq(|gathered|, i requires 0 <= i < |gathered| => gathered[i][k])
  }

  /** The outputs of all ranks have the same keys. */
  predicate SameKeys<K(==), T>(gathered: seq<map<K, seq<T>>>, dpRank: nat)
    requires dpRank < |gathered|
  {
    forall i | 0 <= i < |gathered| :: gathered[i].Keys == gathered[dpRank].Keys
  }

  function Merged<K(==), T>(gathered: seq<map<K, seq<T>>>, dpRank: nat, localCp: nat): map<K, seq<T>>
    requires dpRank < |gathered| && localCp > 0 && SameKeys(gathered, dpRank)
  {
    if localCp == |gathered| then gathered[dpRank]
    else map k | k in gathered[dpRank] :: Concat(Strided(Outputs(gathered, k), dpRank % localCp, localCp))
  }

  /** Key by key: gather from every rank, take every localCp-th, concatenate. */
  method MergeOutput<K(==), T>(gathered: seq<map<K, seq<T>>>, dpRank: nat, localCp: nat)
    returns (merged: map<K, seq<T>>)
    requires dpRank < |gathered| && localCp > 0 && SameKeys(gathered, dpRank)
    ensures merged == Merged(gathered, dpRank, localCp)
  {
    if localCp == |gathered| { return gathered[dpRank]; }
    merged := map[];
    var keys := gathered[dpRank].Keys;
    while keys != {}
      invariant keys <= gathered[dpRank].Keys
      invariant merged == map k | k in gathered[dpRank].Keys - keys ::
        Concat(Strided(Outputs(gathered, k), dpRank % localCp, localCp))
      decreases |keys|
    {
      var k :| k in keys;
      var toMerge := Strided(Outputs(gathered, k), dpRank % localCp, localCp);
      merged := merged[k := Concat(toMerge)];
      keys := keys - {k};
    }
  }

  /** How many of the places i, i + step, ... are below n. */
  function StridedCount(n: nat, i: nat, step: nat): nat
    requires step > 0
  {
    if i >= n then 0 else CeilQuot(n - i, step)
  }

  lemma {:induction false} StridedLength<T>(s: seq<T>, i: nat, step: nat)
    requires step > 0
    ensures |Strided(s, i, step)| == StridedCount(|s|, i, step)
    decreases |s| - i
  {
    hide CeilQuot;
    if i < |s| {
      StridedLength(s, i + step, step);
      OneLess(|s|, i, step);
    }
  }

  lemma {:induction false} StridedAt<T>(s: seq<T>, i: nat, step: nat, t: nat)
    requires step > 0 && t < |Strided(s, i, step)|
    ensures 0 <= i + t * step < |s| && Strided(s, i, step)[t] == s[i + t * step]
    decreases |s| - i
  {
    assert i < |s|;
    var rest := Strided(s, i + step, step);
    assert Strided(s, i, step) == [s[i]] + rest;
    hide Strided;
    if t > 0 {
      StridedAt(s, i + step, step, t - 1);
      assert i + step + (t - 1) * step == i + t * step;
    }
  }

  lemma OneLess(n: nat, i: nat, step: nat)
    requires step > 0 && i < n
    ensures StridedCount(n, i, step) == 1 + StridedCount(n, i + step, step)
  {
    var m := n - i;
    if m <= step {
      DivMod(m + step - 1, 1, m - 1, step);
    } else {
      var q, r := (m - 1) / step, (m - 1) % step;
      assert m - 1 == q * step + r && (q + 1) * step == q * step + step;
      DivMod(m + step - 1, q + 1, r, step);
    }
  }

  /** Whatever the ranks produced: the merge joins, in the order of the ranks, the outputs of the ranks whose place in
      their group is this rank's place. */
  lemma MergedIsResidue<K, T>(gathered: seq<map<K, seq<T>>>, dpRank: nat, localCp: nat, k: K)
    requires dpRank < |gathered| && 0 < localCp && localCp != |gathered| && SameKeys(gathered, dpRank)
    requires k in gathered[dpRank]
    ensures var own := dpRank % localCp; var n := StridedCount(|gathered|, own, localCp);
      && (forall t: nat | t < n :: 0 <= own + t * localCp < |gathered|)
      && Merged(gathered, dpRank, localCp)[k]
         == Concat(seq(n, t requires 0 <= t < n => gathered[own + t * localCp][k]))
  {
    hide Concat, Strided, StridedCount;
    var own, outs := dpRank % localCp, Outputs(gathered, k);
    var n := StridedCount(|gathered|, own, localCp);
    StridedLength(outs, own, localCp);
    forall t: nat | t < n
      ensures 0 <= own + t * localCp < |gathered| && Strided(outs, own, localCp)[t] == gathered[own + t * localCp][k]
    {
      StridedAt(outs, own, localCp, t);
    }
    assert Strided(outs, own, localCp) == seq(n, t requires 0 <= t < n => gathered[own + t * localCp][k]);
  }

  // ----- the merge restores the order --------------------------------------------------------

  function Cut<T>(s: seq<T>, start: nat, len: nat): seq<T> {
    if start <= |s| then s[start..Min(start + len, |s|)] else []
  }

  function Drop<T>(s: seq<T>, n: nat): seq<T> {
    if n <= |s| then s[n..] else []
  }

  lemma CutThenDrop<T>(s: seq<T>, start: nat, len: nat)
    ensures Cut(s, start, len) + Drop(s, start + len) == Drop(s, start)
  {
  }

  /** The slices reach the end of the batch before the ranks run out. */
  lemma EnoughSlices(n: nat, dpSize: nat, localCp: nat, offset: nat, t: nat)
    requires 0 < localCp <= dpSize && offset < localCp && offset + t * localCp >= dpSize
    ensures t * PerCp(n, dpSize, localCp) >= n
  {
    var m := Div(dpSize, localCp);
    DivPositive(dpSize, localCp);
    var per := PerCp(n, dpSize, localCp);
    CeilCovers(n, m, per);
    assert (t + 1) * localCp == t * localCp + localCp;
    assert dpSize == m * localCp + dpSize % localCp;
    if t < m {
      BlockBefore(t, m, localCp);
    } else {
      assert (t - m) * per >= 0;
      assert (t - m) * per == t * per - m * per;
      assert m * per == per * m;
    }
  }

  /** Every localCp-th rank, from its t-th on: the rows from slice t on. */
  lemma {:induction false} StridedTail<T>(
    all: seq<T>, outs: seq<seq<T>>, localCp: nat, offset: nat, t: nat, i: nat)
    requires 0 < localCp <= |outs| && offset < localCp && i == offset + t * localCp
    requires forall r: nat | r < |outs| ::
      outs[r] == Cut(all, SliceStart(|all|, |outs|, r, localCp), PerCp(|all|, |outs|, localCp))
    ensures 0 <= t * PerCp(|all|, |outs|, localCp)
    ensures Concat(Strided(outs, i, localCp)) == Drop(all, t * PerCp(|all|, |outs|, localCp))
    decreases |outs| - i
  {
    hide Cut, Drop, PerCp, Concat, Div;
    var per := PerCp(|all|, |outs|, localCp);
    if i >= |outs| {
      EnoughSlices(|all|, |outs|, localCp, offset, t);
      NothingLeft(all, t * per);
    } else {
      assert (t + 1) * localCp == t * localCp + localCp;
      StridedTail(all, outs, localCp, offset, t + 1, i + localCp);
      RankOf(i, t, localCp, offset);
      assert (t + 1) * per == t * per + per;
      CutThenDrop(all, t * per, per);
      ConcatFirst(outs[i], Strided(outs, i + localCp, localCp));
    }
  }

  lemma NothingLeft<T>(s: seq<T>, n: nat)
    requires n >= |s|
    ensures Drop(s, n) == Concat<T>([])
  {
  }

  lemma ConcatFirst<T>(x: seq<T>, rest: seq<seq<T>>)
    ensures Concat([x] + rest) == x + Concat(rest)
  {
    assert ([x] + rest)[1..] == rest;
  }

  lemma RankOf(i: nat, t: nat, localCp: nat, offset: nat)
    requires offset < localCp && i == offset + t * localCp
    ensures Div(i, localCp) == t
  {
    DivMod(i, t, offset, localCp);
  }

  lemma PickRank<T>(s: seq<T>, dpSize: nat, r: nat, localCp: nat)
    requires 0 < localCp <= dpSize
    ensures var rows := RankRows(|s|, dpSize, r, localCp);
      && (forall i | 0 <= i < |rows| :: rows[i] < |s|)
      && Select(s, rows) == Cut(s, SliceStart(|s|, dpSize, r, localCp), PerCp(|s|, dpSize, localCp))
  {
    hide PerCp, Div, SliceStart;
  }

  /** Whichever ranks of a residue are taken, their slices tile the batch in order. */
  lemma SlicesTile(n: nat, dpSize: nat, localCp: nat, offset: nat)
    requires 0 < localCp <= dpSize && offset < localCp
    ensures Concat(Strided(seq(dpSize, r requires 0 <= r < dpSize => RankRows(n, dpSize, r, localCp)), offset, localCp))
      == Indices(n)
  {
    var outs := seq(dpSize, r requires 0 <= r < dpSize => RankRows(n, dpSize, r, localCp));
    forall r: nat | r < dpSize
      ensures outs[r] == Cut(Indices(n), SliceStart(n, dpSize, r, localCp), PerCp(n, dpSize, localCp))
    {
      PickRank(Indices(n), dpSize, r, localCp);
      assert Select(Indices(n), outs[r]) == outs[r];
    }
    hide RankRows, PerCp, Cut, Div, SliceStart;
    StridedTail(Indices(n), outs, localCp, offset, 0, offset);
  }

  /** The rows a rank keeps of a batch of n sequences. */
  function RowsOf(n: nat, dpSize: nat, r: nat, localCp: nat): seq<nat>
    requires 0 < localCp <= dpSize
  {
    if localCp < dpSize then RankRows(n, dpSize, r, localCp) else Indices(n)
  }

  // ----- when no rank is left without a row --------------------------------------------------

  /** The slice of the last rank starts inside the batch. */
  predicate LastRankHasRows(n: nat, dpSize: nat, localCp: nat)
    requires 0 < localCp <= dpSize
  {
    localCp == dpSize || SliceStart(n, dpSize, dpSize - 1, localCp) < n
  }

  /** No rank fails on an empty slice. */
  predicate EveryRankSplits(lens: seq<nat>, perRank: nat, dpSize: nat) {
    forall r: nat | r < dpSize :: SplitBatch(lens, perRank, dpSize, r).Success?
  }

  lemma DivMono(a: nat, b: nat, w: nat)
    requires a <= b && w > 0
    ensures Div(a, w) <= Div(b, w)
  {
    var p, q := a / w, b / w;
    assert a == p * w + a % w && b == q * w + b % w && (q + 1) * w == q * w + w;
    if p > q { MulMono(q + 1, p, w); }
  }

  /** A slice is empty exactly if it starts at or behind the end of the batch. */
  lemma RowsNonEmptyIff(n: nat, dpSize: nat, r: nat, localCp: nat)
    requires 0 < localCp <= dpSize && n > 0
    ensures RankRows(n, dpSize, r, localCp) != [] <==> SliceStart(n, dpSize, r, localCp) < n
  {
    DivPositive(dpSize, localCp);
    CeilCovers(n, Div(dpSize, localCp), 0);
    hide CeilQuot, Div, SliceStart;
  }

  /** Earlier ranks start no later. */
  lemma StartsInOrder(n: nat, dpSize: nat, q: nat, r: nat, localCp: nat)
    requires 0 < localCp <= dpSize && q <= r
    ensures SliceStart(n, dpSize, q, localCp) <= SliceStart(n, dpSize, r, localCp)
  {
    DivMono(q, r, localCp);
    MulMono(Div(q, localCp), Div(r, localCp), PerCp(n, dpSize, localCp));
    hide Div, PerCp;
  }

  /** All ranks take the same size and keep the rows above, if and only if the last one has rows. */
  lemma SplitAgreesIff(lens: seq<nat>, perRank: nat, dpSize: nat, c: nat)
    requires LocalSize(lens, perRank, dpSize) == Success(Some(c))
    ensures 0 < c <= dpSize
    ensures EveryRankSplits(lens, perRank, dpSize) <==> LastRankHasRows(|lens|, dpSize, c)
    ensures forall r: nat | r < dpSize && SplitBatch(lens, perRank, dpSize, r).Success? ::
      SplitBatch(lens, perRank, dpSize, r) == Success(Assigned(c, RowsOf(|lens|, dpSize, r, c)))
  {
    hide LocalSize, RankRows, SliceStart;
    LocalSizeBounds(lens, perRank, dpSize);
    forall r: nat | r < dpSize
      ensures RankRows(|lens|, dpSize, r, c) != [] <==> SliceStart(|lens|, dpSize, r, c) < |lens|
      ensures SliceStart(|lens|, dpSize, r, c) <= SliceStart(|lens|, dpSize, dpSize - 1, c)
    {
      RowsNonEmptyIff(|lens|, dpSize, r, c);
      StartsInOrder(|lens|, dpSize, r, dpSize - 1, c);
    }
    assert SplitBatch(lens, perRank, dpSize, dpSize - 1).Success? ==> LastRankHasRows(|lens|, dpSize, c);
  }

  /** The slices are as short as they can be: with one sequence fewer each, the Div(dpSize, localCp) groups would not hold
      the batch. Rank r's slice is in its group's place and stops at the end of the batch. */
  lemma SlicesAreShortest(n: nat, dpSize: nat, r: nat, localCp: nat, len: nat)
    requires 0 < localCp <= dpSize
    ensures n <= len * Div(dpSize, localCp) <==> PerCp(n, dpSize, localCp) <= len
    ensures var rows, per := RankRows(n, dpSize, r, localCp), PerCp(n, dpSize, localCp);
      && |rows| <= per && (forall i | 0 <= i < |rows| :: rows[i] == Div(r, localCp) * per + i)
      && (|rows| < per ==> n <= Div(r, localCp) * per + |rows|)
  {
    DivPositive(dpSize, localCp);
    CeilCovers(n, Div(dpSize, localCp), len);
    hide Div, CeilQuot;
  }

  /** A size that does not divide the data-parallel size always leaves the last rank without a row. */
  lemma SizeMustDivide(n: nat, dpSize: nat, localCp: nat)
    requires 0 < localCp < dpSize && LastRankHasRows(n, dpSize, localCp)
    ensures Multiple(dpSize, localCp)
  {
    var m := Div(dpSize, localCp);
    assert dpSize == m * localCp + dpSize % localCp;
    DivPositive(dpSize, localCp);
    CeilCovers(n, m, PerCp(n, dpSize, localCp));
    assert m * PerCp(n, dpSize, localCp) == PerCp(n, dpSize, localCp) * m;
    if !Multiple(dpSize, localCp) { DivMod(dpSize - 1, m, dpSize % localCp - 1, localCp); }
  }

  /** Five sequences over four ranks at size 1: two rows for the first two, one for the third, none for the last. */
  lemma LastRankFails()
    ensures LocalSize([1, 1, 1, 1, 1], 10, 4) == Success(Some(1))
    ensures SplitBatch([1, 1, 1, 1, 1], 10, 4, 2) == Success(Assigned(1, [4]))
    ensures SplitBatch([1, 1, 1, 1, 1], 10, 4, 3) == Failure(Error.AssertionError)
  {
    var lens := [1, 1, 1, 1, 1];
    assert MaxOf(lens) == 1;
    assert RoundPow2(CeilQuot(1, 10)) == 1;
    assert LocalSize(lens, 10, 4) == Success(Some(1));
    assert PerCp(5, 4, 1) == 2;
    assert RankRows(5, 4, 2, 1) == [4] && RankRows(5, 4, 3, 1) == [];
  }

  lemma RowsBelow(n: nat, dpSize: nat, r: nat, localCp: nat)
    requires 0 < localCp <= dpSize
    ensures forall i | 0 <= i < |RowsOf(n, dpSize, r, localCp)| :: RowsOf(n, dpSize, r, localCp)[i] < n
  {
    PickRank(Indices(n), dpSize, r, localCp);
    hide RankRows;
  }

  /** What rank r produces, given the row-wise results of every key. */
  function RankOutput<K, T>(results: map<K, seq<T>>, n: nat, dpSize: nat, r: nat, localCp: nat): map<K, seq<T>>
    requires 0 < localCp <= dpSize && forall k | k in results :: |results[k]| == n
  {
    RowsBelow(n, dpSize, r, localCp);
    map k | k in results :: Select(results[k], RowsOf(n, dpSize, r, localCp))
  }

  function AllOutputs<K, T>(results: map<K, seq<T>>, n: nat, dpSize: nat, localCp: nat): (r: seq<map<K, seq<T>>>)
    requires 0 < localCp <= dpSize && forall k | k in results :: |results[k]| == n
    ensures |r| == dpSize
  {
    seq(dpSize, r requires 0 <= r < dpSize => RankOutput(results, n, dpSize, r, localCp))
  }

  lemma KeyMerged<K, T>(results: map<K, seq<T>>, n: nat, dpSize: nat, localCp: nat, offset: nat, k: K)
    requires 0 < localCp < dpSize && offset < localCp && k in results && forall k | k in results :: |results[k]| == n
    ensures Concat(Strided(Outputs(AllOutputs(results, n, dpSize, localCp), k), offset, localCp)) == results[k]
  {
    var outs := Outputs(AllOutputs(results, n, dpSize, localCp), k);
    forall r: nat | r < dpSize
      ensures outs[r] == Cut(results[k], SliceStart(n, dpSize, r, localCp), PerCp(n, dpSize, localCp))
    {
      hide RankRows, SliceStart, PerCp, Cut, Select;
      PickRank(results[k], dpSize, r, localCp);
    }
    hide RankRows, SliceStart, PerCp, Cut, AllOutputs, Outputs;
    StridedTail(results[k], outs, localCp, offset, 0, offset);
  }

  /** If and only if the last rank has rows, every rank splits, and then the merge on every rank restores every output
      in the original order of the sequences. */
  lemma MergeRestores<K, T>(
    lens: seq<nat>, perRank: nat, dpSize: nat, dpRank: nat, c: nat, results: map<K, seq<T>>)
    requires LocalSize(lens, perRank, dpSize) == Success(Some(c)) && dpRank < dpSize
    requires forall k | k in results :: |results[k]| == |lens|
    ensures 0 < c <= dpSize && SameKeys(AllOutputs(results, |lens|, dpSize, c), dpRank)
    ensures Merged(AllOutputs(results, |lens|, dpSize, c), dpRank, c) == results
    ensures (forall r: nat | r < dpSize ::
              SplitBatch(lens, perRank, dpSize, r) == Success(Assigned(c, RowsOf(|lens|, dpSize, r, c))))
      <==> LastRankHasRows(|lens|, dpSize, c)
  {
    hide LocalSize, RankRows, Strided, Concat, SplitBatch, LastRankHasRows;
    SplitAgreesIff(lens, perRank, dpSize, c);
    var n := |lens|;
    var gathered := AllOutputs(results, n, dpSize, c);
    if c < dpSize {
      forall k | k in results ensures Concat(Strided(Outputs(gathered, k), dpRank % c, c)) == results[k] {
        KeyMerged(results, n, dpSize, c, dpRank % c, k);
      }
      assert Merged(gathered, dpRank, c) == results;
    } else {
      forall k | k in results ensures Select(results[k], Indices(n)) == results[k] {
      }
      assert gathered[dpRank] == results;
    }
  }
}
