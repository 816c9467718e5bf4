/**
  What verl/utils/seqlen_balancing.py promises of a partition of indices, and the proof that the
  largest differencing method delivers it: exact cover, no empty partition, equal counts on
  request, and a bounded difference between the largest and the smallest sum.
*/
module BalancedPartitions {
  import opened Sequences
  import opened Arithmetic
  import opened DifferencingSpec
  import opened Wrappers

  // ----- `sorted([(seqlen, i) ...])` ---------------------------------------------------------

  function Enumerate(seqlens: seq<nat>): (r: seq<Item>)
    ensures |r| == |seqlens|
  {
    seq(|seqlens|, i requires 0 <= i < |seqlens| => Item(i, seqlens[i]))
  }

  predicate ValLess(a: Item, b: Item) {
    a.val < b.val || (a.val == b.val && a.idx < b.idx)
  }

  function InsertAsc(x: Item, s: seq<Item>): seq<Item> {
    if s == [] || !ValLess(s[0], x) then [x] + s else [s[0]] + InsertAsc(x, s[1..])
  }

  function SortAsc(s: seq<Item>): seq<Item> {
    if s == [] then [] else InsertAsc(s[0], SortAsc(s[1..]))
  }

  /** By length, and among equal lengths by index. */
  ghost predicate Ascending(s: seq<Item>) {
    forall i, j | 0 <= i < j < |s| :: s[i].val < s[j].val || (s[i].val == s[j].val && s[i].idx <= s[j].idx)
  }

  lemma {:induction false} InsertAscFacts(x: Item, s: seq<Item>)
    ensures |InsertAsc(x, s)| == |s| + 1 && multiset(InsertAsc(x, s)) == multiset{x} + multiset(s)
    decreases |s|
  {
    hide ValLess;
    if s != [] && ValLess(s[0], x) {
      InsertAscFacts(x, s[1..]);
      assert s == [s[0]] + s[1..];
    }
  }

  lemma {:induction false} InsertAscending(x: Item, s: seq<Item>)
    requires Ascending(s)
    ensures Ascending(InsertAsc(x, s))
    decreases |s|
  {
    if s != [] && ValLess(s[0], x) {
      var r := InsertAsc(x, s[1..]);
      InsertAscending(x, s[1..]);
      InsertAscFacts(x, s[1..]);
      assert InsertAsc(x, s) == [s[0]] + r;
      hide InsertAsc;
      forall j | 0 <= j < |r| ensures s[0].val < r[j].val || (s[0].val == r[j].val && s[0].idx <= r[j].idx) {
        assert r[j] in multiset(r);
        assert r[j] == x || r[j] in s[1..];
      }
    }
  }

  lemma {:induction false} SortAscFacts(s: seq<Item>)
    ensures |SortAsc(s)| == |s| && multiset(SortAsc(s)) == multiset(s) && Ascending(SortAsc(s))
  {
    if s != [] {
      SortAscFacts(s[1..]);
      InsertAscFacts(s[0], SortAsc(s[1..]));
      InsertAscending(s[0], SortAsc(s[1..]));
      hide InsertAsc, Ascending;
      assert s == [s[0]] + s[1..];
    }
  }

  // ----- the initial queue -------------------------------------------------------------------

  /** One state per `width` consecutive items. */
  function Chop(items: seq<Item>, width: nat, k: nat): seq<KState>
    requires 0 < width <= k
    decreases |items|
  {
    if |items| < width then []
    else Chop(items[..|items| - width], width, k) + [MakeState(items[|items| - width..], k)]
  }

  /** No block of `width` consecutive items ranges over more than `bound`; when a block does not fill a state, no item
      exceeds it either. */
  ghost predicate Within(items: seq<Item>, width: nat, k: nat, bound: int)
    requires 0 < width <= k
  {
    && (forall o: nat | Multiple(o, width) && o + width <= |items| :: items[o + width - 1].val - items[o].val <= bound)
    && (width < k ==> forall x | x in items :: x.val <= bound)
  }

  lemma BlockRange(items: seq<Item>, width: nat, k: nat, bound: int, x: Item, y: Item)
    requires 0 < width <= k && Ascending(items) && Multiple(|items|, width) && Within(items, width, k, bound)
    requires |items| >= width && x in items[|items| - width..] && y in items[|items| - width..]
    ensures x.val - y.val <= bound && (width < k ==> x.val <= bound)
  {
    var o := |items| - width;
    BlocksAlign(|items|, width);
    var i :| o <= i < |items| && items[i] == x;
    var j :| o <= j < |items| && items[j] == y;
    assert items[o + width - 1].val - items[o].val <= bound;
    assert items[i] in items;
  }

  lemma LastBlock(items: seq<Item>, width: nat, k: nat, bound: int)
    requires 0 < width <= k && Ascending(items) && Multiple(|items|, width) && Within(items, width, k, bound)
    requires |items| >= width
    ensures var block := items[|items| - width..];
      && StateInv(MakeState(block, k), k) && AllItems(MakeState(block, k).sets) == multiset(block)
      && Good(MakeState(block, k), k, bound) && (width == k ==> EqualCounts(MakeState(block, k), 1))
  {
    hide StateInv, Spread, EqualCounts, AllItems, MakeState, Within, Ascending;
    var block := items[|items| - width..];
    forall x, y | x in block && y in block ensures x.val - y.val <= bound && (width < k ==> x.val <= bound) {
      BlockRange(items, width, k, bound, x, y);
    }
    MakeStateFacts(block, k, bound);
    Nonempty(MakeState(block, k), k);
  }

  lemma WithinPrefix(items: seq<Item>, width: nat, k: nat, bound: int, o: nat)
    requires 0 < width <= k && o <= |items| && Ascending(items) && Within(items, width, k, bound)
    ensures Ascending(items[..o]) && Within(items[..o], width, k, bound)
  {
  }

  lemma Nonempty(s: KState, k: nat)
    requires StateInv(s, k)
    ensures s.sets != [] && |s.sets| == k
  {
  }

  lemma ChopLast(items: seq<Item>, width: nat, k: nat)
    requires 0 < width <= k && width <= |items|
    ensures var o := |items| - width;
      Chop(items, width, k) == Chop(items[..o], width, k) + [MakeState(items[o..], k)]
  {
    hide MakeState;
  }

  lemma {:induction false} ChopStates(items: seq<Item>, width: nat, k: nat, bound: int)
    requires 0 < width <= k && Ascending(items) && Multiple(|items|, width) && Within(items, width, k, bound)
    ensures forall s | s in Chop(items, width, k) :: Good(s, k, bound) && (width == k ==> Even(s))
    decreases |items|
  {
    hide Good, AllItems, MakeState, EqualCounts, Within, Ascending, StateInv, Even, Multiple;
    if |items| >= width {
      var o := |items| - width;
      BlocksAlign(|items|, width);
      WithinPrefix(items, width, k, bound, o);
      ChopStates(items[..o], width, k, bound);
      LastBlock(items, width, k, bound);
      ChopLast(items, width, k);
      hide Chop;
      if width == k { OneEach(MakeState(items[o..], k)); }
    }
  }

  lemma {:induction false} ChopItems(items: seq<Item>, width: nat, k: nat, bound: int)
    requires 0 < width <= k && Ascending(items) && Multiple(|items|, width) && Within(items, width, k, bound)
    ensures QueueItems(Chop(items, width, k)) == multiset(items)
    decreases |items|
  {
    hide Good, AllItems, MakeState, EqualCounts, Within, Ascending, StateInv, Even;
    if |items| < width {
      Short(|items|, width);
      assert QueueItems([]) == multiset{};
    } else {
      hide Multiple;
      var o := |items| - width;
      BlocksAlign(|items|, width);
      WithinPrefix(items, width, k, bound, o);
      ChopItems(items[..o], width, k, bound);
      LastBlock(items, width, k, bound);
      ChopLast(items, width, k);
      hide Chop;
      QueuePush(Chop(items[..o], width, k), MakeState(items[o..], k));
      assert items == items[..o] + items[o..];
    }
  }

  lemma QueuePush(c: seq<KState>, s: KState)
    ensures QueueItems(c + [s]) == QueueItems(c) + AllItems(s.sets)
  {
    assert (c + [s])[..|c|] == c;
  }

  lemma OneEach(s: KState)
    requires EqualCounts(s, 1)
    ensures Even(s)
  {
  }

  lemma Short(n: nat, width: nat)
    requires 0 <= n < width && Multiple(n, width)
    ensures n == 0
  {
  }

  // ----- the result --------------------------------------------------------------------------

  function Idxs(items: seq<Item>): (r: seq<nat>)
    ensures |r| == |items|
  {
    seq(|items|, i requires 0 <= i < |items| => items[i].idx)
  }

  /** get_partitions */
  function Partitions(s: KState): (r: seq<seq<nat>>)
    ensures |r| == |s.sets|
  {
    seq(|s.sets|, i requires 0 <= i < |s.sets| => Idxs(s.sets[i].items))
  }

  function Width(k: nat, equal: bool): nat {
    if equal then k else 1
  }

  function Queue(seqlens: seq<nat>, k: nat, equal: bool): seq<KState>
    requires k > 0
  {
    Chop(SortAsc(Enumerate(seqlens)), Width(k, equal), k)
  }

  /** The requests the method can serve. */
  predicate Feasible(n: nat, k: nat, equal: bool) {
    n > 0 && k > 0 && (equal ==> Multiple(n, k))
  }

  /** A bound on the sums' difference: the largest length, or with equal sizes the largest range of
      k consecutive lengths in sorted order. */
  ghost predicate Bounds(seqlens: seq<nat>, k: nat, equal: bool, bound: int)
    requires k > 0
  {
    Within(SortAsc(Enumerate(seqlens)), Width(k, equal), k, bound)
  }

  function MaxOf(s: seq<nat>): nat {
    if s == [] then 0 else if s[0] > MaxOf(s[1..]) then s[0] else MaxOf(s[1..])
  }

  lemma {:induction false} MaxIsMax(s: seq<nat>, i: nat)
    requires i < |s|
    ensures s[i] <= MaxOf(s)
  {
    if i > 0 { MaxIsMax(s[1..], i - 1); }
  }

  lemma {:induction false} MaxIsSome(s: seq<nat>) returns (i: nat)
    requires s != []
    ensures i < |s| && s[i] == MaxOf(s)
  {
    if s[0] > MaxOf(s[1..]) || |s| == 1 {
      i := 0;
    } else {
      i := MaxIsSome(s[1..]);
      i := i + 1;
    }
  }

  /** The largest length is always a bound. */
  lemma MaxBounds(seqlens: seq<nat>, k: nat, equal: bool)
    requires k > 0
    ensures Bounds(seqlens, k, equal, MaxOf(seqlens))
  {
    var items := SortAsc(Enumerate(seqlens));
    SortAscFacts(Enumerate(seqlens));
    forall x | x in items ensures x.val <= MaxOf(seqlens) {
      assert x in multiset(items) && x in multiset(Enumerate(seqlens));
      var i :| 0 <= i < |seqlens| && Enumerate(seqlens)[i] == x;
      MaxIsMax(seqlens, i);
    }
    var w := Width(k, equal);
    forall o: nat | Multiple(o, w) && o + w <= |items|
      ensures items[o + w - 1].val - items[o].val <= MaxOf(seqlens)
    {
      assert items[o + w - 1] in items;
    }
  }

  /** The state that is left by the merging loop. */
  lemma FinalState(seqlens: seq<nat>, k: nat, equal: bool, bound: int)
    requires Feasible(|seqlens|, k, equal) && Bounds(seqlens, k, equal, bound)
    ensures var pq := Queue(seqlens, k, equal);
      && pq != [] && Comparable(pq) && Good(Condense(pq), k, bound)
      && AllItems(Condense(pq).sets) == multiset(Enumerate(seqlens))
      && (equal ==> Even(Condense(pq)))
  {
    hide Good, AllItems, Even, Within, Comparable, Condense, Chop;
    var items := SortAsc(Enumerate(seqlens));
    SortAscFacts(Enumerate(seqlens));
    ChopItems(items, Width(k, equal), k, bound);
    ChopStates(items, Width(k, equal), k, bound);
    var pq := Queue(seqlens, k, equal);
    GoodComparable(pq, k, bound);
    CondenseFacts(pq, k, bound);
    if equal { EvenCondense(pq); }
  }

  function Indices(n: nat): (r: seq<nat>)
    ensures |r| == n
  {
    seq(n, i requires 0 <= i < n => i)
  }

  /** The weight of a part; Covers rules out indices beyond the end. */
  function PartSum(seqlens: seq<nat>, p: seq<nat>): nat {
    if p == [] then 0
    else PartSum(seqlens, p[..|p| - 1]) + if p[|p| - 1] < |seqlens| then seqlens[p[|p| - 1]] else 0
  }

  /** Each index below n is in exactly one part, once. */
  ghost predicate Covers(parts: seq<seq<nat>>, n: nat) {
    multiset(Concat(parts)) == multiset(Indices(n))
  }

  ghost predicate SpreadAtMost(seqlens: seq<nat>, parts: seq<seq<nat>>, bound: int) {
    forall i, j | 0 <= i < |parts| && 0 <= j < |parts| :: PartSum(seqlens, parts[i]) - PartSum(seqlens, parts[j]) <= bound
  }

  // ----- sums of covers ----------------------------------------------------------------------

  lemma {:induction false} PartSumConcat(seqlens: seq<nat>, p: seq<nat>, q: seq<nat>)
    ensures PartSum(seqlens, p + q) == PartSum(seqlens, p) + PartSum(seqlens, q)
    decreases |q|
  {
    if q == [] {
      assert p + q == p;
    } else {
      assert (p + q)[..|p + q| - 1] == p + q[..|q| - 1];
      PartSumConcat(seqlens, p, q[..|q| - 1]);
    }
  }

  lemma OneOut<T>(q: seq<T>, i: nat)
    requires i < |q|
    ensures multiset(q) == multiset(Without(q, i)) + multiset{q[i]}
  {
    assert q == q[..i] + [q[i]] + q[i + 1..];
  }

  lemma SameRest<T>(l: multiset<T>, r: multiset<T>, x: T)
    requires l + multiset{x} == r + multiset{x}
    ensures l == r
  {
    forall y ensures l[y] == r[y] {
      assert (l + multiset{x})[y] == (r + multiset{x})[y];
    }
  }

  /** Taking the last element of one ordering out of another. */
  lemma TakeOut<T>(p: seq<T>, q: seq<T>) returns (i: nat)
    requires multiset(p) == multiset(q) && p != []
    ensures i < |q| && q[i] == p[|p| - 1] && multiset(Without(q, i)) == multiset(p[..|p| - 1])
  {
    var x := p[|p| - 1];
    assert p == p[..|p| - 1] + [x];
    assert x in multiset(p) && x in multiset(q);
    i :| 0 <= i < |q| && q[i] == x;
    OneOut(q, i);
    SameRest(multiset(p[..|p| - 1]), multiset(Without(q, i)), x);
  }

  lemma {:induction false} PartSumPermute(seqlens: seq<nat>, p: seq<nat>, q: seq<nat>)
    requires multiset(p) == multiset(q)
    ensures PartSum(seqlens, p) == PartSum(seqlens, q)
    decreases |p|
  {
    if p == [] {
      assert |multiset(q)| == 0;
    } else {
      var i := TakeOut(p, q);
      var x, m := q[i], |p| - 1;
      PartSumPermute(seqlens, p[..m], Without(q, i));
      assert p == p[..m] + [x] && q == q[..i] + [x] + q[i + 1..];
      PartSumConcat(seqlens, p[..m], [x]);
      PartSumConcat(seqlens, q[..i], [x]);
      PartSumConcat(seqlens, q[..i] + [x], q[i + 1..]);
      PartSumConcat(seqlens, q[..i], q[i + 1..]);
    }
  }

  /** The other parts reach at least bound less than part i. */
  lemma {:induction false} ConcatAtLeast(seqlens: seq<nat>, parts: seq<seq<nat>>, low: int)
    requires forall j | 0 <= j < |parts| :: PartSum(seqlens, parts[j]) >= low
    ensures PartSum(seqlens, Concat(parts)) >= |parts| * low
    decreases |parts|
  {
    if parts != [] {
      PartSumConcat(seqlens, parts[0], Concat(parts[1..]));
      ConcatAtLeast(seqlens, parts[1..], low);
      assert |parts| * low == low + (|parts| - 1) * low;
    }
  }

  lemma SumAround(seqlens: seq<nat>, parts: seq<seq<nat>>, i: nat)
    requires i < |parts|
    ensures PartSum(seqlens, Concat(parts)) ==
      PartSum(seqlens, Concat(parts[..i])) + PartSum(seqlens, parts[i]) + PartSum(seqlens, Concat(parts[i + 1..]))
  {
    var a, b := parts[..i], parts[i + 1..];
    assert parts == a + [parts[i]] + b;
    ConcatSplit(a + [parts[i]], b);
    ConcatSplit(a, [parts[i]]);
    assert Concat([parts[i]]) == parts[i];
    PartSumConcat(seqlens, Concat(a), parts[i]);
    PartSumConcat(seqlens, Concat(a) + parts[i], Concat(b));
  }

  lemma OthersAtLeast(seqlens: seq<nat>, parts: seq<seq<nat>>, i: nat, low: int)
    requires i < |parts| && forall j | 0 <= j < |parts| :: PartSum(seqlens, parts[j]) >= low
    ensures PartSum(seqlens, Concat(parts)) >= PartSum(seqlens, parts[i]) + (|parts| - 1) * low
  {
    hide PartSum, Concat;
    var a, b := parts[..i], parts[i + 1..];
    SumAround(seqlens, parts, i);
    ConcatAtLeast(seqlens, a, low);
    ConcatAtLeast(seqlens, b, low);
    assert |a| * low + |b| * low == (|parts| - 1) * low;
  }

  /** The heaviest part: k times it is at most the whole plus k - 1 times the spread. */
  lemma HeaviestPart(seqlens: seq<nat>, parts: seq<seq<nat>>, bound: int, i: nat)
    requires Covers(parts, |seqlens|) && SpreadAtMost(seqlens, parts, bound) && i < |parts|
    ensures |parts| * PartSum(seqlens, parts[i]) <= PartSum(seqlens, Indices(|seqlens|)) + (|parts| - 1) * bound
  {
    hide PartSum, Concat, Indices, Covers, SpreadAtMost;
    var m, total := PartSum(seqlens, parts[i]), PartSum(seqlens, Indices(|seqlens|));
    AllAtLeast(seqlens, parts, i, m - bound);
    Spare(|parts|, m, bound, total);
  }

  lemma AllAtLeast(seqlens: seq<nat>, parts: seq<seq<nat>>, i: nat, low: int)
    requires i < |parts| && Covers(parts, |seqlens|)
    requires SpreadAtMost(seqlens, parts, PartSum(seqlens, parts[i]) - low)
    ensures PartSum(seqlens, Indices(|seqlens|)) >= PartSum(seqlens, parts[i]) + (|parts| - 1) * low
  {
    hide PartSum, Concat, Indices;
    PartSumPermute(seqlens, Concat(parts), Indices(|seqlens|));
    OthersAtLeast(seqlens, parts, i, low);
  }

  lemma Spare(k: nat, m: int, bound: int, total: int)
    requires total >= m + (k - 1) * (m - bound)
    ensures k * m <= total + (k - 1) * bound
  {
  }

  // ----- from items to indices ---------------------------------------------------------------

  lemma {:induction false} IdxsPermute(a: seq<Item>, b: seq<Item>)
    requires multiset(a) == multiset(b)
    ensures multiset(Idxs(a)) == multiset(Idxs(b))
    decreases |a|
  {
    if a == [] {
      assert |multiset(b)| == 0;
    } else {
      var i := TakeOut(a, b);
      var x, m := b[i], |a| - 1;
      IdxsPermute(a[..m], Without(b, i));
      assert Idxs(a) == Idxs(a[..m]) + [x.idx];
      assert Idxs(b) == Idxs(b[..i]) + [x.idx] + Idxs(b[i + 1..]);
      assert Idxs(Without(b, i)) == Idxs(b[..i]) + Idxs(b[i + 1..]);
    }
  }

  function ItemLists(sets: seq<Part>): seq<seq<Item>> {
    seq(|sets|, i requires 0 <= i < |sets| => sets[i].items)
  }

  lemma {:induction false} ConcatItems(sets: seq<Part>)
    ensures multiset(Concat(ItemLists(sets))) == AllItems(sets)
  {
    if sets != [] {
      ConcatItems(sets[1..]);
      assert ItemLists(sets)[1..] == ItemLists(sets[1..]);
      assert Concat(ItemLists(sets)) == sets[0].items + Concat(ItemLists(sets[1..]));
      hide Concat, ItemLists;
    }
  }

  lemma {:induction false} ConcatIdxs(sets: seq<Part>)
    ensures Concat(Partitions(KState(sets))) == Idxs(Concat(ItemLists(sets)))
  {
    if sets != [] {
      var a, b := sets[0].items, Concat(ItemLists(sets[1..]));
      ConcatIdxs(sets[1..]);
      assert ItemLists(sets)[1..] == ItemLists(sets[1..]);
      assert Partitions(KState(sets))[1..] == Partitions(KState(sets[1..]));
      assert Concat(ItemLists(sets)) == a + b;
      assert Concat(Partitions(KState(sets))) == Idxs(a) + Concat(Partitions(KState(sets[1..])));
      hide Concat, ItemLists, Partitions;
      assert Idxs(a + b) == Idxs(a) + Idxs(b);
    }
  }

  /** An exact cover of the items is an exact cover of the indices. */
  lemma CoverOfItems(s: KState, seqlens: seq<nat>)
    requires AllItems(s.sets) == multiset(Enumerate(seqlens))
    ensures Covers(Partitions(s), |seqlens|)
  {
    ConcatItems(s.sets);
    ConcatIdxs(s.sets);
    IdxsPermute(Concat(ItemLists(s.sets)), Enumerate(seqlens));
    assert Idxs(Enumerate(seqlens)) == Indices(|seqlens|);
  }

  lemma {:induction false} SumOfIdxs(seqlens: seq<nat>, items: seq<Item>)
    requires forall x | x in items :: x in Enumerate(seqlens)
    ensures PartSum(seqlens, Idxs(items)) == Sum(items)
    decreases |items|
  {
    if items != [] {
      var m := |items| - 1;
      assert items[m] in Enumerate(seqlens);
      assert Idxs(items)[..m] == Idxs(items[..m]);
      SumOfIdxs(seqlens, items[..m]);
    }
  }

  lemma {:induction false} MemberOfAll(sets: seq<Part>, i: nat, x: Item)
    requires i < |sets| && x in sets[i].items
    ensures x in AllItems(sets)
    decreases i
  {
    if i > 0 { MemberOfAll(sets[1..], i - 1, x); }
  }

  lemma SumOfPart(s: KState, k: nat, seqlens: seq<nat>, i: nat)
    requires StateInv(s, k) && AllItems(s.sets) == multiset(Enumerate(seqlens)) && i < k
    ensures |s.sets| == k && PartSum(seqlens, Partitions(s)[i]) == s.sets[i].sum
  {
    forall x | x in s.sets[i].items ensures x in Enumerate(seqlens) {
      MemberOfAll(s.sets, i, x);
      assert x in multiset(Enumerate(seqlens));
    }
    hide NonEmptyCount, AllItems, Enumerate;
    SumOfIdxs(seqlens, s.sets[i].items);
    assert s.sets[i] in s.sets;
  }

  // ----- the largest differencing method -----------------------------------------------------

  /** What the Python raises. */
  datatype Error = AssertionError | ZeroDivisionError | IndexError | TypeError

  lemma QueueReady(seqlens: seq<nat>, k: nat, equal: bool)
    requires Feasible(|seqlens|, k, equal)
    ensures Queue(seqlens, k, equal) != [] && Comparable(Queue(seqlens, k, equal))
  {
    hide Queue, Bounds;
    MaxBounds(seqlens, k, equal);
    FinalState(seqlens, k, equal, MaxOf(seqlens));
  }

  /** karmarkar_karp */
  function Differenced(seqlens: seq<nat>, k: nat, equal: bool): Result<seq<seq<nat>>, Error> {
    if equal && k == 0 then Failure(ZeroDivisionError)
    else if equal && !Multiple(|seqlens|, k) then Failure(AssertionError)
    else if seqlens == [] || k == 0 then Failure(IndexError)
    else
      QueueReady(seqlens, k, equal);
      Success(Partitions(Condense(Queue(seqlens, k, equal))))
  }

  lemma EvenParts(s: KState, k: nat, n: nat)
    requires Even(s) && |s.sets| == k && Covers(Partitions(s), n)
    ensures forall p | p in Partitions(s) :: |p| * k == n
  {
    var c: nat :| EqualCounts(s, c);
    var parts := Partitions(s);
    forall p | p in parts ensures |p| == c {
      var i :| 0 <= i < k && parts[i] == p;
      assert s.sets[i] in s.sets;
    }
    ConcatLength(parts, c);
    assert |multiset(Concat(parts))| == |multiset(Indices(n))|;
    assert c * k == k * c;
  }

  lemma EmptyOnlyBeyond(s: KState, k: nat, bound: int, seqlens: seq<nat>, i: nat)
    requires Good(s, k, bound) && AllItems(s.sets) == multiset(Enumerate(seqlens)) && i < k
    ensures Partitions(s)[i] == [] <==> i >= |seqlens|
  {
    hide AllItems, NonEmptyCount, Enumerate;
    assert |AllItems(s.sets)| == |seqlens|;
    NonEmptyFirst(s.sets, i);
  }

  lemma SpreadOfParts(s: KState, k: nat, bound: int, seqlens: seq<nat>)
    requires Good(s, k, bound) && AllItems(s.sets) == multiset(Enumerate(seqlens))
    ensures SpreadAtMost(seqlens, Partitions(s), bound)
  {
    var parts := Partitions(s);
    forall i, j | 0 <= i < |parts| && 0 <= j < |parts|
      ensures PartSum(seqlens, parts[i]) - PartSum(seqlens, parts[j]) <= bound
    {
      hide StateInv, AllItems, Partitions, PartSum, Spread;
      SumOfPart(s, k, seqlens, i);
      SumOfPart(s, k, seqlens, j);
      Ends(s, k, i, j);
    }
  }

  /** Exact cover, empty sets only beyond the number of items, equal counts on request, and a bounded spread. */
  lemma DifferencingBalances(seqlens: seq<nat>, k: nat, equal: bool)
    requires Feasible(|seqlens|, k, equal)
    ensures var r := Differenced(seqlens, k, equal);
      && r.Success? && |r.value| == k && Covers(r.value, |seqlens|)
      && (forall i | 0 <= i < k :: r.value[i] == [] <==> i >= |seqlens|)
      && (equal ==> forall p | p in r.value :: |p| * k == |seqlens|)
      && (forall bound | Bounds(seqlens, k, equal, bound) :: SpreadAtMost(seqlens, r.value, bound))
  {
    hide Bounds, Good, Even, Covers, SpreadAtMost, Partitions, AllItems, Queue, Condense, Comparable;
    var max := MaxOf(seqlens);
    MaxBounds(seqlens, k, equal);
    FinalState(seqlens, k, equal, max);
    var final := Condense(Queue(seqlens, k, equal));
    GoodLength(final, k, max);
    CoverOfItems(final, seqlens);
    if equal { EvenParts(final, k, |seqlens|); }
    forall i | 0 <= i < k ensures Partitions(final)[i] == [] <==> i >= |seqlens| {
      EmptyOnlyBeyond(final, k, max, seqlens, i);
    }
    forall bound | Bounds(seqlens, k, equal, bound) ensures SpreadAtMost(seqlens, Partitions(final), bound) {
      FinalState(seqlens, k, equal, bound);
      SpreadOfParts(final, k, bound, seqlens);
    }
  }

  lemma GoodLength(s: KState, k: nat, bound: int)
    requires Good(s, k, bound)
    ensures |s.sets| == k
  {
  }

  // ----- get_seqlen_balanced_partitions ------------------------------------------------------

  function InsertNat(x: nat, s: seq<nat>): seq<nat> {
    if s == [] || x <= s[0] then [x] + s else [s[0]] + InsertNat(x, s[1..])
  }

  /** `sorted(partition)` */
  function SortNats(s: seq<nat>): seq<nat> {
    if s == [] then [] else InsertNat(s[0], SortNats(s[1..]))
  }

  ghost predicate Rising(s: seq<nat>) {
    forall i, j | 0 <= i < j < |s| :: s[i] <= s[j]
  }

  ghost predicate Increasing(s: seq<nat>) {
    forall i, j | 0 <= i < j < |s| :: s[i] < s[j]
  }

  lemma {:induction false} InsertNatFacts(x: nat, s: seq<nat>)
    ensures multiset(InsertNat(x, s)) == multiset{x} + multiset(s)
    decreases |s|
  {
    if s != [] && x > s[0] {
      InsertNatFacts(x, s[1..]);
      assert s == [s[0]] + s[1..];
    }
  }

  lemma {:induction false} InsertRising(x: nat, s: seq<nat>)
    requires Rising(s)
    ensures Rising(InsertNat(x, s))
    decreases |s|
  {
    if s != [] && x > s[0] {
      var r := InsertNat(x, s[1..]);
      InsertRising(x, s[1..]);
      InsertNatFacts(x, s[1..]);
      assert InsertNat(x, s) == [s[0]] + r;
      hide InsertNat;
      forall j | 0 <= j < |r| ensures s[0] <= r[j] {
        assert r[j] in multiset(r);
        assert r[j] == x || r[j] in s[1..];
      }
    }
  }

  lemma {:induction false} SortNatsFacts(s: seq<nat>)
    ensures multiset(SortNats(s)) == multiset(s) && Rising(SortNats(s))
    ensures |SortNats(s)| == |s|
  {
    if s != [] {
      SortNatsFacts(s[1..]);
      InsertNatFacts(s[0], SortNats(s[1..]));
      InsertRising(s[0], SortNats(s[1..]));
      assert s == [s[0]] + s[1..];
    }
    assert |multiset(SortNats(s))| == |multiset(s)|;
  }

  function SortEach(parts: seq<seq<nat>>): (r: seq<seq<nat>>)
    ensures |r| == |parts|
  {
    seq(|parts|, i requires 0 <= i < |parts| => SortNats(parts[i]))
  }

  lemma {:induction false} SortEachConcat(parts: seq<seq<nat>>)
    ensures multiset(Concat(SortEach(parts))) == multiset(Concat(parts))
  {
    if parts != [] {
      SortEachConcat(parts[1..]);
      SortNatsFacts(parts[0]);
      assert SortEach(parts)[1..] == SortEach(parts[1..]);
    }
  }

  /** _check_and_sort_partitions */
  function CheckedAndSorted(parts: seq<seq<nat>>, k: nat, n: nat): Result<seq<seq<nat>>, Error> {
    if |parts| == k && (forall p | p in parts :: p != []) && (set x | x in Concat(parts)) == (set x | x in Indices(n))
    then Success(SortEach(parts))
    else Failure(AssertionError)
  }

  /** get_seqlen_balanced_partitions */
  function Balanced(seqlens: seq<nat>, k: nat, equal: bool): Result<seq<seq<nat>>, Error> {
    if |seqlens| < k then Failure(AssertionError)
    else
      var r := Differenced(seqlens, k, equal);
      if r.Failure? then r else CheckedAndSorted(r.value, k, |seqlens|)
  }

  lemma CoverElements(parts: seq<seq<nat>>, n: nat)
    requires Covers(parts, n)
    ensures (set x | x in Concat(parts)) == (set x | x in Indices(n))
    ensures forall x :: multiset(Concat(parts))[x] <= 1
  {
    IndicesOnce(n);
    forall x: nat ensures x in Concat(parts) <==> x in Indices(n) {
      assert x in Concat(parts) <==> x in multiset(Indices(n));
    }
  }

  lemma {:induction false} IndicesOnce(n: nat)
    ensures forall x :: multiset(Indices(n))[x] <= 1
  {
    if n > 0 {
      IndicesOnce(n - 1);
      assert Indices(n) == Indices(n - 1) + [n - 1];
      assert n - 1 !in Indices(n - 1);
    }
  }

  lemma RisingOnce(s: seq<nat>)
    requires Rising(s) && forall x :: multiset(s)[x] <= 1
    ensures Increasing(s)
  {
    forall i, j | 0 <= i < j < |s| ensures s[i] < s[j] {
      TwiceCounts(s, i, j);
      assert multiset(s)[s[i]] <= 1;
    }
  }

  /** The request is served exactly when it can be, and no assertion on the way to the result fires. */
  lemma BalancedIff(seqlens: seq<nat>, k: nat, equal: bool)
    ensures Balanced(seqlens, k, equal).Success? <==> Feasible(|seqlens|, k, equal) && |seqlens| >= k
  {
    hide Covers, SpreadAtMost, Bounds;
    if Feasible(|seqlens|, k, equal) && |seqlens| >= k {
      DifferencingBalances(seqlens, k, equal);
      var parts := Differenced(seqlens, k, equal).value;
      hide Differenced;
      CoverElements(parts, |seqlens|);
      forall p | p in parts ensures p != [] {
        var i :| 0 <= i < k && parts[i] == p;
        assert parts[i] == [] <==> i >= |seqlens|;
      }
    }
  }

  /** What the caller gets. */
  lemma BalancedPartitionsAre(seqlens: seq<nat>, k: nat, equal: bool)
    requires Feasible(|seqlens|, k, equal) && |seqlens| >= k
    ensures var r := Balanced(seqlens, k, equal);
      && r.Success? && |r.value| == k && Covers(r.value, |seqlens|)
      && (forall p | p in r.value :: p != [] && Increasing(p) && (equal ==> |p| * k == |seqlens|))
      && (forall bound | Bounds(seqlens, k, equal, bound) :: SpreadAtMost(seqlens, r.value, bound))
  {
    hide SpreadAtMost, Bounds, Concat, SortNats, Increasing, Covers;
    BalancedIff(seqlens, k, equal);
    DifferencingBalances(seqlens, k, equal);
    var parts := Differenced(seqlens, k, equal).value;
    hide Differenced;
    var r := SortEach(parts);
    SortEachCovers(parts, |seqlens|);
    forall p | p in r ensures p != [] && Increasing(p) && (equal ==> |p| * k == |seqlens|) {
      var i :| 0 <= i < k && r[i] == p;
      SortedPart(parts, |seqlens|, i);
      assert parts[i] in parts;
    }
    forall bound | Bounds(seqlens, k, equal, bound) ensures SpreadAtMost(seqlens, r, bound) {
      SortEachSpread(seqlens, parts, bound);
    }
  }

  lemma SortEachCovers(parts: seq<seq<nat>>, n: nat)
    requires Covers(parts, n)
    ensures Covers(SortEach(parts), n)
  {
    SortEachConcat(parts);
  }

  lemma SortedPart(parts: seq<seq<nat>>, n: nat, i: nat)
    requires Covers(parts, n) && i < |parts|
    ensures Increasing(SortNats(parts[i])) && |SortNats(parts[i])| == |parts[i]|
  {
    hide SortNats;
    CoverElements(parts, n);
    PartOfConcat(parts, i);
    SortNatsFacts(parts[i]);
    RisingOnce(SortNats(parts[i]));
  }

  lemma SortEachSums(seqlens: seq<nat>, parts: seq<seq<nat>>)
    ensures forall i | 0 <= i < |parts| :: PartSum(seqlens, SortEach(parts)[i]) == PartSum(seqlens, parts[i])
  {
    hide SortNats;
    forall i | 0 <= i < |parts| ensures PartSum(seqlens, SortNats(parts[i])) == PartSum(seqlens, parts[i]) {
      SortNatsFacts(parts[i]);
      PartSumPermute(seqlens, SortNats(parts[i]), parts[i]);
    }
    hide PartSum;
  }

  lemma SortEachSpread(seqlens: seq<nat>, parts: seq<seq<nat>>, bound: int)
    requires SpreadAtMost(seqlens, parts, bound)
    ensures SpreadAtMost(seqlens, SortEach(parts), bound)
  {
    hide SortEach, PartSum;
    SortEachSums(seqlens, parts);
  }

  /** The partitions come in falling order of their sums. */
  lemma HeaviestFirst(seqlens: seq<nat>, k: nat, equal: bool, i: nat, j: nat)
    requires Balanced(seqlens, k, equal).Success? && i <= j < |Balanced(seqlens, k, equal).value|
    ensures var r := Balanced(seqlens, k, equal).value; PartSum(seqlens, r[i]) >= PartSum(seqlens, r[j])
  {
    hide Bounds, StateInv, AllItems, PartSum, Queue, SortEach, Comparable, Spread, Condense;
    var max := MaxOf(seqlens);
    BalancedIff(seqlens, k, equal);
    MaxBounds(seqlens, k, equal);
    FinalState(seqlens, k, equal, max);
    QueueReady(seqlens, k, equal);
    var final := Condense(Queue(seqlens, k, equal));
    SortEachSums(seqlens, Partitions(final));
    SumOfPart(final, k, seqlens, i);
    SumOfPart(final, k, seqlens, j);
    Ends(final, k, j, i);
  }
}
