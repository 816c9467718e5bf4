/**
  The largest differencing method of verl/utils/seqlen_balancing.py on values: k-way states whose
  sets are kept in decreasing order, merged largest against smallest, taken from a priority queue.
*/
module DifferencingSpec {
  /** (idx, val) */
  datatype Item = Item(idx: nat, val: nat)

  /** Set: the running sum and the items in the order they were added. */
  datatype Part = Part(sum: int, items: seq<Item>)

  /** State: k sets. */
  datatype KState = KState(sets: seq<Part>)

  const EMPTY_PART := Part(0, [])

  function Sum(items: seq<Item>): nat {
    if items == [] then 0 else Sum(items[..|items| - 1]) + items[|items| - 1].val
  }

  lemma {:induction false} SumConcat(a: seq<Item>, b: seq<Item>)
    ensures Sum(a + b) == Sum(a) + Sum(b)
    decreases |b|
  {
    if b == [] {
      assert a + b == a;
    } else {
      assert (a + b)[..|a + b| - 1] == a + b[..|b| - 1];
      SumConcat(a, b[..|b| - 1]);
    }
  }

  // ----- the orders --------------------------------------------------------------------------

  predicate ItemLess(a: Item, b: Item) {
    a.idx < b.idx || (a.idx == b.idx && a.val < b.val)
  }

  /** Lexicographic comparison of item lists. */
  predicate ItemsLess(a: seq<Item>, b: seq<Item>)
    decreases |a|
  {
    if b == [] then false
    else if a == [] then true
    else ItemLess(a[0], b[0]) || (a[0] == b[0] && ItemsLess(a[1..], b[1..]))
  }

  /** Set.__lt__: by sum, then by number of items, then by the items. */
  predicate PartLess(a: Part, b: Part) {
    if a.sum != b.sum then a.sum < b.sum
    else if |a.items| != |b.items| then |a.items| < |b.items|
    else ItemsLess(a.items, b.items)
  }

  function Spread(s: KState): int
    requires s.sets != []
  {
    s.sets[0].sum - s.sets[|s.sets| - 1].sum
  }

  /** State.__lt__: larger spread first, then larger first set first. */
  predicate StateLess(a: KState, b: KState)
    requires a.sets != [] && b.sets != []
  {
    if Spread(a) != Spread(b) then Spread(a) > Spread(b) else PartLess(b.sets[0], a.sets[0])
  }

  lemma {:induction false} ItemsOrder(a: seq<Item>, b: seq<Item>, c: seq<Item>)
    ensures ItemsLess(a, b) ==> !ItemsLess(b, a)
    ensures ItemsLess(a, b) && !ItemsLess(c, b) ==> ItemsLess(a, c)
    ensures !ItemsLess(a, b) && !ItemsLess(b, a) ==> a == b
    decreases |a|
  {
    if a != [] && b != [] {
      if c != [] {
        ItemsOrder(a[1..], b[1..], c[1..]);
      } else {
        ItemsOrder(a[1..], b[1..], []);
      }
      assert a == [a[0]] + a[1..] && b == [b[0]] + b[1..];
    }
  }

  lemma PartOrder(a: Part, b: Part, c: Part)
    ensures PartLess(a, b) ==> !PartLess(b, a)
    ensures PartLess(a, b) && !PartLess(c, b) ==> PartLess(a, c)
    ensures !PartLess(a, b) && !PartLess(b, a) ==> a == b
  {
    ItemsOrder(a.items, b.items, c.items);
  }

  lemma StateOrder(a: KState, b: KState, c: KState)
    requires a.sets != [] && b.sets != [] && c.sets != []
    ensures StateLess(a, b) ==> !StateLess(b, a)
    ensures StateLess(a, b) && !StateLess(c, b) ==> StateLess(a, c)
    ensures !StateLess(a, b) && !StateLess(b, a) ==> a.sets[0] == b.sets[0]
  {
    PartOrder(a.sets[0], b.sets[0], c.sets[0]);
    PartOrder(c.sets[0], b.sets[0], a.sets[0]);
    PartOrder(b.sets[0], c.sets[0], a.sets[0]);
  }

  // ----- sorting sets ------------------------------------------------------------------------

  /** Where a set goes in a decreasing list; equal sets keep their order. */
  function InsertDesc(x: Part, s: seq<Part>): seq<Part> {
    if s == [] || !PartLess(x, s[0]) then [x] + s else [s[0]] + InsertDesc(x, s[1..])
  }

  /** `sorted(sets, reverse=True)` */
  function SortDesc(s: seq<Part>): seq<Part> {
    if s == [] then [] else InsertDesc(s[0], SortDesc(s[1..]))
  }

  /** Decreasing by sum, and among equal sums by number of items. */
  predicate Geq(a: Part, b: Part) {
    a.sum > b.sum || (a.sum == b.sum && |a.items| >= |b.items|)
  }

  ghost predicate Decreasing(s: seq<Part>) {
    forall i, j | 0 <= i < j < |s| :: Geq(s[i], s[j])
  }

  function AllItems(s: seq<Part>): multiset<Item> {
    if s == [] then multiset{} else multiset(s[0].items) + AllItems(s[1..])
  }

  function NonEmptyCount(s: seq<Part>): nat {
    if s == [] then 0 else (if s[0].items == [] then 0 else 1) + NonEmptyCount(s[1..])
  }

  lemma {:induction false} InsertDescFacts(x: Part, s: seq<Part>)
    ensures |InsertDesc(x, s)| == |s| + 1
    ensures multiset(InsertDesc(x, s)) == multiset{x} + multiset(s)
    ensures AllItems(InsertDesc(x, s)) == multiset(x.items) + AllItems(s)
    ensures NonEmptyCount(InsertDesc(x, s)) == (if x.items == [] then 0 else 1) + NonEmptyCount(s)
    decreases |s|
  {
    hide PartLess;
    var r := InsertDesc(x, s);
    if s == [] || !PartLess(x, s[0]) {
      assert r[1..] == s;
    } else {
      assert r[1..] == InsertDesc(x, s[1..]);
      InsertDescFacts(x, s[1..]);
      assert s == [s[0]] + s[1..];
    }
  }

  lemma LessIsGeq(a: Part, b: Part)
    ensures if PartLess(a, b) then Geq(b, a) else Geq(a, b)
  {
  }

  lemma {:induction false} InsertDescMember(x: Part, s: seq<Part>, y: Part)
    requires y in InsertDesc(x, s)
    ensures y == x || y in s
    decreases |s|
  {
    hide PartLess;
    if s != [] && PartLess(x, s[0]) && y != s[0] {
      InsertDescMember(x, s[1..], y);
    }
  }

  lemma {:induction false} InsertDecreasing(x: Part, s: seq<Part>)
    requires Decreasing(s)
    ensures Decreasing(InsertDesc(x, s))
    decreases |s|
  {
    hide PartLess;
    if s != [] {
      LessIsGeq(x, s[0]);
      if PartLess(x, s[0]) {
        var t, r := s[1..], InsertDesc(x, s[1..]);
        InsertDecreasing(x, t);
        assert InsertDesc(x, s) == [s[0]] + r;
        hide InsertDesc;
        forall j | 0 <= j < |r| ensures Geq(s[0], r[j]) {
          InsertDescMember(x, t, r[j]);
        }
      }
    }
  }

  lemma {:induction false} SortDescFacts(s: seq<Part>)
    ensures |SortDesc(s)| == |s| && multiset(SortDesc(s)) == multiset(s)
    ensures AllItems(SortDesc(s)) == AllItems(s)
    ensures NonEmptyCount(SortDesc(s)) == NonEmptyCount(s)
    ensures Decreasing(SortDesc(s))
  {
    if s != [] {
      hide InsertDesc;
      SortDescFacts(s[1..]);
      InsertDescFacts(s[0], SortDesc(s[1..]));
      InsertDecreasing(s[0], SortDesc(s[1..]));
      assert s == [s[0]] + s[1..];
    }
  }

  lemma SortedMember(s: seq<Part>, x: Part)
    requires x in SortDesc(s)
    ensures x in s
  {
    SortDescFacts(s);
    assert x in multiset(SortDesc(s));
    assert x in multiset(s);
  }

  // ----- states ------------------------------------------------------------------------------

  /** State(items, k): one set per item, the rest empty, sorted. */
  function MakeState(items: seq<Item>, k: nat): KState
    requires |items| <= k
  {
    KState(SortDesc(Singles(items) + Empties(k - |items|)))
  }

  function MergeParts(a: Part, b: Part): Part {
    Part(a.sum + Sum(b.items), a.items + b.items)
  }

  function Crossed(a: seq<Part>, b: seq<Part>): (c: seq<Part>)
    requires |a| == |b|
    ensures |c| == |a|
  {
    seq(|a|, i requires 0 <= i < |a| => MergeParts(a[i], b[|a| - 1 - i]))
  }

  function MergeStates(a: KState, b: KState): KState
    requires |a.sets| == |b.sets|
  {
    KState(SortDesc(Crossed(a.sets, b.sets)))
  }

  /** What the construction and every merge keep. */
  ghost predicate StateInv(s: KState, k: nat) {
    && k > 0 && |s.sets| == k && Decreasing(s.sets)
    && (forall p | p in s.sets :: p.sum == Sum(p.items))
    && NonEmptyCount(s.sets) == (if |AllItems(s.sets)| < k then |AllItems(s.sets)| else k)
  }

  lemma SortedIndex(s: seq<Part>, n: nat) returns (i: nat)
    requires n < |s|
    ensures |SortDesc(s)| == |s| && i < |s| && s[i] == SortDesc(s)[n]
  {
    SortDescFacts(s);
    SortedMember(s, SortDesc(s)[n]);
    i :| 0 <= i < |s| && s[i] == SortDesc(s)[n];
  }

  lemma SumsAre(s: KState, k: nat, i: nat)
    requires StateInv(s, k) && i < k
    ensures |s.sets| == k && s.sets[i].sum == Sum(s.sets[i].items)
  {
    assert s.sets[i] in s.sets;
  }

  lemma CrossedSpread(a: KState, b: KState, k: nat, i: nat, j: nat)
    requires StateInv(a, k) && StateInv(b, k) && i < k && j < k
    ensures var d := Crossed(a.sets, b.sets)[i].sum - Crossed(a.sets, b.sets)[j].sum;
      d <= Spread(a) || d <= Spread(b)
  {
    hide StateInv, Sum, Spread;
    SumsAre(b, k, k - 1 - i);
    SumsAre(b, k, k - 1 - j);
    Ends(a, k, i, j);
    Ends(b, k, k - 1 - i, k - 1 - j);
  }

  /** Merging never spreads more than the wider of the two. */
  lemma MergeSpread(a: KState, b: KState, k: nat)
    requires StateInv(a, k) && StateInv(b, k)
    ensures |MergeStates(a, b).sets| == k
    ensures Spread(MergeStates(a, b)) <= Spread(a) || Spread(MergeStates(a, b)) <= Spread(b)
  {
    hide Crossed, SortDesc, Decreasing, NonEmptyCount, AllItems, Sum;
    var c := Crossed(a.sets, b.sets);
    var i := SortedIndex(c, 0);
    var j := SortedIndex(c, k - 1);
    CrossedSpread(a, b, k, i, j);
  }

  lemma Ends(s: KState, k: nat, i: nat, j: nat)
    requires StateInv(s, k) && i < k && j < k
    ensures |s.sets| == k
    ensures s.sets[i].sum - s.sets[j].sum <= Spread(s)
    ensures i >= j ==> s.sets[i].sum <= s.sets[j].sum
  {
    hide NonEmptyCount, AllItems, Sum;
    assert i > 0 ==> Geq(s.sets[0], s.sets[i]);
    assert j < k - 1 ==> Geq(s.sets[j], s.sets[k - 1]);
    assert i > j ==> Geq(s.sets[j], s.sets[i]);
    assert i < j ==> Geq(s.sets[i], s.sets[j]);
    assert k > 1 ==> Geq(s.sets[0], s.sets[k - 1]);
  }

  lemma {:induction false} CrossedItems(a: seq<Part>, b: seq<Part>)
    requires |a| == |b|
    ensures AllItems(Crossed(a, b)) == AllItems(a) + AllItems(b)
    decreases |a|
  {
    if a != [] {
      var n := |b| - 1;
      assert Crossed(a, b)[1..] == Crossed(a[1..], b[..n]);
      CrossedItems(a[1..], b[..n]);
      assert b == b[..n] + [b[n]];
      AllItemsConcat(b[..n], [b[n]]);
      assert AllItems([b[n]]) == multiset(b[n].items);
    }
  }

  lemma {:induction false} AllItemsConcat(a: seq<Part>, b: seq<Part>)
    ensures AllItems(a + b) == AllItems(a) + AllItems(b)
  {
    if a == [] {
      assert a + b == b;
    } else {
      assert (a + b)[1..] == a[1..] + b;
      AllItemsConcat(a[1..], b);
    }
  }

  // ----- no empty set before its time --------------------------------------------------------

  /** In a decreasing list the non-empty sets come first. */
  lemma {:induction false} NonEmptyFirst(s: seq<Part>, i: nat)
    requires Decreasing(s) && (forall p | p in s :: p.sum == Sum(p.items)) && i < |s|
    ensures s[i].items != [] <==> i < NonEmptyCount(s)
    decreases |s|
  {
    var t := s[1..];
    if s[0].items == [] {
      forall j | 0 <= j < |s| ensures s[j].items == [] {
        assert j > 0 ==> Geq(s[0], s[j]);
        assert s[j] in s;
      }
      AllEmpty(s);
    } else if i > 0 {
      NonEmptyFirst(t, i - 1);
    }
  }

  lemma {:induction false} AllEmpty(s: seq<Part>)
    requires forall j | 0 <= j < |s| :: s[j].items == []
    ensures NonEmptyCount(s) == 0
  {
    if s != [] { AllEmpty(s[1..]); }
  }

  /** Counting the indices whose crossed set is non-empty. */
  lemma {:induction false} CountByIndex(s: seq<Part>, lo: nat, hi: nat)
    requires lo <= hi <= |s|
    requires forall i | 0 <= i < |s| :: s[i].items != [] <==> i < lo || i >= hi
    ensures NonEmptyCount(s) == lo + |s| - hi
    decreases |s|
  {
    if s != [] {
      if lo > 0 {
        CountByIndex(s[1..], lo - 1, hi - 1);
      } else if hi > 0 {
        CountByIndex(s[1..], 0, hi - 1);
      } else {
        CountByIndex(s[1..], 0, 0);
      }
    }
  }

  lemma CrossedNonEmpty(a: KState, b: KState, k: nat, i: nat)
    requires StateInv(a, k) && StateInv(b, k) && i < k
    ensures Crossed(a.sets, b.sets)[i].items != [] <==> i < NonEmptyCount(a.sets) || i >= k - NonEmptyCount(b.sets)
  {
    hide NonEmptyCount, AllItems, Decreasing;
    NonEmptyFirst(a.sets, i);
    NonEmptyFirst(b.sets, k - 1 - i);
  }

  lemma CountBounded(a: KState, k: nat)
    requires StateInv(a, k)
    ensures |a.sets| == k && NonEmptyCount(a.sets) <= k
  {
    hide NonEmptyCount, AllItems, Decreasing;
  }

  lemma MergeCount(a: KState, b: KState, k: nat)
    requires StateInv(a, k) && StateInv(b, k)
    ensures var x, y := NonEmptyCount(a.sets), NonEmptyCount(b.sets);
      |a.sets| == |b.sets| && NonEmptyCount(Crossed(a.sets, b.sets)) == if x + y < k then x + y else k
  {
    hide StateInv, NonEmptyCount;
    CountBounded(a, k);
    CountBounded(b, k);
    var x, y, c := NonEmptyCount(a.sets), NonEmptyCount(b.sets), Crossed(a.sets, b.sets);
    forall i: nat | i < k ensures c[i].items != [] <==> i < x || i >= k - y {
      CrossedNonEmpty(a, b, k, i);
    }
    hide Crossed;
    if x + y < k {
      CountByIndex(c, x, k - y);
    } else {
      CountByIndex(c, k, k);
    }
  }

  lemma MergeKeeps(a: KState, b: KState, k: nat)
    requires StateInv(a, k) && StateInv(b, k)
    ensures StateInv(MergeStates(a, b), k)
    ensures AllItems(MergeStates(a, b).sets) == AllItems(a.sets) + AllItems(b.sets)
  {
    hide NonEmptyCount, AllItems, SortDesc;
    var c := Crossed(a.sets, b.sets);
    SortDescFacts(c);
    CrossedItems(a.sets, b.sets);
    MergeCount(a, b, k);
    forall p | p in SortDesc(c) ensures p.sum == Sum(p.items) {
      SortedMember(c, p);
      CrossedSum(a, b, k, p);
    }
    hide Decreasing, Crossed;
  }

  lemma CrossedSum(a: KState, b: KState, k: nat, p: Part)
    requires StateInv(a, k) && StateInv(b, k) && p in Crossed(a.sets, b.sets)
    ensures p.sum == Sum(p.items)
  {
    hide NonEmptyCount, AllItems, Decreasing;
    var i :| 0 <= i < k && Crossed(a.sets, b.sets)[i] == p;
    SumConcat(a.sets[i].items, b.sets[k - 1 - i].items);
    assert a.sets[i] in a.sets && b.sets[k - 1 - i] in b.sets;
  }

  /** When every set of either state has equally many items, so has every set of the merged state. */
  ghost predicate EqualCounts(s: KState, c: nat) {
    forall p | p in s.sets :: |p.items| == c
  }

  lemma MergeEqualCounts(a: KState, b: KState, c: nat, d: nat)
    requires |a.sets| == |b.sets| && EqualCounts(a, c) && EqualCounts(b, d)
    ensures EqualCounts(MergeStates(a, b), c + d)
  {
    var x := Crossed(a.sets, b.sets);
    forall p | p in SortDesc(x) ensures |p.items| == c + d {
      SortedMember(x, p);
      var i :| 0 <= i < |x| && x[i] == p;
      assert a.sets[i] in a.sets && b.sets[|x| - 1 - i] in b.sets;
    }
  }

  // ----- fresh states ------------------------------------------------------------------------

  function Singles(items: seq<Item>): (r: seq<Part>)
    ensures |r| == |items|
  {
    seq(|items|, i requires 0 <= i < |items| => Part(items[i].val, [items[i]]))
  }

  function Empties(n: nat): (r: seq<Part>)
    ensures |r| == n
  {
    seq(n, _ => EMPTY_PART)
  }

  lemma {:induction false} SinglesFacts(items: seq<Item>, n: nat)
    ensures AllItems(Singles(items) + Empties(n)) == multiset(items)
    ensures NonEmptyCount(Singles(items) + Empties(n)) == |items|
    decreases |items| + n
  {
    var s := Singles(items) + Empties(n);
    if items != [] {
      assert s[1..] == Singles(items[1..]) + Empties(n);
      SinglesFacts(items[1..], n);
      assert items == [items[0]] + items[1..];
    } else if n > 0 {
      assert s[1..] == Singles(items) + Empties(n - 1);
      SinglesFacts(items, n - 1);
    }
  }

  lemma SingleSum(i: Item)
    ensures Sum([i]) == i.val
  {
    assert [i][..0] == [];
  }

  lemma FreshPart(items: seq<Item>, k: nat, i: nat)
    requires |items| <= k && i < k
    ensures var p := (Singles(items) + Empties(k - |items|))[i];
      && p.sum == Sum(p.items) && p.sum == (if i < |items| then items[i].val else 0)
      && (|items| == k ==> |p.items| == 1)
  {
    if i < |items| { SingleSum(items[i]); }
  }

  lemma FreshSpread(items: seq<Item>, k: nat, bound: int, i: nat, j: nat)
    requires 0 < |items| <= k && i < k && j < k
    requires forall x, y | x in items && y in items :: x.val - y.val <= bound
    requires |items| < k ==> forall x | x in items :: x.val <= bound
    ensures var s := Singles(items) + Empties(k - |items|); s[i].sum - s[j].sum <= bound
  {
    FreshPart(items, k, i);
    FreshPart(items, k, j);
    assert items[0] in items && items[0].val - items[0].val <= bound;
    hide Singles, Empties, Sum;
    assert i < |items| ==> items[i] in items;
    assert j < |items| ==> items[j] in items;
  }

  /** A fresh state obeys the invariant, and spreads as far as its items do (or down to an empty set). */
  lemma MakeStateFacts(items: seq<Item>, k: nat, bound: int)
    requires 0 < |items| <= k
    requires forall x, y | x in items && y in items :: x.val - y.val <= bound
    requires |items| < k ==> forall x | x in items :: x.val <= bound
    ensures StateInv(MakeState(items, k), k) && AllItems(MakeState(items, k).sets) == multiset(items)
    ensures Spread(MakeState(items, k)) <= bound
    ensures |items| == k ==> EqualCounts(MakeState(items, k), 1)
  {
    hide SortDesc, NonEmptyCount, AllItems, Singles, Empties, Sum, Decreasing;
    var s := Singles(items) + Empties(k - |items|);
    assert MakeState(items, k).sets == SortDesc(s) && |s| == k;
    SinglesFacts(items, k - |items|);
    SortDescFacts(s);
    FreshSorted(items, k);
    var i := SortedIndex(s, 0);
    var j := SortedIndex(s, k - 1);
    FreshSpread(items, k, bound, i, j);
  }

  lemma FreshSorted(items: seq<Item>, k: nat)
    requires |items| <= k
    ensures forall p | p in MakeState(items, k).sets :: p.sum == Sum(p.items) && (|items| == k ==> |p.items| == 1)
  {
    hide SortDesc, Sum;
    var s := Singles(items) + Empties(k - |items|);
    assert MakeState(items, k).sets == SortDesc(s);
    forall p | p in SortDesc(s) ensures p.sum == Sum(p.items) && (|items| == k ==> |p.items| == 1) {
      SortedMember(s, p);
      var n: nat :| n < k && s[n] == p;
      FreshPart(items, k, n);
    }
  }

  // ----- the priority queue ------------------------------------------------------------------

  predicate Comparable(pq: seq<KState>) {
    forall s | s in pq :: s.sets != [] && |s.sets| == |pq[0].sets|
  }

  /** Index of the least of the first n states. */
  function LeastOf(pq: seq<KState>, n: nat): (r: nat)
    requires 0 < n <= |pq| && Comparable(pq)
    ensures r < n
  {
    if n == 1 then 0
    else
      var b := LeastOf(pq, n - 1);
      if StateLess(pq[n - 1], pq[b]) then n - 1 else b
  }

  /** `heappop` takes a state that no other precedes. */
  lemma {:induction false} LeastIsLeast(pq: seq<KState>, n: nat, j: nat)
    requires j < n <= |pq| && Comparable(pq)
    ensures !StateLess(pq[j], pq[LeastOf(pq, n)])
    decreases n
  {
    var r := LeastOf(pq, n);
    if n > 1 {
      var b := LeastOf(pq, n - 1);
      if j < n - 1 { LeastIsLeast(pq, n - 1, j); }
      StateOrder(pq[n - 1], pq[b], pq[j]);
      StateOrder(pq[n - 1], pq[j], pq[j]);
    } else {
      StateOrder(pq[0], pq[0], pq[0]);
    }
  }

  function Without<T>(s: seq<T>, i: nat): seq<T>
    requires i < |s|
  {
    s[..i] + s[i + 1..]
  }

  /** The queue after its two least states have been popped and merged. */
  function Step(pq: seq<KState>): (next: seq<KState>)
    requires |pq| > 1 && Comparable(pq)
    ensures |next| == |pq| - 1 && Comparable(next)
  {
    var i := LeastOf(pq, |pq|);
    var rest := Without(pq, i);
    assert Comparable(rest) by { StillComparable(pq, i, rest, 0); }
    var j := LeastOf(rest, |rest|);
    StillComparable(pq, i, rest, j);
    Without(rest, j) + [MergeStates(pq[i], rest[j])]
  }

  /** Merging the two least states until one is left. */
  function Condense(pq: seq<KState>): KState
    requires pq != [] && Comparable(pq)
    decreases |pq|
  {
    if |pq| == 1 then pq[0] else Condense(Step(pq))
  }

  lemma StillComparable(pq: seq<KState>, i: nat, rest: seq<KState>, j: nat)
    requires |pq| > 1 && i < |pq| && Comparable(pq) && rest == Without(pq, i) && j < |rest|
    ensures Comparable(rest) && |pq[i].sets| == |rest[j].sets|
    ensures Comparable(Without(rest, j) + [MergeStates(pq[i], rest[j])])
  {
    SortDescFacts(Crossed(pq[i].sets, rest[j].sets));
    hide SortDesc, Crossed;
    var merged := MergeStates(pq[i], rest[j]);
    assert |merged.sets| == |pq[i].sets|;
    hide MergeStates;
  }

  function QueueItems(pq: seq<KState>): multiset<Item> {
    if pq == [] then multiset{} else QueueItems(pq[..|pq| - 1]) + AllItems(pq[|pq| - 1].sets)
  }

  lemma {:induction false} QueueItemsWithout(pq: seq<KState>, i: nat)
    requires i < |pq|
    ensures QueueItems(pq) == QueueItems(Without(pq, i)) + AllItems(pq[i].sets)
    decreases |pq|
  {
    hide AllItems;
    var n := |pq| - 1;
    if i == n {
      assert Without(pq, i) == pq[..n];
    } else {
      QueueItemsWithout(pq[..n], i);
      var w := Without(pq, i);
      assert w[..n - 1] == Without(pq[..n], i) && w[n - 1] == pq[n];
      var q, x, y := QueueItems(Without(pq[..n], i)), AllItems(pq[i].sets), AllItems(pq[n].sets);
      assert QueueItems(w) == q + y && QueueItems(pq) == QueueItems(pq[..n]) + y;
      assert q + x + y == q + y + x;
    }
  }

  ghost predicate Even(s: KState) {
    exists c: nat :: EqualCounts(s, c)
  }

  ghost predicate Good(s: KState, k: nat, bound: int) {
    StateInv(s, k) && s.sets != [] && |s.sets| == k && Spread(s) <= bound
  }

  lemma GoodComparable(pq: seq<KState>, k: nat, bound: int)
    requires pq != [] && forall s | s in pq :: Good(s, k, bound)
    ensures Comparable(pq)
  {
    assert pq[0] in pq;
  }

  lemma WithoutMember<T>(s: seq<T>, i: nat, x: T)
    requires i < |s| && x in Without(s, i)
    ensures x in s
  {
  }

  /** The two states that are merged in a step, and what the step leaves. */
  lemma StepParts(pq: seq<KState>) returns (a: KState, b: KState)
    requires |pq| > 1 && Comparable(pq)
    ensures a in pq && b in pq && |a.sets| == |b.sets|
    ensures forall s | s in Step(pq) :: s in pq || s == MergeStates(a, b)
    ensures AllItems(MergeStates(a, b).sets) == AllItems(a.sets) + AllItems(b.sets) ==>
      QueueItems(Step(pq)) == QueueItems(pq)
    ensures AllItems(a.sets) + AllItems(b.sets) <= QueueItems(pq)
  {
    hide StateLess, AllItems, MergeStates, Comparable;
    var i := LeastOf(pq, |pq|);
    var rest := Without(pq, i);
    StillComparable(pq, i, rest, 0);
    var j := LeastOf(rest, |rest|);
    StillComparable(pq, i, rest, j);
    a, b := pq[i], rest[j];
    QueueItemsWithout(pq, i);
    QueueItemsWithout(rest, j);
    assert Step(pq)[..|Step(pq)| - 1] == Without(rest, j);
    WithoutMember(pq, i, b);
    forall s | s in Without(rest, j) ensures s in pq {
      WithoutMember(rest, j, s);
      WithoutMember(pq, i, s);
    }
  }

  lemma {:induction false} EvenCondense(pq: seq<KState>)
    requires pq != [] && Comparable(pq) && forall s | s in pq :: Even(s)
    ensures Even(Condense(pq))
    decreases |pq|
  {
    hide Even, Step;
    if |pq| == 1 {
      assert pq[0] in pq;
    } else {
      var a, b := StepParts(pq);
      EvenMerge(a, b);
      EvenCondense(Step(pq));
    }
  }

  lemma EvenMerge(a: KState, b: KState)
    requires |a.sets| == |b.sets| && Even(a) && Even(b)
    ensures Even(MergeStates(a, b))
  {
    var c: nat :| EqualCounts(a, c);
    var d: nat :| EqualCounts(b, d);
    MergeEqualCounts(a, b, c, d);
    assert EqualCounts(MergeStates(a, b), c + d);
  }

  /** The state that is left has all the items, obeys the invariant, and spreads no wider than any before. */
  lemma {:induction false} CondenseFacts(pq: seq<KState>, k: nat, bound: int)
    requires pq != [] && Comparable(pq) && forall s | s in pq :: Good(s, k, bound)
    ensures Good(Condense(pq), k, bound) && AllItems(Condense(pq).sets) == QueueItems(pq)
    decreases |pq|
  {
    hide Good, Step, AllItems, MergeStates;
    if |pq| == 1 {
      assert pq[..0] == [] && pq[0] in pq;
    } else {
      var a, b := StepParts(pq);
      CondenseStep(a, b, k, bound);
      CondenseFacts(Step(pq), k, bound);
    }
  }

  lemma CondenseStep(a: KState, b: KState, k: nat, bound: int)
    requires Good(a, k, bound) && Good(b, k, bound)
    ensures |a.sets| == |b.sets| && Good(MergeStates(a, b), k, bound)
    ensures AllItems(MergeStates(a, b).sets) == AllItems(a.sets) + AllItems(b.sets)
  {
    hide StateInv, Spread;
    KPositive(a, k);
    MergeSpread(a, b, k);
    MergeKeeps(a, b, k);
  }

  lemma KPositive(a: KState, k: nat)
    requires StateInv(a, k)
    ensures k > 0
  {
  }
}
