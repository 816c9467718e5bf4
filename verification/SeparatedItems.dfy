/**
  Items that start in one state of the largest differencing method of verl/utils/seqlen_balancing.py
  never meet in a set: merging pairs each set with one of the other state. With equal sizes the two
  heaviest items, all others weighing nothing, therefore end in different partitions.
*/
module SeparatedItems {
  import opened Arithmetic
  import opened Sequences
  import opened Wrappers
  import opened DifferencingSpec
  import opened BalancedPartitions

  /** The state has both items or neither, and no set has both. */
  ghost predicate KeptApart(s: KState, x: Item, y: Item) {
    AllItems(s.sets)[x] == AllItems(s.sets)[y] && forall p | p in s.sets :: !(x in p.items && y in p.items)
  }

  lemma CountInSet(s: KState, i: nat, x: Item)
    requires i < |s.sets|
    ensures x in s.sets[i].items ==> AllItems(s.sets)[x] >= 1
  {
    if x in s.sets[i].items { MemberOfAll(s.sets, i, x); }
  }

  lemma CrossedApart(a: KState, b: KState, x: Item, y: Item, i: nat)
    requires |a.sets| == |b.sets| && i < |a.sets| && KeptApart(a, x, y) && KeptApart(b, x, y)
    requires AllItems(a.sets)[x] + AllItems(b.sets)[x] <= 1
    ensures var p := Crossed(a.sets, b.sets)[i]; !(x in p.items && y in p.items)
  {
    hide AllItems;
    var j := |a.sets| - 1 - i;
    assert a.sets[i] in a.sets && b.sets[j] in b.sets;
    CountInSet(a, i, x);
    CountInSet(a, i, y);
    CountInSet(b, j, x);
    CountInSet(b, j, y);
    assert Crossed(a.sets, b.sets)[i].items == a.sets[i].items + b.sets[j].items;
  }

  lemma MergeItems(a: KState, b: KState)
    requires |a.sets| == |b.sets|
    ensures AllItems(MergeStates(a, b).sets) == AllItems(a.sets) + AllItems(b.sets)
  {
    CrossedItems(a.sets, b.sets);
    SortDescFacts(Crossed(a.sets, b.sets));
  }

  lemma MergeKeepsApart(a: KState, b: KState, x: Item, y: Item)
    requires |a.sets| == |b.sets| && KeptApart(a, x, y) && KeptApart(b, x, y)
    requires AllItems(a.sets)[x] + AllItems(b.sets)[x] <= 1
    ensures KeptApart(MergeStates(a, b), x, y)
  {
    hide AllItems, SortDesc;
    MergeItems(a, b);
    var c := Crossed(a.sets, b.sets);
    forall p | p in SortDesc(c) ensures !(x in p.items && y in p.items) {
      SortedMember(c, p);
      var i :| 0 <= i < |c| && c[i] == p;
      CrossedApart(a, b, x, y, i);
    }
  }

  /** Merging to one state never brings them together. */
  lemma {:induction false} CondenseKeepsApart(pq: seq<KState>, x: Item, y: Item)
    requires pq != [] && Comparable(pq) && (forall s | s in pq :: KeptApart(s, x, y)) && QueueItems(pq)[x] <= 1
    ensures KeptApart(Condense(pq), x, y)
    decreases |pq|
  {
    hide KeptApart, Step, AllItems, MergeStates, QueueItems;
    if |pq| == 1 {
      assert pq[0] in pq;
    } else {
      var a, b := StepParts(pq);
      MergeItems(a, b);
      assert (AllItems(a.sets) + AllItems(b.sets))[x] <= QueueItems(pq)[x];
      MergeKeepsApart(a, b, x, y);
      CondenseKeepsApart(Step(pq), x, y);
    }
  }

  // ----- the initial queue -------------------------------------------------------------------

  lemma FreshApart(items: seq<Item>, k: nat, x: Item, y: Item)
    requires |items| <= k && x != y && multiset(items)[x] == multiset(items)[y]
    ensures AllItems(MakeState(items, k).sets) == multiset(items) && KeptApart(MakeState(items, k), x, y)
  {
    hide AllItems, SortDesc;
    var s := Singles(items) + Empties(k - |items|);
    SinglesFacts(items, k - |items|);
    SortDescFacts(s);
    forall p | p in SortDesc(s) ensures !(x in p.items && y in p.items) {
      SortedMember(s, p);
    }
  }

  lemma {:induction false} ChopFree(items: seq<Item>, width: nat, k: nat, x: Item, y: Item)
    requires 0 < width <= k && x != y && x !in items && y !in items
    ensures forall s | s in Chop(items, width, k) :: KeptApart(s, x, y)
    decreases |items|
  {
    hide KeptApart, MakeState;
    if |items| >= width {
      var o := |items| - width;
      ChopLast(items, width, k);
      ChopFree(items[..o], width, k, x, y);
      FreshApart(items[o..], k, x, y);
      hide Chop;
    }
  }

  /** Two items of the last block. */
  lemma ChopApart(items: seq<Item>, width: nat, k: nat, x: Item, y: Item)
    requires 0 < width <= k && width <= |items| && x != y
    requires multiset(items)[x] == multiset(items)[y] == 1
    requires x in items[|items| - width..] && y in items[|items| - width..]
    ensures forall s | s in Chop(items, width, k) :: KeptApart(s, x, y)
  {
    hide KeptApart, MakeState;
    var o := |items| - width;
    var front, last := items[..o], items[o..];
    assert items == front + last;
    var f, l := multiset(front), multiset(last);
    assert multiset(items) == f + l;
    assert l[x] >= 1 && l[y] >= 1 && (f + l)[x] == f[x] + l[x] && (f + l)[y] == f[y] + l[y];
    assert x !in f && y !in f;
    ChopLast(items, width, k);
    ChopFree(front, width, k, x, y);
    FreshApart(last, k, x, y);
    hide Chop;
  }

  /** The two items of positive value are sorted into the last two places. */
  lemma InLastBlock(items: seq<Item>, k: nat, x: Item, y: Item)
    requires Ascending(items) && 2 <= k <= |items| && x != y && x.val > 0
    requires (forall z | z in items && z.val > 0 :: z == x || z == y) && x in items
    requires multiset(items)[x] == multiset(items)[y] == 1
    ensures x in items[|items| - k..]
  {
    var n := |items|;
    var i :| 0 <= i < n && items[i] == x;
    if i < n - k {
      assert items[n - 1] in items && items[n - 2] in items;
      TwiceCounts<Item>(items, i, n - 1);
      TwiceCounts<Item>(items, i, n - 2);
      TwiceCounts<Item>(items, n - 2, n - 1);
    } else {
      assert items[n - k..][i - (n - k)] == x;
    }
  }

  lemma {:induction false} EnumeratedOnce(seqlens: seq<nat>, g: nat)
    requires g < |seqlens|
    ensures multiset(Enumerate(seqlens))[Item(g, seqlens[g])] == 1
  {
    var e := Enumerate(seqlens);
    var x := Item(g, seqlens[g]);
    assert e == e[..g] + [x] + e[g + 1..];
    assert x !in e[..g] && x !in e[g + 1..];
  }

  /** Only these two weigh anything. */
  ghost predicate OnlyTwo(work: seq<nat>, g: nat, h: nat) {
    && g < |work| && h < |work| && g != h && work[g] > 0 && work[h] > 0
    && forall i | 0 <= i < |work| && i != g && i != h :: work[i] == 0
  }

  lemma TwoInLastBlock(work: seq<nat>, k: nat, g: nat, h: nat)
    requires 2 <= k <= |work| && OnlyTwo(work, g, h)
    ensures var items := SortAsc(Enumerate(work)); var x, y := Item(g, work[g]), Item(h, work[h]);
      && |items| == |work| && multiset(items)[x] == multiset(items)[y] == 1
      && x in items[|items| - k..] && y in items[|items| - k..]
  {
    var items := SortAsc(Enumerate(work));
    var x, y := Item(g, work[g]), Item(h, work[h]);
    SortAscFacts(Enumerate(work));
    EnumeratedOnce(work, g);
    EnumeratedOnce(work, h);
    forall z | z in items && z.val > 0 ensures z == x || z == y {
      assert z in multiset(items);
      assert z in Enumerate(work);
    }
    assert x in multiset(items) && y in multiset(items);
    InLastBlock(items, k, x, y);
    InLastBlock(items, k, y, x);
  }

  lemma QueueKeptApart(work: seq<nat>, k: nat, g: nat, h: nat)
    requires 2 <= k <= |work| && Feasible(|work|, k, true) && OnlyTwo(work, g, h)
    ensures var pq, x, y := Queue(work, k, true), Item(g, work[g]), Item(h, work[h]);
      && pq != [] && Comparable(pq) && QueueItems(pq)[x] <= 1 && forall s | s in pq :: KeptApart(s, x, y)
  {
    hide KeptApart, SortAsc, Chop, QueueItems, Comparable, Within, Enumerate;
    var items := SortAsc(Enumerate(work));
    TwoInLastBlock(work, k, g, h);
    ChopApart(items, k, k, Item(g, work[g]), Item(h, work[h]));
    QueueReady(work, k, true);
    MaxBounds(work, k, true);
    SortAscFacts(Enumerate(work));
    ChopItems(items, k, k, MaxOf(work));
  }

  lemma SortedApart(parts: seq<seq<nat>>, g: nat, h: nat)
    requires forall p | p in parts :: !(g in p && h in p)
    ensures forall p | p in SortEach(parts) :: !(g in p && h in p)
  {
    hide SortNats;
    forall p | p in SortEach(parts) ensures !(g in p && h in p) {
      var i :| 0 <= i < |parts| && SortEach(parts)[i] == p;
      SortNatsFacts(parts[i]);
      SameMembers<nat>(SortNats(parts[i]), parts[i]);
      assert parts[i] in parts;
    }
  }

  /** With equal sizes over at least two partitions, the only two items that weigh anything are separated. */
  lemma HeaviestTwoApart(work: seq<nat>, k: nat, g: nat, h: nat)
    requires 2 <= k <= |work| && Feasible(|work|, k, true) && OnlyTwo(work, g, h)
    ensures var r := Balanced(work, k, true);
      r.Success? && forall p | p in r.value :: !(g in p && h in p)
  {
    hide KeptApart, Condense, Queue, SortEach, Partitions, AllItems, Comparable, QueueItems, Bounds, Good, Concat;
    QueueKeptApart(work, k, g, h);
    var pq := Queue(work, k, true);
    CondenseKeepsApart(pq, Item(g, work[g]), Item(h, work[h]));
    MaxBounds(work, k, true);
    FinalState(work, k, true, MaxOf(work));
    BalancedIff(work, k, true);
    FinalApart(Condense(pq), work, g, h);
    SortedApart(Partitions(Condense(pq)), g, h);
  }

  lemma FinalApart(s: KState, work: seq<nat>, g: nat, h: nat)
    requires AllItems(s.sets) == multiset(Enumerate(work)) && g < |work| && h < |work|
    requires KeptApart(s, Item(g, work[g]), Item(h, work[h]))
    ensures forall p | p in Partitions(s) :: !(g in p && h in p)
  {
    forall p | p in Partitions(s) ensures !(g in p && h in p) {
      var i :| 0 <= i < |s.sets| && Partitions(s)[i] == p;
      IndexMeansItem(s, work, i, g);
      IndexMeansItem(s, work, i, h);
      assert s.sets[i] in s.sets;
    }
  }

  lemma IndexMeansItem(s: KState, work: seq<nat>, i: nat, g: nat)
    requires AllItems(s.sets) == multiset(Enumerate(work)) && g < |work| && i < |s.sets|
    ensures g in Partitions(s)[i] ==> Item(g, work[g]) in s.sets[i].items
  {
    if g in Partitions(s)[i] {
      var t :| 0 <= t < |s.sets[i].items| && s.sets[i].items[t].idx == g;
      MemberOfAll(s.sets, i, s.sets[i].items[t]);
      assert s.sets[i].items[t] in Enumerate(work);
    }
  }
}
