/**
  karmarkar_karp and get_seqlen_balanced_partitions of verl/utils/seqlen_balancing.py, on mutable
  Set and State objects as in the original, proved against the values of DifferencingSpec.
*/
module KarmarkarKarp {
  import opened Sequences
  import opened Wrappers
  import opened DifferencingSpec
  import opened BalancedPartitions
  import opened Arithmetic

  class PartSet {
    var sum: int
    var items: seq<Item>

    function Value(): Part
      reads this
    {
      Part(sum, items)
    }

    constructor ()
      ensures Value() == EMPTY_PART
    {
      sum, items := 0, [];
    }

    method Add(idx: nat, val: nat)
      modifies this
      ensures Value() == Part(old(sum) + val, old(items) + [Item(idx, val)])
    {
      items := items + [Item(idx, val)];
      sum := sum + val;
    }

    method Merge(other: PartSet)
      requires other != this
      modifies this
      ensures Value() == MergeParts(old(Value()), other.Value())
    {
      for n := 0 to |other.items|
        invariant other.Value() == old(other.Value())
        invariant Value() == MergeParts(old(Value()), Part(0, other.items[..n]))
      {
        assert other.items[..n + 1][..n] == other.items[..n];
        items := items + [other.items[n]];
        sum := sum + other.items[n].val;
      }
      assert other.items[..|other.items|] == other.items;
    }
  }

  function Values(sets: seq<PartSet>): seq<Part>
    reads sets
  {
    seq(|sets|, i requires 0 <= i < |sets| reads sets => sets[i].Value())
  }

  /** `sorted(sets, reverse=True)`, an insertion into the sorted rest. */
  method SortSets(sets: seq<PartSet>) returns (r: seq<PartSet>)
    ensures multiset(r) == multiset(sets) && Values(r) == SortDesc(Values(sets))
  {
    r := [];
    var n: nat := |sets|;
    while n > 0
      invariant n <= |sets|
      invariant multiset(r) == multiset(sets[n..]) && Values(r) == SortDesc(Values(sets[n..]))
    {
      n := n - 1;
      assert sets[n..] == [sets[n]] + sets[n + 1..];
      assert Values(sets[n..])[1..] == Values(sets[n + 1..]) && Values(sets[n..])[0] == sets[n].Value();
      r := InsertSet(sets[n], r);
    }
    assert sets[0..] == sets;
  }

  method InsertSet(x: PartSet, s: seq<PartSet>) returns (r: seq<PartSet>)
    ensures multiset(r) == multiset{x} + multiset(s) && Values(r) == InsertDesc(x.Value(), Values(s))
    decreases |s|
  {
    if s == [] || !PartLess(x.Value(), s[0].Value()) {
      r := [x] + s;
      assert Values(r) == [x.Value()] + Values(s);
    } else {
      var t := InsertSet(x, s[1..]);
      r := [s[0]] + t;
      assert s == [s[0]] + s[1..];
      assert Values(s)[1..] == Values(s[1..]);
      assert Values(r) == [s[0].Value()] + Values(t);
    }
  }

  class PartState {
    var sets: seq<PartSet>

    ghost predicate Valid()
      reads this
    {
      Distinct(sets)
    }

    function Value(): KState
      reads this, sets
    {
      KState(Values(sets))
    }

    constructor (items: seq<Item>, k: nat)
      requires |items| <= k
      ensures Valid() && Value() == MakeState(items, k) && |sets| == k && fresh(set s | s in sets)
    {
      new;
      var made: seq<PartSet> := [];
      for i := 0 to k
        invariant |made| == i && Distinct(made) && fresh(set s | s in made)
        invariant forall j | 0 <= j < i :: made[j].Value() == FreshValue(items, j)
      {
        var s := new PartSet();
        if i < |items| {
          s.Add(items[i].idx, items[i].val);
        }
        made := made + [s];
      }
      assert Values(made) == Singles(items) + Empties(k - |items|);
      sets := SortSets(made);
      SameElements(sets, made);
    }

    /** The loop of `merge`: set i takes in the other state's set k - 1 - i. */
    method CrossWith(theirs: seq<PartSet>)
      requires Valid() && |theirs| == |sets| && forall a, b | a in sets && b in theirs :: a != b
      modifies sets
      ensures Values(sets) == Crossed(old(Values(sets)), old(Values(theirs)))
    {
      ghost var mine := Values(sets);
      var k := |sets|;
      for i := 0 to k
        invariant forall j | 0 <= j < k :: theirs[j].Value() == old(theirs[j].Value())
        invariant forall j | 0 <= j < i :: sets[j].Value() == MergeParts(mine[j], old(theirs[k - 1 - j].Value()))
        invariant forall j | i <= j < k :: sets[j].Value() == mine[j]
      {
        assert sets[i] in sets;
        forall j | 0 <= j < k ensures sets[i] != theirs[j] {
          assert theirs[j] in theirs;
        }
        sets[i].Merge(theirs[k - 1 - i]);
      }
    }

    method Merge(other: PartState)
      requires Valid() && other.Valid() && other != this && |sets| == |other.sets|
      requires forall a, b | a in sets && b in other.sets :: a != b
      modifies this, sets
      ensures Valid() && Value() == MergeStates(old(Value()), old(other.Value()))
      ensures multiset(sets) == multiset(old(sets))
    {
      CrossWith(other.sets);
      var sorted := SortSets(sets);
      SameElements(sorted, sets);
      sets := sorted;
    }

    method GetPartitions() returns (partitions: seq<seq<nat>>)
      ensures partitions == Partitions(Value())
      ensures Value() == old(Value())
    {
      partitions := [];
      for i := 0 to |sets|
        invariant partitions == Partitions(Value())[..i]
      {
        var part: seq<nat> := [];
        for j := 0 to |sets[i].items|
          invariant part == Idxs(sets[i].items)[..j]
        {
          part := part + [sets[i].items[j].idx];
        }
        assert part == Idxs(sets[i].items) == Partitions(Value())[i];
        partitions := partitions + [part];
      }
    }
  }

  /** What set j of a new state holds before sorting. */
  function FreshValue(items: seq<Item>, j: nat): Part {
    if j < |items| then Part(items[j].val, [items[j]]) else EMPTY_PART
  }

  lemma SameElements<T>(a: seq<T>, b: seq<T>)
    requires multiset(a) == multiset(b) && Distinct(b)
    ensures |a| == |b| && Distinct(a) && forall x :: x in a <==> x in b
  {
    SameMembers(a, b);
    OnceEach(b);
    forall i, j | 0 <= i < j < |a| ensures a[i] != a[j] {
      TwiceCounts(a, i, j);
    }
  }

  lemma {:induction false} OnceEach<T>(s: seq<T>)
    requires Distinct(s)
    ensures forall x :: multiset(s)[x] <= 1
  {
    if s != [] {
      assert s == [s[0]] + s[1..];
      OnceEach(s[1..]);
      assert s[0] !in s[1..];
    }
  }

  // ----- the queue of states -----------------------------------------------------------------

  ghost function Footprint(pq: seq<PartState>): set<object>
    reads pq
  {
    set s, p | s in pq && p in s.sets :: p
  }

  /** No set belongs to both states. */
  ghost predicate Apart(s: PartState, t: PartState)
    reads s, t
  {
    forall a, b | a in s.sets && b in t.sets :: a != b
  }

  /** Distinct states that share no set. */
  ghost predicate Separate(pq: seq<PartState>)
    reads pq
  {
    && Distinct(pq) && (forall s | s in pq :: s.Valid())
    && forall s, t | s in pq && t in pq && s != t :: Apart(s, t)
  }

  /** The values of the queued states. */
  function Models(pq: seq<PartState>): (r: seq<KState>)
    reads pq, Footprint(pq)
    ensures |r| == |pq|
  {
    seq(|pq|, i requires 0 <= i < |pq| reads pq, Footprint(pq) =>
      assert forall p | p in pq[i].sets :: pq[i] in pq && p in Footprint(pq);
      pq[i].Value())
  }

  lemma SeparateWithout(pq: seq<PartState>, i: nat)
    requires i < |pq| && Separate(pq)
    ensures Separate(Without(pq, i)) && pq[i] !in Without(pq, i) && pq[i].Valid()
    ensures forall s | s in Without(pq, i) :: s in pq && Apart(pq[i], s)
  {
    var rest := Without(pq, i);
    forall s | s in rest ensures s in pq && s != pq[i] && Apart(pq[i], s) {
      var j :| 0 <= j < |rest| && rest[j] == s;
      assert s == pq[if j < i then j else j + 1];
    }
    forall a, b | 0 <= a < b < |rest| ensures rest[a] != rest[b] {
      assert rest[a] == pq[if a < i then a else a + 1] && rest[b] == pq[if b < i then b else b + 1];
    }
    hide Apart;
  }

  /** Two popped states and the rest of the queue share nothing. */
  ghost predicate Popped(state0: PartState, state1: PartState, others: seq<PartState>)
    reads state0, state1, others
  {
    && Separate(others) && state0.Valid() && state1.Valid() && |state0.sets| == |state1.sets|
    && state0 != state1 && Apart(state0, state1)
    && state0 !in others && forall s | s in others :: Apart(state0, s)
  }

  lemma ModelsWithout(pq: seq<PartState>, i: nat)
    requires i < |pq|
    ensures Models(Without(pq, i)) == Without(Models(pq), i) && pq[i].Value() == Models(pq)[i]
  {
  }

  lemma PoppedTwo(pq: seq<PartState>, i: nat, j: nat)
    requires i < |pq| && j < |pq| - 1 && Separate(pq)
    requires |Models(pq)[i].sets| == |Without(Models(pq), i)[j].sets|
    ensures var rest := Without(pq, i);
      && |rest| == |pq| - 1 && Popped(pq[i], rest[j], Without(rest, j))
      && pq[i] in pq && rest[j] in pq && forall s | s in Without(rest, j) :: s in pq
    ensures Models(Without(Without(pq, i), j)) == Without(Without(Models(pq), i), j)
    ensures pq[i].Value() == Models(pq)[i] && Without(pq, i)[j].Value() == Without(Models(pq), i)[j]
  {
    var rest := Without(pq, i);
    ModelsWithout(pq, i);
    ModelsWithout(rest, j);
    SeparateWithout(pq, i);
    SeparateWithout(rest, j);
    assert rest[j] in rest;
    hide Separate, Models, Without, Apart;
  }

  /** `state0.merge(state1)` changes neither the other states nor what they are made of. */
  method MergeApart(state0: PartState, state1: PartState, ghost others: seq<PartState>)
    requires Popped(state0, state1, others)
    modifies state0, state0.sets
    ensures |old(state0.Value()).sets| == |old(state1.Value()).sets|
    ensures state0.Value() == MergeStates(old(state0.Value()), old(state1.Value()))
    ensures forall p :: p in state0.sets <==> p in old(state0.sets)
    ensures Separate(others + [state0]) && Models(others) == old(Models(others))
    ensures forall s | s in others :: s.sets == old(s.sets)
  {
    state0.Merge(state1);
    SameElements(state0.sets, old(state0.sets));
    forall s | s in others ensures s.sets == old(s.sets) && Apart(state0, s) && Apart(s, state0) {
      assert old(Apart(state0, s));
    }
    forall k | 0 <= k < |others| ensures others[k].Value() == old(others[k].Value()) {
      var s := others[k];
      assert s in others && old(Apart(state0, s));
      forall n | 0 <= n < |s.sets| ensures s.sets[n].Value() == old(s.sets[n].Value()) {
        var p := s.sets[n];
        assert p in old(s.sets) && p !in old(state0.sets);
      }
    }
  }

  /** Two pops, a merge and a push. */
  method MergeLeastTwo(pq: seq<PartState>) returns (next: seq<PartState>)
    requires |pq| > 1 && Separate(pq) && Comparable(Models(pq))
    modifies pq, Footprint(pq)
    ensures Separate(next) && Models(next) == Step(old(Models(pq)))
    ensures forall s | s in next :: s in pq && forall p | p in s.sets :: p in old(Footprint(pq))
  {
    InFootprint(pq);
    ghost var foot := Footprint(pq);
    hide Separate, Models, Comparable, Step, MergeStates, Apart, LeastOf, Footprint, Popped;
    var models := Models(pq);
    var i := LeastOf(models, |pq|);
    StillComparable(models, i, Without(models, i), 0);
    var j := LeastOf(Without(models, i), |pq| - 1);
    StepIs(models, i, j);
    var state0, rest := pq[i], Without(pq, i);
    var state1, others := rest[j], Without(rest, j);
    PoppedTwo(pq, i, j);
    assert forall p | p in state0.sets :: p in foot;
    MergeApart(state0, state1, others);
    next := others + [state0];
    ModelsPush(others, state0);
  }

  lemma ModelsPush(pq: seq<PartState>, s: PartState)
    ensures Models(pq + [s]) == Models(pq) + [s.Value()]
  {
  }

  lemma InFootprint(pq: seq<PartState>)
    ensures forall s, p | s in pq && p in s.sets :: p in Footprint(pq)
  {
  }

  lemma StepIs(models: seq<KState>, i: nat, j: nat)
    requires |models| > 1 && Comparable(models) && i == LeastOf(models, |models|)
    requires Comparable(Without(models, i)) && j == LeastOf(Without(models, i), |models| - 1)
    ensures |models[i].sets| == |Without(models, i)[j].sets|
    ensures Step(models) == Without(Without(models, i), j) + [MergeStates(models[i], Without(models, i)[j])]
  {
    hide LeastOf, MergeStates, Comparable;
    StillComparable(models, i, Without(models, i), j);
  }

  /** The queue is made of objects in `mine`. */
  ghost predicate Owned(pq: seq<PartState>, mine: set<object>)
    reads pq
  {
    forall s | s in pq :: s in mine && forall p | p in s.sets :: p in mine
  }

  lemma OwnedFootprint(pq: seq<PartState>, mine: set<object>)
    requires Owned(pq, mine)
    ensures (set s | s in pq) <= mine && Footprint(pq) <= mine
  {
  }

  lemma SeparatePush(pq: seq<PartState>, s: PartState)
    requires Separate(pq) && s.Valid() && s !in pq && forall t | t in pq :: Apart(t, s) && Apart(s, t)
    ensures Separate(pq + [s])
  {
    hide Apart;
  }

  lemma OwnedPush(pq: seq<PartState>, mine: set<object>, s: PartState)
    requires Owned(pq, mine)
    ensures Owned(pq + [s], mine + {s} + set p | p in s.sets)
  {
  }

  /** `heapq.heappush(states_pq, State(items, k))` */
  method PushState(pq: seq<PartState>, items: seq<Item>, k: nat, ghost mine: set<object>)
    returns (next: seq<PartState>, ghost ours: set<object>)
    requires |items| <= k && Separate(pq) && Owned(pq, mine)
    ensures Separate(next) && Models(next) == old(Models(pq)) + [MakeState(items, k)]
    ensures Owned(next, ours) && mine <= ours && fresh(ours - mine)
  {
    var state := new PartState(items, k);
    forall t | t in pq ensures t.sets == old(t.sets) && Apart(t, state) && Apart(state, t) {
      forall p | p in t.sets ensures p !in state.sets {
        assert old(allocated(t)) && p in old(t.sets);
      }
    }
    SeparatePush(pq, state);
    ModelsPush(pq, state);
    OwnedPush(pq, mine, state);
    next, ours := pq + [state], mine + {state} + set p | p in state.sets;
    hide *;
  }

  /** One state per `width` items, pushed in order. */
  method PushStates(sorted: seq<Item>, width: nat, k: nat) returns (pq: seq<PartState>, ghost mine: set<object>)
    requires 0 < width <= k && Multiple(|sorted|, width)
    ensures Separate(pq) && Models(pq) == Chop(sorted, width, k)
    ensures Owned(pq, mine) && fresh(mine)
  {
    pq, mine := [], {};
    var offset := 0;
    while offset < |sorted|
      invariant offset <= |sorted| && Multiple(|sorted| - offset, width)
      invariant Separate(pq) && Models(pq) == Chop(sorted[..offset], width, k)
      invariant Owned(pq, mine) && fresh(mine)
    {
      hide Separate, Models, MakeState, Chop, Multiple, Owned;
      if |sorted| - offset < width { Short(|sorted| - offset, width); }
      BlocksAlign(|sorted| - offset, width);
      ChopNext(sorted, offset, width, k);
      pq, mine := PushState(pq, sorted[offset..offset + width], k, mine);
      offset := offset + width;
    }
    assert sorted[..offset] == sorted;
  }

  lemma ChopNext(sorted: seq<Item>, offset: nat, width: nat, k: nat)
    requires 0 < width <= k && offset + width <= |sorted|
    ensures Chop(sorted[..offset + width], width, k) ==
      Chop(sorted[..offset], width, k) + [MakeState(sorted[offset..offset + width], k)]
  {
    hide MakeState, Chop;
    var done := sorted[..offset + width];
    assert done[..offset] == sorted[..offset] && done[offset..] == sorted[offset..offset + width];
    ChopLast(done, width, k);
  }

  lemma ConsumeStep(pq: seq<KState>)
    requires |pq| > 1 && Comparable(pq)
    ensures |Step(pq)| == |pq| - 1 && Comparable(Step(pq)) && Condense(pq) == Condense(Step(pq))
  {
    hide Step;
  }

  /** The loop of karmarkar_karp. */
  method MergeAll(states: seq<PartState>, ghost mine: set<object>) returns (final: PartState)
    requires states != [] && Separate(states) && Comparable(Models(states)) && Owned(states, mine)
    modifies mine
    ensures final.Value() == Condense(old(Models(states)))
  {
    var pq := states;
    ghost var goal := Condense(Models(pq));
    while |pq| > 1
      invariant pq != [] && Separate(pq) && Owned(pq, mine)
      invariant Comparable(Models(pq)) && Condense(Models(pq)) == goal
      decreases |pq|
    {
      hide Separate, Models, Comparable, Condense, Step, Footprint;
      OwnedFootprint(pq, mine);
      ConsumeStep(Models(pq));
      pq := MergeLeastTwo(pq);
    }
    final := pq[0];
    assert Models(pq)[0] == final.Value();
  }

  lemma QueueEmpty(seqlens: seq<nat>, k: nat, equal: bool)
    requires k > 0 && (equal ==> Multiple(|seqlens|, k))
    ensures Queue(seqlens, k, equal) == [] <==> seqlens == []
    ensures seqlens != [] ==> Comparable(Queue(seqlens, k, equal))
  {
    if seqlens != [] { QueueReady(seqlens, k, equal); }
  }

  method KarmarkarKarp(seqlens: seq<nat>, k: nat, equal: bool) returns (r: Result<seq<seq<nat>>, Error>)
    ensures r == Differenced(seqlens, k, equal)
  {
    hide Chop, Condense, Comparable, Separate, Models, Owned, Covers, Bounds, SortAsc, Enumerate;
    var sorted := SortAsc(Enumerate(seqlens));
    SortAscFacts(Enumerate(seqlens));
    var states: seq<PartState>;
    ghost var mine: set<object>;
    if equal {
      if k == 0 { return Failure(ZeroDivisionError); }
      if !Multiple(|seqlens|, k) { return Failure(AssertionError); }
      states, mine := PushStates(sorted, k, k);
    } else {
      if k == 0 { return Failure(IndexError); }
      states, mine := PushStates(sorted, 1, k);
    }
    QueueEmpty(seqlens, k, equal);
    if states == [] { return Failure(IndexError); }
    DifferencingBalances(seqlens, k, equal);
    var final := MergeAll(states, mine);
    var partitions := final.GetPartitions();
    assert equal ==> forall p | p in partitions :: |p| * k == |seqlens|;
    return Success(partitions);
  }

  method CheckAndSort(partitions: seq<seq<nat>>, k: nat, n: nat) returns (r: Result<seq<seq<nat>>, Error>)
    ensures r == CheckedAndSorted(partitions, k, n)
  {
    if |partitions| != k { return Failure(AssertionError); }
    var seen: set<nat>, sorted: seq<seq<nat>> := {}, [];
    for i := 0 to |partitions|
      invariant forall j | 0 <= j < i :: partitions[j] != []
      invariant seen == set x | x in Concat(partitions[..i])
      invariant sorted == SortEach(partitions[..i])
    {
      assert partitions[i] in partitions;
      if partitions[i] == [] { return Failure(AssertionError); }
      ghost var before := seen;
      for j := 0 to |partitions[i]|
        invariant seen == before + set x | x in partitions[i][..j]
      {
        seen := seen + {partitions[i][j]};
      }
      assert partitions[i][..|partitions[i]|] == partitions[i];
      ConcatNext(partitions, i);
      hide Concat;
      sorted := sorted + [SortNats(partitions[i])];
      assert sorted == SortEach(partitions[..i + 1]);
    }
    assert partitions[..|partitions|] == partitions;
    if seen != (set x | x in Indices(n)) { return Failure(AssertionError); }
    return Success(sorted);
  }

  method GetSeqlenBalancedPartitions(seqlens: seq<nat>, k: nat, equal: bool) returns (r: Result<seq<seq<nat>>, Error>)
    ensures r == Balanced(seqlens, k, equal)
  {
    if |seqlens| < k { return Failure(AssertionError); }
    var partitions := KarmarkarKarp(seqlens, k, equal);
    if partitions.Failure? { return partitions; }
    r := CheckAndSort(partitions.value, k, |seqlens|);
  }
}
