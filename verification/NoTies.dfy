/**
  The priority queue of the largest differencing method of verl/utils/seqlen_balancing.py never holds
  two states that compare equal, so the state `heappop` takes does not depend on how heapq arranges
  the others.
*/
module NoTies {
  import opened Arithmetic
  import opened DifferencingSpec
  import opened BalancedPartitions

  /** Every state has an item in its first set, and no item is in two states. */
  ghost predicate NoShared(pq: seq<KState>) {
    && (forall s | s in pq :: s.sets != [] && s.sets[0].items != [])
    && forall x: Item :: QueueItems(pq)[x] <= 1
  }

  lemma FirstItem(s: KState)
    requires s.sets != [] && s.sets[0].items != []
    ensures AllItems(s.sets)[s.sets[0].items[0]] >= 1
  {
    assert s.sets[0].items[0] in multiset(s.sets[0].items);
  }

  /** Two states of the queue differ in the first item of their first set. */
  lemma FirstSetsDiffer(pq: seq<KState>, i: nat, j: nat)
    requires NoShared(pq) && i < |pq| && j < |pq| && i != j
    ensures pq[i].sets != [] && pq[j].sets != [] && pq[i].sets[0].items != [] && pq[j].sets[0].items != []
    ensures pq[i].sets[0].items[0] != pq[j].sets[0].items[0]
  {
    hide AllItems, QueueItems;
    var l := if j < i then j else j - 1;
    var rest := Without(pq, i);
    assert rest[l] == pq[j];
    QueueItemsWithout(pq, i);
    QueueItemsWithout(rest, l);
    assert pq[i] in pq && pq[j] in pq;
    FirstItem(pq[i]);
    FirstItem(pq[j]);
    var x := pq[i].sets[0].items[0];
    var p, q, r := AllItems(pq[i].sets), AllItems(pq[j].sets), QueueItems(Without(rest, l));
    assert QueueItems(pq) == r + q + p;
    assert (r + q + p)[x] == r[x] + q[x] + p[x];
    assert QueueItems(pq)[x] <= 1;
  }

  /** So one of any two precedes the other. */
  lemma StrictlyOrdered(pq: seq<KState>, i: nat, j: nat)
    requires NoShared(pq) && i < |pq| && j < |pq| && i != j
    ensures StateLess(pq[i], pq[j]) != StateLess(pq[j], pq[i])
  {
    hide StateLess, NoShared;
    FirstSetsDiffer(pq, i, j);
    StateOrder(pq[i], pq[j], pq[j]);
  }

  /** And the state `heappop` takes precedes all others, however the heap arranges them. */
  lemma LeastIsUnique(pq: seq<KState>, j: nat)
    requires NoShared(pq) && Comparable(pq) && j < |pq| && j != LeastOf(pq, |pq|)
    ensures StateLess(pq[LeastOf(pq, |pq|)], pq[j])
  {
    hide StateLess, NoShared, LeastOf;
    LeastIsLeast(pq, |pq|, j);
    StrictlyOrdered(pq, LeastOf(pq, |pq|), j);
  }

  // ----- at every step -----------------------------------------------------------------------

  /** A state with an item has one in its first set. */
  lemma FirstNotEmpty(s: KState, k: nat)
    requires StateInv(s, k) && |AllItems(s.sets)| > 0
    ensures s.sets != [] && s.sets[0].items != []
  {
    hide AllItems, NonEmptyCount;
    NonEmptyFirst(s.sets, 0);
  }

  lemma MergedNotEmpty(a: KState, b: KState, k: nat)
    requires StateInv(a, k) && StateInv(b, k) && a.sets != [] && a.sets[0].items != []
    ensures |a.sets| == |b.sets| && StateInv(MergeStates(a, b), k)
    ensures AllItems(MergeStates(a, b).sets) == AllItems(a.sets) + AllItems(b.sets)
    ensures MergeStates(a, b).sets != [] && MergeStates(a, b).sets[0].items != []
  {
    MergeKeeps(a, b, k);
    FirstItem(a);
    hide StateInv, AllItems, MergeStates;
    var x, m := a.sets[0].items[0], AllItems(MergeStates(a, b).sets);
    assert x in AllItems(a.sets) && x in m;
    FirstNotEmpty(MergeStates(a, b), k);
  }

  ghost predicate AllInv(pq: seq<KState>, k: nat) {
    forall s | s in pq :: StateInv(s, k)
  }

  lemma StepHasNoTies(pq: seq<KState>, k: nat)
    requires |pq| > 1 && Comparable(pq) && NoShared(pq) && AllInv(pq, k)
    ensures NoShared(Step(pq)) && AllInv(Step(pq), k)
  {
    hide StateInv, AllItems, Step, MergeStates, QueueItems;
    var a, b := StepParts(pq);
    MergedNotEmpty(a, b, k);
  }

  /** The queue after n merges. */
  function Steps(pq: seq<KState>, n: nat): (r: seq<KState>)
    requires Comparable(pq) && n < |pq|
    ensures Comparable(r) && |r| == |pq| - n
    decreases n
  {
    if n == 0 then pq else Steps(Step(pq), n - 1)
  }

  lemma {:induction false} StepsHaveNoTies(pq: seq<KState>, k: nat, n: nat)
    requires Comparable(pq) && n < |pq| && NoShared(pq) && AllInv(pq, k)
    ensures NoShared(Steps(pq, n))
    decreases n
  {
    hide NoShared, AllInv, Step, Comparable;
    if n > 0 {
      StepHasNoTies(pq, k);
      StepsHaveNoTies(Step(pq), k, n - 1);
    }
  }

  lemma EnumeratedAtMostOnce(seqlens: seq<nat>)
    ensures forall x: Item :: multiset(Enumerate(seqlens))[x] <= 1
  {
    var e := Enumerate(seqlens);
    forall x: Item ensures multiset(e)[x] <= 1 {
      if x in e {
        var g: nat :| g < |e| && e[g] == x;
        assert e == e[..g] + [x] + e[g + 1..];
        assert x !in e[..g] && x !in e[g + 1..];
      }
    }
  }

  lemma {:induction false} ChopNotEmpty(items: seq<Item>, width: nat, k: nat)
    requires 0 < width <= k
    ensures forall s | s in Chop(items, width, k) :: |AllItems(s.sets)| > 0
    decreases |items|
  {
    hide MakeState, AllItems;
    if |items| >= width {
      var o := |items| - width;
      ChopNotEmpty(items[..o], width, k);
      ChopLast(items, width, k);
      MadeItems(items[o..], k);
      hide Chop;
    }
  }

  lemma MadeItems(items: seq<Item>, k: nat)
    requires |items| <= k
    ensures AllItems(MakeState(items, k).sets) == multiset(items)
  {
    SinglesFacts(items, k - |items|);
    SortDescFacts(Singles(items) + Empties(k - |items|));
  }

  /** At every point of the merging loop one of any two queued states precedes the other, so both pops of a merge take a
      state that precedes all that remain. */
  lemma QueueNeverTies(seqlens: seq<nat>, k: nat, equal: bool, n: nat, i: nat, j: nat)
    requires Feasible(|seqlens|, k, equal) && n < |Queue(seqlens, k, equal)|
    ensures Comparable(Queue(seqlens, k, equal))
    ensures var q := Steps(Queue(seqlens, k, equal), n);
      i < |q| && j < |q| && i != j ==> StateLess(q[i], q[j]) != StateLess(q[j], q[i])
  {
    hide Queue, NoShared, AllInv, StateLess, Steps;
    var pq := Queue(seqlens, k, equal);
    QueueReady(seqlens, k, equal);
    QueueHasNoTies(seqlens, k, equal);
    StepsHaveNoTies(pq, k, n);
    var q := Steps(pq, n);
    if i < |q| && j < |q| && i != j { StrictlyOrdered(q, i, j); }
  }

  lemma QueueHasNoTies(seqlens: seq<nat>, k: nat, equal: bool)
    requires Feasible(|seqlens|, k, equal)
    ensures NoShared(Queue(seqlens, k, equal)) && AllInv(Queue(seqlens, k, equal), k)
  {
    hide StateInv, Chop, QueueItems, AllItems, Within;
    var items, w, b := SortAsc(Enumerate(seqlens)), Width(k, equal), MaxOf(seqlens);
    SortAscFacts(Enumerate(seqlens));
    EnumeratedAtMostOnce(seqlens);
    MaxBounds(seqlens, k, equal);
    ChopItems(items, w, k, b);
    ChopStates(items, w, k, b);
    ChopNotEmpty(items, w, k);
    forall s | s in Chop(items, w, k) ensures StateInv(s, k) && s.sets != [] && s.sets[0].items != [] {
      FirstNotEmpty(s, k);
    }
  }
}
