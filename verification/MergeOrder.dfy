/**
  Which states karmarkar_karp of verl/utils/seqlen_balancing.py merges: at every point of the loop the one with the
  largest difference between its first and its last set, and the one with the largest difference among the others.
*/
module MergeOrder {
  import opened DifferencingSpec
  import opened BalancedPartitions
  import opened NoTies

  /** `a` differs at least as much as `b`, and among equal differences its first set is at least as large. */
  predicate AsWide(a: KState, b: KState)
    requires a.sets != [] && b.sets != []
  {
    Spread(a) > Spread(b) || (Spread(a) == Spread(b) && a.sets[0].sum >= b.sets[0].sum)
  }

  lemma NotBeforeIsAsWide(a: KState, b: KState)
    requires a.sets != [] && b.sets != [] && !StateLess(b, a)
    ensures AsWide(a, b)
  {
  }

  /** The states at i and j are taken out, and their merge is added. */
  ghost predicate Replaces(pq: seq<KState>, i: nat, j: nat, next: seq<KState>)
    requires i < |pq| && j < |pq|
  {
    && |pq[i].sets| == |pq[j].sets|
    && multiset(next) + multiset{pq[i], pq[j]} == multiset(pq) + multiset{MergeStates(pq[i], pq[j])}
  }

  lemma WithoutCounts<T>(s: seq<T>, i: nat)
    requires i < |s|
    ensures |Without(s, i)| == |s| - 1 && multiset(s) == multiset(Without(s, i)) + multiset{s[i]}
  {
    assert s == s[..i] + [s[i]] + s[i + 1..];
  }

  /** A place of the queue without place i, as a place of the queue. */
  function Back(i: nat, r: nat): nat {
    if r < i then r else r + 1
  }

  lemma WithoutAt<T>(s: seq<T>, i: nat, l: nat)
    requires i < |s| && l < |s| && l != i
    ensures var m := if l < i then l else l - 1; m < |Without(s, i)| && Without(s, i)[m] == s[l] && Back(i, m) == l
  {
  }

  lemma SecondLeast(pq: seq<KState>, i: nat, r: nat, l: nat)
    requires i < |pq| && l < |pq| && l != i && Comparable(Without(pq, i)) && |pq| > 1
    requires r == LeastOf(Without(pq, i), |Without(pq, i)|)
    ensures Back(i, r) < |pq| && Back(i, r) != i && Without(pq, i)[r] == pq[Back(i, r)]
    ensures pq[l].sets != [] && pq[Back(i, r)].sets != [] && !StateLess(pq[l], pq[Back(i, r)])
  {
    var rest := Without(pq, i);
    WithoutAt(pq, i, l);
    WithoutAt(pq, i, Back(i, r));
    LeastIsLeast(rest, |rest|, if l < i then l else l - 1);
    hide StateLess, LeastOf;
  }

  lemma StepShape(pq: seq<KState>, i: nat, r: nat)
    requires |pq| > 1 && Comparable(pq) && i == LeastOf(pq, |pq|)
    requires Comparable(Without(pq, i)) && r == LeastOf(Without(pq, i), |pq| - 1)
    ensures |pq[i].sets| == |Without(pq, i)[r].sets|
    ensures Step(pq) == Without(Without(pq, i), r) + [MergeStates(pq[i], Without(pq, i)[r])]
  {
    hide StateLess, MergeStates, LeastOf;
    StillComparable(pq, i, Without(pq, i), r);
  }

  lemma ReplacedCounts(pq: seq<KState>, i: nat, r: nat, merged: KState)
    requires i < |pq| && r < |pq| - 1
    ensures var rest := Without(pq, i);
      multiset(Without(rest, r) + [merged]) + multiset{pq[i], rest[r]} == multiset(pq) + multiset{merged}
  {
    WithoutCounts(pq, i);
    WithoutCounts(Without(pq, i), r);
    hide Without;
  }

  /** The places of the two states that a step merges, with what heappop promises of them. */
  lemma StepPlaces(pq: seq<KState>) returns (i: nat, j: nat)
    requires |pq| > 1 && Comparable(pq)
    ensures i < |pq| && j < |pq| && i != j && Replaces(pq, i, j, Step(pq))
    ensures forall l | 0 <= l < |pq| :: pq[l].sets != []
    ensures forall l | 0 <= l < |pq| && l != i :: !StateLess(pq[l], pq[i])
    ensures forall l | 0 <= l < |pq| && l != i && l != j :: !StateLess(pq[l], pq[j])
  {
    hide StateLess, MergeStates, LeastOf, Back, Step;
    i := LeastOf(pq, |pq|);
    var rest := Without(pq, i);
    StillComparable(pq, i, rest, 0);
    var r := LeastOf(rest, |rest|);
    j := Back(i, r);
    SecondLeast(pq, i, r, if i == 0 then 1 else 0);
    StepShape(pq, i, r);
    ReplacedCounts(pq, i, r, MergeStates(pq[i], rest[r]));
    hide Without, Replaces;
    forall l | 0 <= l < |pq| && l != i ensures !StateLess(pq[l], pq[i]) && !StateLess(pq[l], pq[j]) {
      LeastIsLeast(pq, |pq|, l);
      SecondLeast(pq, i, r, l);
    }
  }

  /** Every step merges the two states that differ most. */
  lemma StepMergesWidest(pq: seq<KState>) returns (i: nat, j: nat)
    requires |pq| > 1 && Comparable(pq)
    ensures i < |pq| && j < |pq| && i != j && Replaces(pq, i, j, Step(pq))
    ensures forall l | 0 <= l < |pq| :: pq[l].sets != []
    ensures AsWide(pq[i], pq[j])
    ensures forall l | 0 <= l < |pq| && l != i && l != j :: AsWide(pq[j], pq[l])
  {
    hide StateLess, AsWide, Step, Replaces;
    i, j := StepPlaces(pq);
    NotBeforeIsAsWide(pq[i], pq[j]);
    forall l | 0 <= l < |pq| && l != i && l != j ensures AsWide(pq[j], pq[l]) {
      NotBeforeIsAsWide(pq[j], pq[l]);
    }
  }

  // ----- along the loop, with all ties resolved ----------------------------------------------

  predicate HasItem(s: KState) {
    s.sets != [] && s.sets[0].items != []
  }

  /** Larger difference; else larger first set; else more items in it; else the later first item. */
  predicate Ahead(a: KState, b: KState)
    requires HasItem(a) && HasItem(b)
  {
    var x, y := a.sets[0], b.sets[0];
    var v, w := x.items[0], y.items[0];
    || Spread(a) > Spread(b)
    || (Spread(a) == Spread(b) && x.sum > y.sum)
    || (Spread(a) == Spread(b) && x.sum == y.sum && |x.items| > |y.items|)
    || (Spread(a) == Spread(b) && x.sum == y.sum && |x.items| == |y.items| && v.idx > w.idx)
    || (Spread(a) == Spread(b) && x.sum == y.sum && |x.items| == |y.items| && v.idx == w.idx && v.val > w.val)
  }

  lemma BeforeIsAhead(a: KState, b: KState)
    requires HasItem(a) && HasItem(b) && a.sets[0].items[0] != b.sets[0].items[0]
    ensures StateLess(a, b) <==> Ahead(a, b)
  {
  }

  lemma {:induction false} StepsNext(pq: seq<KState>, n: nat)
    requires Comparable(pq) && n + 1 < |pq|
    ensures Steps(pq, n + 1) == Step(Steps(pq, n))
    decreases n
  {
    hide Step, Comparable;
    if n > 0 { StepsNext(Step(pq), n - 1); }
  }

  /** The state that is left is the queue after all merges. */
  lemma {:induction false} CondenseIsSteps(pq: seq<KState>)
    requires pq != [] && Comparable(pq)
    ensures Steps(pq, |pq| - 1) == [Condense(pq)]
    decreases |pq|
  {
    hide Step, Comparable;
    if |pq| > 1 { CondenseIsSteps(Step(pq)); }
  }

  /** At every point of the loop the next merge takes the two states that are ahead of all others, in this order. */
  lemma LoopMergesWidest(seqlens: seq<nat>, k: nat, equal: bool, n: nat) returns (i: nat, j: nat)
    requires Feasible(|seqlens|, k, equal) && n + 1 < |Queue(seqlens, k, equal)|
    ensures Comparable(Queue(seqlens, k, equal))
    ensures var pq := Queue(seqlens, k, equal); var q := Steps(pq, n);
      && i < |q| && j < |q| && i != j && Replaces(q, i, j, Steps(pq, n + 1))
      && (forall l | 0 <= l < |q| :: HasItem(q[l]))
      && Ahead(q[i], q[j])
      && (forall l | 0 <= l < |q| && l != i && l != j :: Ahead(q[j], q[l]))
  {
    hide Queue, NoShared, AllInv, StateLess, Ahead, Steps, Step, Replaces;
    var pq := Queue(seqlens, k, equal);
    QueueReady(seqlens, k, equal);
    QueueHasNoTies(seqlens, k, equal);
    StepsHaveNoTies(pq, k, n);
    StepsNext(pq, n);
    var q := Steps(pq, n);
    i, j := StepPlaces(q);
    OneAhead(q, i, j);
    forall l | 0 <= l < |q| && l != i && l != j ensures HasItem(q[l]) && Ahead(q[j], q[l]) {
      OneAhead(q, j, l);
    }
  }

  lemma OneAhead(q: seq<KState>, i: nat, l: nat)
    requires NoShared(q) && i < |q| && l < |q| && i != l
    ensures HasItem(q[i]) && HasItem(q[l])
    ensures !StateLess(q[l], q[i]) ==> Ahead(q[i], q[l])
  {
    hide StateLess, Ahead;
    FirstSetsDiffer(q, i, l);
    StrictlyOrdered(q, i, l);
    BeforeIsAhead(q[i], q[l]);
  }
}
