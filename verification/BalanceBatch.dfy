/**
  The balance_batch block of verl/trainer/sft_trainer_ray.py: the samples of each data-parallel
  partition are reordered so that the longest stand in the middle.
*/
module BalanceBatch {
  import opened Sequences
  import opened Wrappers
  import opened DifferencingSpec
  import opened BalancedPartitions
  import opened Interleave
  import opened MicroBatches
  import KarmarkarKarp

  function Item0(work: seq<nat>, x: nat): Item {
    Item(x, if x < |work| then work[x] else 0)
  }

  function ItemsOf(work: seq<nat>, part: seq<nat>): (r: seq<Item>)
    ensures |r| == |part|
  {
    seq(|part|, i requires 0 <= i < |part| => Item0(work, part[i]))
  }

  /** `partition.sort(key=lambda x: (global_seqlen_lst[x], x))` */
  function SortByWork(work: seq<nat>, part: seq<nat>): seq<nat> {
    Idxs(SortAsc(ItemsOf(work, part)))
  }

  /** The reordered partitions. */
  function Reordered(work: seq<nat>, parts: seq<seq<nat>>): (r: seq<seq<nat>>)
    ensures |r| == |parts|
  {
    seq(|parts|, i requires 0 <= i < |parts| => UpThenDown(SortByWork(work, parts[i])))
  }

  method BalanceBatch(work: seq<nat>, dpSize: nat) returns (r: Result<seq<seq<nat>>, Error>)
    ensures var b := Balanced(work, dpSize, true);
      r == if b.Failure? then b else Success(Reordered(work, b.value))
  {
    var partitions := KarmarkarKarp.GetSeqlenBalancedPartitions(work, dpSize, true);
    if partitions.Failure? { return partitions; }
    hide SortByWork, Balanced;
    var lists := partitions.value;
    for idx := 0 to |lists|
      invariant |lists| == |partitions.value|
      invariant forall i | 0 <= i < |lists| ::
        lists[i] == if i < idx then Reordered(work, partitions.value)[i] else partitions.value[i]
    {
      var partition := SortByWork(work, lists[idx]);
      lists := lists[idx := Evens(partition) + Reverse(Odds(partition))];
    }
    assert lists == Reordered(work, partitions.value);
    r := Success(lists);
  }

  function WorkOf(work: seq<nat>, part: seq<nat>): (r: seq<int>)
    ensures |r| == |part|
  {
    seq(|part|, i requires 0 <= i < |part| => if part[i] < |work| then work[part[i]] else 0)
  }

  lemma SortByWorkFacts(work: seq<nat>, part: seq<nat>)
    ensures multiset(SortByWork(work, part)) == multiset(part)
    ensures |SortByWork(work, part)| == |part| && Climbing(WorkOf(work, SortByWork(work, part)))
    ensures var s := SortByWork(work, part);
      forall i, j | 0 <= i < j < |s| && WorkOf(work, s)[i] == WorkOf(work, s)[j] :: s[i] <= s[j]
  {
    var items := ItemsOf(work, part);
    SortAscFacts(items);
    IdxsPermute(SortAsc(items), items);
    assert Idxs(items) == part;
    var s := SortAsc(items);
    forall i | 0 <= i < |s| ensures s[i].val == Item0(work, s[i].idx).val {
      assert s[i] in multiset(s) && s[i] in multiset(items);
      assert s[i] in items;
    }
    hide SortAsc;
  }

  lemma WorkInOrder(work: seq<nat>, s: seq<nat>)
    ensures WorkOf(work, UpThenDown(s)) == UpThenDown(WorkOf(work, s))
  {
    forall i: nat | i < |s| ensures WorkOf(work, UpThenDown(s))[i] == UpThenDown(WorkOf(work, s))[i] {
      UpThenDownAt(s, i);
      UpThenDownAt(WorkOf(work, s), i);
    }
  }

  /** Each partition keeps its samples, whose workloads now rise and then fall. */
  lemma ReorderedPart(work: seq<nat>, part: seq<nat>)
    ensures var r := UpThenDown(SortByWork(work, part));
      multiset(r) == multiset(part) && (part != [] ==> Mountain(WorkOf(work, r), |part| / 2))
  {
    hide UpThenDown, WorkOf, SortByWork;
    var s := SortByWork(work, part);
    SortByWorkFacts(work, part);
    BothPermute(s);
    WorkInOrder(work, s);
    if part != [] { UpThenDownIsMountain(WorkOf(work, s)); }
  }

  lemma {:induction false} ReorderedConcat(work: seq<nat>, parts: seq<seq<nat>>)
    ensures multiset(Concat(Reordered(work, parts))) == multiset(Concat(parts))
  {
    if parts != [] {
      ReorderedConcat(work, parts[1..]);
      ReorderedPart(work, parts[0]);
      assert Reordered(work, parts)[1..] == Reordered(work, parts[1..]);
    }
  }

  lemma ReorderedSpread(work: seq<nat>, parts: seq<seq<nat>>, bound: int)
    requires SpreadAtMost(work, parts, bound)
    ensures SpreadAtMost(work, Reordered(work, parts), bound)
  {
    hide UpThenDown, SortByWork, Mountain;
    forall i | 0 <= i < |parts| ensures PartSum(work, Reordered(work, parts)[i]) == PartSum(work, parts[i]) {
      ReorderedPart(work, parts[i]);
      PartSumPermute(work, Reordered(work, parts)[i], parts[i]);
    }
    hide PartSum, Reordered;
  }

  /** The global index list is a permutation of the batch, cut into equally many samples per rank. The ranks' workloads
      differ by at most the largest range of dpSize samples in sorted order, and each rank's workloads rise to its middle
      sample and fall after it. */
  lemma BalanceBatchOrder(work: seq<nat>, dpSize: nat)
    requires Feasible(|work|, dpSize, true) && |work| >= dpSize
    ensures Balanced(work, dpSize, true).Success?
    ensures var b := Balanced(work, dpSize, true).value; var r := Reordered(work, b);
      && |r| == dpSize && Covers(r, |work|)
      && (forall bound | Bounds(work, dpSize, true, bound) :: SpreadAtMost(work, r, bound))
      && forall i | 0 <= i < dpSize ::
           multiset(r[i]) == multiset(b[i]) && |r[i]| * dpSize == |work| && Mountain(WorkOf(work, r[i]), |r[i]| / 2)
  {
    hide Balanced, Covers, Mountain, WorkOf, UpThenDown, SortByWork, SpreadAtMost, Bounds;
    BalancedPartitionsAre(work, dpSize, true);
    var b := Balanced(work, dpSize, true).value;
    ReorderedCovers(work, b, |work|);
    forall bound | Bounds(work, dpSize, true, bound) ensures SpreadAtMost(work, Reordered(work, b), bound) {
      ReorderedSpread(work, b, bound);
    }
    forall i | 0 <= i < dpSize ensures var r := Reordered(work, b)[i];
      multiset(r) == multiset(b[i]) && |r| == |b[i]| && b[i] in b && Mountain(WorkOf(work, r), |r| / 2)
    {
      ReorderedPart(work, b[i]);
      SameMembers(Reordered(work, b)[i], b[i]);
      assert b[i] in b;
    }
  }

  lemma ReorderedCovers(work: seq<nat>, parts: seq<seq<nat>>, n: nat)
    requires Covers(parts, n)
    ensures Covers(Reordered(work, parts), n)
  {
    ReorderedConcat(work, parts);
  }
}
