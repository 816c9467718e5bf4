/**
  get_group_balanced_partitions of verl/utils/seqlen_balancing.py: runs of samples with the same uid
  are partitioned as wholes, equally many runs per partition.
*/
module GroupBalance {
  import opened Sequences
  import opened Wrappers
  import opened DifferencingSpec
  import opened BalancedPartitions
  import opened MicroBatches
  import opened SeparatedItems
  import opened Arithmetic
  import KarmarkarKarp

  /** The index groups after the first m samples, the open one included. */
  function Runs<U(==)>(uids: seq<U>, m: nat): (r: seq<seq<nat>>)
    requires m <= |uids|
    ensures m > 0 ==> r != []
  {
    if m == 0 then []
    else
      var r := Runs(uids, m - 1);
      if m > 1 && uids[m - 1] == uids[m - 2] then r[|r| - 1 := r[|r| - 1] + [m - 1]] else r + [[m - 1]]
  }

  /** The loop that builds the groups; the length totals it carries along are never used. */
  method BuildGroups<U(==)>(uids: seq<U>) returns (groups: seq<seq<nat>>)
    ensures groups == Runs(uids, |uids|)
  {
    groups := [];
    var currentUid: Option<U> := None;
    var currentIndices: seq<nat> := [];
    for i := 0 to |uids|
      invariant i == 0 ==> currentUid == None && currentIndices == [] && groups == []
      invariant i > 0 ==> currentUid == Some(uids[i - 1]) && currentIndices != []
      invariant Runs(uids, i) == if i == 0 then [] else groups + [currentIndices]
    {
      if Some(uids[i]) != currentUid {
        if currentIndices != [] {
          groups := groups + [currentIndices];
        }
        currentUid := Some(uids[i]);
        currentIndices := [i];
      } else {
        assert (groups + [currentIndices])[|groups| := currentIndices + [i]] == groups + [currentIndices + [i]];
        currentIndices := currentIndices + [i];
      }
    }
    if currentIndices != [] {
      groups := groups + [currentIndices];
    }
  }

  lemma {:induction false} RunsCover<U>(uids: seq<U>, m: nat)
    requires m <= |uids|
    ensures Concat(Runs(uids, m)) == Indices(m)
    decreases m
  {
    if m == 0 {
      assert Indices(0) == [];
    } else {
      var r := Runs(uids, m - 1);
      RunsCover(uids, m - 1);
      assert Indices(m) == Indices(m - 1) + [m - 1];
      if m > 1 && uids[m - 1] == uids[m - 2] {
        ExtendLast(r, m - 1);
      } else {
        ConcatPush<nat>(r, [m - 1]);
      }
    }
  }

  lemma ExtendLast(r: seq<seq<nat>>, y: nat)
    requires r != []
    ensures Concat(r[|r| - 1 := r[|r| - 1] + [y]]) == Concat(r) + [y]
  {
    var n := |r| - 1;
    assert r == r[..n] + [r[n]] && r[n := r[n] + [y]] == r[..n] + [r[n] + [y]];
    ConcatPush<nat>(r[..n], r[n]);
    ConcatPush<nat>(r[..n], r[n] + [y]);
    assert Concat(r[..n]) + (r[n] + [y]) == (Concat(r[..n]) + r[n]) + [y];
  }

  /** A group is a non-empty stretch of samples with one uid. */
  ghost predicate IsRun<U(!new)>(uids: seq<U>, g: seq<nat>) {
    && g != []
    && (forall i | 0 <= i < |g| :: g[i] < |uids| && g[i] == g[0] + i && (g[0] < |uids| ==> uids[g[i]] == uids[g[0]]))
  }

  lemma {:induction false} RunsAreRuns<U(!new)>(uids: seq<U>, m: nat)
    requires m <= |uids|
    ensures forall g | g in Runs(uids, m) :: IsRun(uids, g)
    ensures m > 0 ==> var last := Runs(uids, m)[|Runs(uids, m)| - 1]; last != [] && last[|last| - 1] == m - 1
    decreases m
  {
    if m > 0 {
      RunsAreRuns(uids, m - 1);
      var r := Runs(uids, m - 1);
      if m > 1 && uids[m - 1] == uids[m - 2] {
        var last := r[|r| - 1];
        assert last in r && IsRun(uids, last);
        assert uids[last[|last| - 1]] == uids[last[0]];
        assert IsRun(uids, last + [m - 1]);
        forall g | g in Runs(uids, m) ensures IsRun(uids, g) {
          assert g in r || g == last + [m - 1];
        }
      } else {
        assert IsRun(uids, [m - 1]);
      }
    }
  }

  /** Neighbouring samples with the same uid are in the same group. */
  lemma {:induction false} NeighboursTogether<U>(uids: seq<U>, m: nat, i: nat)
    requires i + 1 < m <= |uids| && uids[i] == uids[i + 1]
    ensures exists g | g in Runs(uids, m) :: i in g && i + 1 in g
    decreases m
  {
    var r := Runs(uids, m - 1);
    if i + 1 < m - 1 {
      NeighboursTogether(uids, m - 1, i);
      var g :| g in r && i in g && i + 1 in g;
      if uids[m - 1] == uids[m - 2] {
        var a :| 0 <= a < |r| && r[a] == g;
        assert Runs(uids, m)[a] in Runs(uids, m);
      } else {
        assert g in Runs(uids, m);
      }
    } else {
      LastOfRuns(uids, m - 1);
      var n := |r| - 1;
      assert Runs(uids, m)[n] == r[n] + [m - 1];
      assert Runs(uids, m)[n] in Runs(uids, m);
    }
  }

  lemma {:induction false} LastOfRuns<U>(uids: seq<U>, m: nat)
    requires 0 < m <= |uids|
    ensures m - 1 in Runs(uids, m)[|Runs(uids, m)| - 1]
    decreases m
  {
  }

  // ----- the whole ---------------------------------------------------------------------------

  /** The workload of each group. */
  function GroupWork(seqlens: seq<nat>, groups: seq<seq<nat>>): (r: seq<nat>)
    ensures |r| == |groups|
  {
    seq(|groups|, i requires 0 <= i < |groups| => PartSum(Workloads(seqlens), groups[i]))
  }

  function Members(groups: seq<seq<nat>>, part: seq<nat>): seq<nat> {
    if part == [] then []
    else
      var g := part[|part| - 1];
      Members(groups, part[..|part| - 1]) + if g < |groups| then groups[g] else []
  }

  function SampleParts(groups: seq<seq<nat>>, parts: seq<seq<nat>>): (r: seq<seq<nat>>)
    ensures |r| == |parts|
  {
    seq(|parts|, i requires 0 <= i < |parts| => SortNats(Members(groups, parts[i])))
  }

  function Grouped<U(==)>(seqlens: seq<nat>, uids: seq<U>, k: nat): Result<seq<seq<nat>>, Error> {
    if |seqlens| != |uids| then Failure(AssertionError)
    else
      var groups := Runs(uids, |uids|);
      if |groups| < k then Failure(AssertionError)
      else
        var parts := Balanced(GroupWork(seqlens, groups), k, true);
        if parts.Failure? then parts else Success(SampleParts(groups, parts.value))
  }

  method GetGroupBalancedPartitions<U(==)>(seqlens: seq<nat>, uids: seq<U>, k: nat)
    returns (r: Result<seq<seq<nat>>, Error>)
    ensures r == Grouped(seqlens, uids, k)
  {
    if |seqlens| != |uids| { return Failure(AssertionError); }
    var groups := BuildGroups(uids);
    if |groups| < k { return Failure(AssertionError); }
    var groupWorkloads := [];
    for i := 0 to |groups|
      invariant groupWorkloads == GroupWork(seqlens, groups)[..i]
    {
      groupWorkloads := groupWorkloads + [PartSum(Workloads(seqlens), groups[i])];
    }
    assert groupWorkloads == GroupWork(seqlens, groups);
    var parts := KarmarkarKarp.GetSeqlenBalancedPartitions(groupWorkloads, k, true);
    if parts.Failure? { return parts; }
    hide Balanced, SortNats, GroupWork;
    BalancedIff(groupWorkloads, k, true);
    BalancedPartitionsAre(groupWorkloads, k, true);
    var samples := CollectSamples(groups, parts.value);
    r := Success(samples);
  }

  method CollectSamples(groups: seq<seq<nat>>, parts: seq<seq<nat>>) returns (samples: seq<seq<nat>>)
    requires Covers(parts, |groups|)
    ensures samples == SampleParts(groups, parts)
  {
    samples := [];
    for i := 0 to |parts|
      invariant samples == SampleParts(groups, parts)[..i]
    {
      CoverBelow(parts, |groups|, i);
      hide SortNats, Covers;
      var indices: seq<nat> := [];
      for j := 0 to |parts[i]|
        invariant indices == Members(groups, parts[i][..j])
      {
        assert parts[i][..j + 1][..j] == parts[i][..j];
        indices := indices + groups[parts[i][j]];
      }
      assert parts[i][..|parts[i]|] == parts[i];
      samples := samples + [SortNats(indices)];
    }
  }

  // ----- exact cover -------------------------------------------------------------------------

  lemma {:induction false} MembersConcat(groups: seq<seq<nat>>, p: seq<nat>, q: seq<nat>)
    ensures Members(groups, p + q) == Members(groups, p) + Members(groups, q)
    decreases |q|
  {
    if q == [] {
      assert p + q == p;
    } else {
      assert (p + q)[..|p + q| - 1] == p + q[..|q| - 1];
      MembersConcat(groups, p, q[..|q| - 1]);
    }
  }

  lemma MembersOne(groups: seq<seq<nat>>, g: nat)
    requires g < |groups|
    ensures Members(groups, [g]) == groups[g]
  {
    assert [g][..0] == [];
  }

  lemma MembersWithout(groups: seq<seq<nat>>, q: seq<nat>, i: nat)
    requires i < |q|
    ensures multiset(Members(groups, q)) == multiset(Members(groups, Without(q, i))) + multiset(Members(groups, [q[i]]))
  {
    hide Members;
    var x := q[i];
    assert q == q[..i] + [x] + q[i + 1..];
    MembersConcat(groups, q[..i] + [x], q[i + 1..]);
    MembersConcat(groups, q[..i], [x]);
    MembersConcat(groups, q[..i], q[i + 1..]);
  }

  lemma {:induction false} MembersPermute(groups: seq<seq<nat>>, p: seq<nat>, q: seq<nat>)
    requires multiset(p) == multiset(q)
    ensures multiset(Members(groups, p)) == multiset(Members(groups, q))
    decreases |p|
  {
    hide Members;
    if p == [] {
      assert |multiset(q)| == 0;
    } else {
      var i := TakeOut(p, q);
      var m := |p| - 1;
      MembersPermute(groups, p[..m], Without(q, i));
      MembersWithout(groups, q, i);
      MembersWithout(groups, p, m);
      assert Without(p, m) == p[..m];
    }
  }

  lemma {:induction false} MembersOfAll(groups: seq<seq<nat>>, m: nat)
    requires m <= |groups|
    ensures Members(groups, Indices(m)) == Concat(groups[..m])
  {
    if m > 0 {
      MembersOfAll(groups, m - 1);
      assert Indices(m)[..m - 1] == Indices(m - 1);
      ConcatNext(groups, m - 1);
    }
  }

  lemma {:induction false} SamplesConcat(groups: seq<seq<nat>>, parts: seq<seq<nat>>)
    ensures multiset(Concat(SampleParts(groups, parts))) == multiset(Members(groups, Concat(parts)))
  {
    if parts != [] {
      hide SortNats, Members;
      var t := parts[1..];
      SamplesConcat(groups, t);
      assert SampleParts(groups, parts)[1..] == SampleParts(groups, t);
      SortNatsFacts(Members(groups, parts[0]));
      MembersConcat(groups, parts[0], Concat(t));
    } else {
      assert Members(groups, []) == [];
    }
  }

  /** Every sample is in exactly one partition. */
  lemma GroupedCovers<U>(uids: seq<U>, parts: seq<seq<nat>>)
    requires Covers(parts, |Runs(uids, |uids|)|)
    ensures Covers(SampleParts(Runs(uids, |uids|), parts), |uids|)
  {
    var groups := Runs(uids, |uids|);
    SamplesConcat(groups, parts);
    MembersPermute(groups, Concat(parts), Indices(|groups|));
    MembersOfAll(groups, |groups|);
    assert groups[..|groups|] == groups;
    RunsCover(uids, |uids|);
  }

  // ----- which samples stay together ---------------------------------------------------------

  /** Some partition holds both samples. */
  ghost predicate Together(parts: seq<seq<nat>>, i: nat, j: nat) {
    exists p | p in parts :: i in p && j in p
  }

  /** Every uid's samples stand next to each other. */
  ghost predicate Contiguous<U>(uids: seq<U>) {
    forall i, j, l | 0 <= i < j < l < |uids| && uids[i] == uids[l] :: uids[j] == uids[i]
  }

  ghost predicate KeptTogether<U>(uids: seq<U>, parts: seq<seq<nat>>) {
    forall i: nat, j: nat | i < j < |uids| && uids[i] == uids[j] :: Together(parts, i, j)
  }

  lemma {:induction false} MembersHave(groups: seq<seq<nat>>, p: seq<nat>, a: nat, x: nat)
    requires a < |p| && p[a] < |groups| && x in groups[p[a]]
    ensures x in Members(groups, p)
    decreases |p|
  {
    if a < |p| - 1 { MembersHave(groups, p[..|p| - 1], a, x); }
  }

  lemma SortedHas(s: seq<nat>, x: nat)
    ensures x in SortNats(s) <==> x in s
  {
    SortNatsFacts(s);
    assert x in SortNats(s) <==> x in multiset(SortNats(s));
  }

  /** A group ends up in one partition. */
  lemma GroupStays(groups: seq<seq<nat>>, parts: seq<seq<nat>>, g: nat, i: nat, j: nat)
    requires Covers(parts, |groups|) && g < |groups| && i in groups[g] && j in groups[g]
    ensures Together(SampleParts(groups, parts), i, j)
  {
    hide SortNats, Members, Covers;
    var a, b := CoverMember(parts, |groups|, g);
    var p := SampleParts(groups, parts)[a];
    MembersHave(groups, parts[a], b, i);
    MembersHave(groups, parts[a], b, j);
    SortedHas(Members(groups, parts[a]), i);
    SortedHas(Members(groups, parts[a]), j);
    assert p in SampleParts(groups, parts);
  }

  lemma {:induction false} StretchInOneGroup<U>(uids: seq<U>, i: nat, j: nat) returns (g: nat)
    requires i <= j < |uids| && forall l | i <= l <= j :: uids[l] == uids[i]
    ensures var r := Runs(uids, |uids|); g < |r| && i in r[g] && j in r[g]
    decreases j - i
  {
    var r := Runs(uids, |uids|);
    RunsCover(uids, |uids|);
    if i == j {
      assert Indices(|uids|)[i] == i;
      var a, b := ConcatMember(r, i);
      g := a;
    } else {
      g := StretchInOneGroup(uids, i, j - 1);
      NeighboursTogether(uids, |uids|, j - 1);
      var h :| h in r && j - 1 in h && j in h;
      var b :| 0 <= b < |r| && r[b] == h;
      hide Runs;
      OnlyOneGroup(r, |uids|, g, b, j - 1);
    }
  }

  /** No sample is in two groups. */
  lemma OnlyOneGroup(groups: seq<seq<nat>>, n: nat, a: nat, b: nat, x: nat)
    requires Concat<nat>(groups) == Indices(n) && a < |groups| && b < |groups| && x in groups[a] && x in groups[b]
    ensures a == b
  {
    IndicesOnce(n);
    var all := multiset(Concat<nat>(groups));
    assert all == multiset(Indices(n));
    assert all[x] <= 1;
    hide Concat, Indices;
    if a < b {
      TwoHolders(groups, a, b, x);
    } else if b < a {
      TwoHolders(groups, b, a, x);
    }
  }

  lemma Holder(parts: seq<seq<nat>>, a: nat, x: nat)
    requires a < |parts| && x in parts[a]
    ensures multiset(Concat<nat>(parts))[x] >= 1
  {
    PartOfConcat<nat>(parts, a);
    assert x in multiset(parts[a]);
    assert multiset(parts[a])[x] <= multiset(Concat<nat>(parts))[x];
  }

  lemma TwoHolders(parts: seq<seq<nat>>, a: nat, b: nat, x: nat)
    requires a < b < |parts| && x in parts[a] && x in parts[b]
    ensures multiset(Concat<nat>(parts))[x] >= 2
  {
    hide Concat;
    var left, right := parts[..b], parts[b..];
    assert parts == left + right && left[a] == parts[a] && right[0] == parts[b];
    ConcatSplit<nat>(left, right);
    Holder(left, a, x);
    Holder(right, 0, x);
    var l, r := multiset(Concat<nat>(left)), multiset(Concat<nat>(right));
    assert multiset(Concat<nat>(parts)) == l + r;
    assert (l + r)[x] == l[x] + r[x];
  }

  /** Samples with one uid stay together when they are contiguous. */
  lemma ContiguousKeptTogether<U>(uids: seq<U>, parts: seq<seq<nat>>)
    requires Contiguous(uids) && Covers(parts, |Runs(uids, |uids|)|)
    ensures KeptTogether(uids, SampleParts(Runs(uids, |uids|), parts))
  {
    forall i: nat, j: nat | i < j < |uids| && uids[i] == uids[j]
      ensures Together(SampleParts(Runs(uids, |uids|), parts), i, j)
    {
      forall l | i <= l <= j ensures uids[l] == uids[i] {
        assert i < l < j ==> uids[l] == uids[i];
      }
      var g := StretchInOneGroup(uids, i, j);
      GroupStays(Runs(uids, |uids|), parts, g, i, j);
    }
  }

  /** With one group per partition, non-adjacent samples of a uid that are interrupted by another uid are separated. */
  lemma InterruptedSeparated<U(!new)>(uids: seq<U>, parts: seq<seq<nat>>, i: nat, j: nat, l: nat)
    requires var groups := Runs(uids, |uids|); Covers(parts, |groups|) && forall p | p in parts :: |p| == 1
    requires i < j < l < |uids| && uids[j] != uids[i]
    ensures !Together(SampleParts(Runs(uids, |uids|), parts), i, l)
  {
    hide SortNats, Covers, Runs;
    var groups := Runs(uids, |uids|);
    var r := SampleParts(groups, parts);
    forall p | p in r ensures !(i in p && l in p) {
      var a :| 0 <= a < |r| && r[a] == p;
      assert parts[a] in parts;
      CoverBelow(parts, |groups|, a);
      var g := parts[a][0];
      assert parts[a] == [g];
      MembersOne(groups, g);
      SortedHas(groups[g], i);
      SortedHas(groups[g], l);
      RunsAreRuns(uids, |uids|);
      assert groups[g] in groups;
      NoGap(uids, groups[g], i, j, l);
    }
  }

  lemma NoGap<U(!new)>(uids: seq<U>, g: seq<nat>, i: nat, j: nat, l: nat)
    requires IsRun(uids, g) && i < j < l < |uids|
    ensures i in g && l in g ==> uids[j] == uids[i]
  {
    if i in g && l in g {
      var a :| 0 <= a < |g| && g[a] == i;
      var b :| 0 <= b < |g| && g[b] == l;
      assert g[a + j - i] == j;
    }
  }

  /** The request is served exactly when there are enough groups and k divides their number. */
  lemma GroupedIff<U>(seqlens: seq<nat>, uids: seq<U>, k: nat)
    ensures Grouped(seqlens, uids, k).Success? <==>
      |seqlens| == |uids| && |Runs(uids, |uids|)| >= k && Feasible(|Runs(uids, |uids|)|, k, true)
  {
    hide Balanced, Runs;
    BalancedIff(GroupWork(seqlens, Runs(uids, |uids|)), k, true);
  }

  lemma {:induction false} MembersWork(seqlens: seq<nat>, groups: seq<seq<nat>>, p: seq<nat>)
    requires forall i | 0 <= i < |p| :: p[i] < |groups|
    ensures PartSum(Workloads(seqlens), Members(groups, p)) == PartSum(GroupWork(seqlens, groups), p)
    decreases |p|
  {
    if p != [] {
      var m := |p| - 1;
      MembersWork(seqlens, groups, p[..m]);
      PartSumConcat(Workloads(seqlens), Members(groups, p[..m]), groups[p[m]]);
      hide Workloads;
    }
  }

  /** A partition weighs what its groups weigh. */
  lemma SampleWork(seqlens: seq<nat>, groups: seq<seq<nat>>, parts: seq<seq<nat>>, i: nat)
    requires Covers(parts, |groups|) && i < |parts|
    ensures PartSum(Workloads(seqlens), SampleParts(groups, parts)[i]) == PartSum(GroupWork(seqlens, groups), parts[i])
  {
    hide SortNats, Members, PartSum, Workloads, GroupWork;
    CoverBelow(parts, |groups|, i);
    MembersWork(seqlens, groups, parts[i]);
    SortNatsFacts(Members(groups, parts[i]));
    PartSumPermute(Workloads(seqlens), SortNats(Members(groups, parts[i])), Members(groups, parts[i]));
  }

  lemma SampleSpread(seqlens: seq<nat>, groups: seq<seq<nat>>, parts: seq<seq<nat>>, bound: int)
    requires Covers(parts, |groups|) && SpreadAtMost(GroupWork(seqlens, groups), parts, bound)
    ensures SpreadAtMost(Workloads(seqlens), SampleParts(groups, parts), bound)
  {
    hide SampleParts, PartSum, Workloads, GroupWork, Covers;
    forall i | 0 <= i < |parts|
      ensures PartSum(Workloads(seqlens), SampleParts(groups, parts)[i]) == PartSum(GroupWork(seqlens, groups), parts[i])
    {
      SampleWork(seqlens, groups, parts, i);
    }
  }

  /** The partition of the groups behind the sample partitions: equally many groups each. */
  lemma GroupedFrom<U>(seqlens: seq<nat>, uids: seq<U>, k: nat) returns (parts: seq<seq<nat>>)
    requires Grouped(seqlens, uids, k).Success?
    ensures var groups := Runs(uids, |uids|);
      && |seqlens| == |uids| && |parts| == k > 0 && Covers(parts, |groups|)
      && (forall p | p in parts :: |p| * k == |groups|)
      && Grouped(seqlens, uids, k).value == SampleParts(groups, parts)
      && forall bound | Bounds(GroupWork(seqlens, groups), k, true, bound) ::
           SpreadAtMost(GroupWork(seqlens, groups), parts, bound)
  {
    hide Balanced, Runs, Covers, SampleParts, SpreadAtMost, Bounds;
    var work := GroupWork(seqlens, Runs(uids, |uids|));
    GroupedIff(seqlens, uids, k);
    BalancedPartitionsAre(work, k, true);
    parts := Balanced(work, k, true).value;
  }

  lemma SamplesIncrease(groups: seq<seq<nat>>, parts: seq<seq<nat>>, n: nat)
    requires Covers(SampleParts(groups, parts), n)
    ensures forall p | p in SampleParts(groups, parts) :: Increasing(p)
  {
    hide SortNats, Covers, Members;
    var r := SampleParts(groups, parts);
    CoverElements(r, n);
    forall i | 0 <= i < |parts| ensures Increasing(r[i]) {
      PartOfConcat(r, i);
      SortNatsFacts(Members(groups, parts[i]));
      RisingOnce(r[i]);
    }
  }

  /** Every sample is in exactly one partition, in rising order, no group is torn apart, and the workloads of the samples differ by at most
      the largest range of k groups in sorted order. */
  lemma GroupedAre<U>(seqlens: seq<nat>, uids: seq<U>, k: nat)
    requires Grouped(seqlens, uids, k).Success?
    ensures var r := Grouped(seqlens, uids, k).value;
      && |r| == k > 0 && |seqlens| == |uids| && Covers(r, |uids|)
      && (forall g, i, j | g in Runs(uids, |uids|) && i in g && j in g :: Together(r, i, j))
      && (Contiguous(uids) ==> KeptTogether(uids, r)) && (forall p | p in r :: Increasing(p))
      && forall bound | Bounds(GroupWork(seqlens, Runs(uids, |uids|)), k, true, bound) ::
           SpreadAtMost(Workloads(seqlens), r, bound)
  {
    hide Grouped, Runs, SortNats, Covers, SampleParts, SpreadAtMost, Bounds, KeptTogether, Contiguous, GroupWork;
    var groups := Runs(uids, |uids|);
    var parts := GroupedFrom(seqlens, uids, k);
    GroupedCovers(uids, parts);
    forall g, i, j | g in groups && i in g && j in g ensures Together(SampleParts(groups, parts), i, j) {
      var a :| 0 <= a < |groups| && groups[a] == g;
      GroupStays(groups, parts, a, i, j);
    }
    if Contiguous(uids) { ContiguousKeptTogether(uids, parts); }
    SamplesIncrease(groups, parts, |uids|);
    forall bound | Bounds(GroupWork(seqlens, groups), k, true, bound)
      ensures SpreadAtMost(Workloads(seqlens), SampleParts(groups, parts), bound)
    {
      SampleSpread(seqlens, groups, parts, bound);
    }
  }

  lemma {:induction false} MembersLength(groups: seq<seq<nat>>, p: seq<nat>, c: nat)
    requires forall i | 0 <= i < |p| :: p[i] < |groups| && |groups[p[i]]| == c
    ensures |Members(groups, p)| == |p| * c
    decreases |p|
  {
    if p != [] {
      MembersLength(groups, p[..|p| - 1], c);
      assert |p| * c == (|p| - 1) * c + c;
    }
  }

  /** When every uid has equally many samples, so has every partition. */
  lemma EqualGroupsEqualParts<U>(seqlens: seq<nat>, uids: seq<U>, k: nat, c: nat)
    requires Grouped(seqlens, uids, k).Success? && forall g | g in Runs(uids, |uids|) :: |g| == c
    ensures forall p | p in Grouped(seqlens, uids, k).value :: |p| * k == |uids|
  {
    hide Grouped, SpreadAtMost, Bounds, GroupWork, Members, SortNats, Covers, Runs;
    var groups := Runs(uids, |uids|);
    var parts := GroupedFrom(seqlens, uids, k);
    RunsCover(uids, |uids|);
    ConcatLength(groups, c);
    forall p | p in SampleParts(groups, parts) ensures |p| * k == |uids| {
      var i :| 0 <= i < |parts| && SampleParts(groups, parts)[i] == p;
      CoverBelow(parts, |groups|, i);
      assert parts[i] in parts;
      MembersLength(groups, parts[i], c);
      SortNatsFacts(Members(groups, parts[i]));
      Regroup(|parts[i]|, c, k, |groups|);
    }
  }

  lemma Regroup(a: nat, c: nat, k: nat, n: nat)
    requires a * k == n
    ensures a * c * k == n * c
  {
    assert a * c * k == (a * k) * c;
  }

  // ----- exactly when uids stay together -----------------------------------------------------

  lemma {:induction false} MembersFrom(groups: seq<seq<nat>>, p: seq<nat>, x: nat) returns (a: nat)
    requires x in Members(groups, p)
    ensures a < |p| && p[a] < |groups| && x in groups[p[a]]
    decreases |p|
  {
    var m := |p| - 1;
    if x in Members(groups, p[..m]) {
      a := MembersFrom(groups, p[..m], x);
    } else {
      a := m;
    }
  }

  /** Samples that are together have their groups together. */
  lemma TogetherGroups<U>(uids: seq<U>, parts: seq<seq<nat>>, i: nat, l: nat, g: nat, h: nat)
    requires var groups := Runs(uids, |uids|); g < |groups| && h < |groups| && i in groups[g] && l in groups[h]
    requires Together(SampleParts(Runs(uids, |uids|), parts), i, l)
    ensures exists p | p in parts :: g in p && h in p
  {
    hide SortNats, Runs, Members;
    var groups := Runs(uids, |uids|);
    RunsCover(uids, |uids|);
    var r := SampleParts(groups, parts);
    var q :| q in r && i in q && l in q;
    var s :| 0 <= s < |r| && r[s] == q;
    SortedHas(Members(groups, parts[s]), i);
    SortedHas(Members(groups, parts[s]), l);
    var a := MembersFrom(groups, parts[s], i);
    var b := MembersFrom(groups, parts[s], l);
    OnlyOneGroup(groups, |uids|, parts[s][a], g, i);
    OnlyOneGroup(groups, |uids|, parts[s][b], h, l);
    assert parts[s] in parts;
  }

  /** One token in every sample of two groups, none elsewhere. */
  function TwoGroupsOnly(n: nat, g: seq<nat>, h: seq<nat>): (r: seq<nat>)
    ensures |r| == n
  {
    seq(n, i requires 0 <= i < n => if i in g || i in h then 1 else 0)
  }

  lemma {:induction false} WorkOfNone(work: seq<nat>, p: seq<nat>)
    requires forall i | 0 <= i < |p| :: p[i] < |work| ==> work[p[i]] == 0
    ensures PartSum(work, p) == 0
    decreases |p|
  {
    if p != [] { WorkOfNone(work, p[..|p| - 1]); }
  }

  lemma WorkOfSome(work: seq<nat>, p: seq<nat>)
    requires p != [] && p[|p| - 1] < |work| && work[p[|p| - 1]] > 0
    ensures PartSum(work, p) > 0
  {
  }

  lemma TwoGroupsWeigh<U(!new)>(uids: seq<U>, g: nat, h: nat)
    requires g < |Runs(uids, |uids|)| && h < |Runs(uids, |uids|)| && g != h
    ensures var groups := Runs(uids, |uids|);
      OnlyTwo(GroupWork(TwoGroupsOnly(|uids|, groups[g], groups[h]), groups), g, h)
  {
    hide Runs;
    var groups, n := Runs(uids, |uids|), |uids|;
    var lens := TwoGroupsOnly(n, groups[g], groups[h]);
    var work := Workloads(lens);
    RunsCover(uids, n);
    RunsAreRuns(uids, n);
    forall a: nat | a < |groups|
      ensures if a == g || a == h then PartSum(work, groups[a]) > 0 else PartSum(work, groups[a]) == 0
    {
      assert groups[a] in groups && IsRun(uids, groups[a]);
      if a == g || a == h {
        WorkOfSome(work, groups[a]);
      } else {
        forall t | 0 <= t < |groups[a]| && groups[a][t] < n ensures work[groups[a][t]] == 0 {
          NotIn(groups, n, a, g, groups[a][t]);
          NotIn(groups, n, a, h, groups[a][t]);
        }
        WorkOfNone(work, groups[a]);
      }
    }
    hide PartSum;
  }

  lemma NotIn(groups: seq<seq<nat>>, n: nat, a: nat, b: nat, x: nat)
    requires Concat<nat>(groups) == Indices(n) && a < |groups| && b < |groups| && a != b && x in groups[a]
    ensures x !in groups[b]
  {
    if x in groups[b] { OnlyOneGroup(groups, n, a, b, x); }
  }

  /** The samples of every uid are in one partition, whatever the lengths. */
  ghost predicate AlwaysTogether<U>(uids: seq<U>, k: nat) {
    forall seqlens: seq<nat> | |seqlens| == |uids| ::
      Grouped(seqlens, uids, k).Success? && KeptTogether(uids, Grouped(seqlens, uids, k).value)
  }

  /** A uid interrupted by another one is torn apart by suitable lengths. */
  lemma InterruptedTorn<U(!new)>(uids: seq<U>, k: nat, i: nat, j: nat, l: nat) returns (seqlens: seq<nat>)
    requires k >= 2 && |Runs(uids, |uids|)| >= k && Multiple(|Runs(uids, |uids|)|, k)
    requires i < j < l < |uids| && uids[j] != uids[i]
    ensures |seqlens| == |uids| && Grouped(seqlens, uids, k).Success?
    ensures !Together(Grouped(seqlens, uids, k).value, i, l)
  {
    hide Runs, Balanced, SampleParts, Covers, OnlyTwo, Together, SpreadAtMost, Bounds;
    var groups := Runs(uids, |uids|);
    RunsCover(uids, |uids|);
    assert Indices(|uids|)[i] == i && Indices(|uids|)[l] == l;
    var g, a := ConcatMember(groups, i);
    var h, b := ConcatMember(groups, l);
    RunsAreRuns(uids, |uids|);
    assert groups[g] in groups;
    NoGap(uids, groups[g], i, j, l);
    seqlens := TwoGroupsOnly(|uids|, groups[g], groups[h]);
    TwoGroupsWeigh(uids, g, h);
    var work := GroupWork(seqlens, groups);
    HeaviestTwoApart(work, k, g, h);
    var parts := Balanced(work, k, true).value;
    if Together(SampleParts(groups, parts), i, l) { TogetherGroups(uids, parts, i, l, g, h); }
  }

  lemma OnePartTogether<U>(seqlens: seq<nat>, uids: seq<U>)
    requires Grouped(seqlens, uids, 1).Success?
    ensures KeptTogether(uids, Grouped(seqlens, uids, 1).value)
  {
    hide Grouped;
    GroupedAre(seqlens, uids, 1);
    var r := Grouped(seqlens, uids, 1).value;
    forall i: nat | i < |uids| ensures i in r[0] {
      var a, b := CoverMember(r, |uids|, i);
    }
    assert r[0] in r;
  }

  /** For every k that divides the number of groups: whatever the lengths, the samples of a uid stay together if and only if
      uids are contiguous or there is one partition. */
  lemma KeptTogetherIff<U(!new)>(uids: seq<U>, k: nat)
    requires |Runs(uids, |uids|)| >= k > 0 && Multiple(|Runs(uids, |uids|)|, k)
    ensures AlwaysTogether(uids, k) <==> Contiguous(uids) || k == 1
  {
    hide Grouped, Runs, Covers, SpreadAtMost, Bounds, Together;
    if Contiguous(uids) || k == 1 {
      forall seqlens: seq<nat> | |seqlens| == |uids|
        ensures Grouped(seqlens, uids, k).Success? && KeptTogether(uids, Grouped(seqlens, uids, k).value)
      {
        GroupedIff(seqlens, uids, k);
        GroupedAre(seqlens, uids, k);
        if k == 1 { OnePartTogether(seqlens, uids); }
      }
    } else {
      var i, j, l :| 0 <= i < j < l < |uids| && uids[i] == uids[l] && uids[j] != uids[i];
      var seqlens := InterruptedTorn(uids, k, i, j, l);
      assert !KeptTogether(uids, Grouped(seqlens, uids, k).value);
    }
  }

  /** With as many partitions as groups, that holds for each list of lengths. */
  lemma OneGroupEachIff<U(!new)>(seqlens: seq<nat>, uids: seq<U>)
    requires |seqlens| == |uids| > 0
    ensures var r := Grouped(seqlens, uids, |Runs(uids, |uids|)|);
      r.Success? && (KeptTogether(uids, r.value) <==> Contiguous(uids))
  {
    hide Balanced, Runs, SortNats, Covers, SampleParts, SpreadAtMost, Bounds;
    var groups := Runs(uids, |uids|);
    var k, work := |groups|, GroupWork(seqlens, groups);
    DivMod(k, 1, 0, k);
    GroupedIff(seqlens, uids, k);
    GroupedAre(seqlens, uids, k);
    if !Contiguous(uids) {
      BalancedPartitionsAre(work, k, true);
      var parts := Balanced(work, k, true).value;
      forall p | p in parts ensures |p| == 1 {
        OneOf(|p|, k);
      }
      var i, j, l :| 0 <= i < j < l < |uids| && uids[i] == uids[l] && uids[j] != uids[i];
      InterruptedSeparated(uids, parts, i, j, l);
    }
  }

  lemma OneOf(c: nat, k: nat)
    requires c * k == k > 0
    ensures c == 1
  {
    assert (c - 1) * k == c * k - k;
    if c > 1 {
      MulAtLeast(c - 1, k);
    }
  }
}
