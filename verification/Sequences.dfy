/** Index lists, sums, concatenation and occurrences in sequences. */
module Sequences {
  predicate Below(idx: seq<nat>, n: nat) {
    forall i | 0 <= i < |idx| :: idx[i] < n
  }

  ghost predicate Distinct<T>(s: seq<T>) {
    forall i, j | 0 <= i < j < |s| :: s[i] != s[j]
  }

  /** `s[idx]`, for an index list */
  function Select<T>(s: seq<T>, idx: seq<nat>): (r: seq<T>)
    requires Below(idx, |s|)
    ensures |r| == |idx|
  {
    seq(|idx|, i requires 0 <= i < |idx| => s[idx[i]])
  }

  function Total(s: seq<nat>): nat {
    if s == [] then 0 else Total(s[..|s| - 1]) + s[|s| - 1]
  }

  /** How many elements a tensor of this shape has. */
  function Numel(shape: seq<nat>): nat {
    if shape == [] then 1 else shape[0] * Numel(shape[1..])
  }

  function Concat<T>(parts: seq<seq<T>>): seq<T> {
    if parts == [] then [] else parts[0] + Concat(parts[1..])
  }

  lemma {:induction false} ConcatSplit<T>(a: seq<seq<T>>, b: seq<seq<T>>)
    ensures Concat(a + b) == Concat(a) + Concat(b)
  {
    if a == [] {
      assert a + b == b;
    } else {
      assert (a + b)[1..] == a[1..] + b;
      ConcatSplit(a[1..], b);
    }
  }

  lemma ConcatPush<T>(parts: seq<seq<T>>, p: seq<T>)
    ensures Concat(parts + [p]) == Concat(parts) + p
  {
    ConcatSplit(parts, [p]);
    assert Concat([p]) == p;
  }

  lemma ConcatNext<T>(parts: seq<seq<T>>, i: nat)
    requires i < |parts|
    ensures Concat(parts[..i + 1]) == Concat(parts[..i]) + parts[i]
  {
    assert parts[..i + 1] == parts[..i] + [parts[i]];
    ConcatPush(parts[..i], parts[i]);
  }

  lemma {:induction false} ConcatPrefix<T>(parts: seq<seq<T>>, n: nat)
    requires n <= |parts|
    ensures Concat(parts) == Concat(parts[..n]) + Concat(parts[n..])
  {
    assert parts == parts[..n] + parts[n..];
    ConcatSplit(parts[..n], parts[n..]);
  }

  /** The sum of f over a sequence. */
  function SumBy<T>(f: T -> int, xs: seq<T>): int {
    if xs == [] then 0 else SumBy(f, xs[..|xs| - 1]) + f(xs[|xs| - 1])
  }

  lemma {:induction false} SumByUpdate<T>(f: T -> int, xs: seq<T>, i: nat, x: T)
    requires i < |xs|
    ensures SumBy(f, xs[i := x]) == SumBy(f, xs) - f(xs[i]) + f(x)
    decreases |xs|
  {
    var n := |xs| - 1;
    if i == n {
      assert xs[i := x][..n] == xs[..n];
    } else {
      assert xs[i := x][..n] == xs[..n][i := x];
      SumByUpdate(f, xs[..n], i, x);
    }
  }

  lemma {:induction false} ConcatLength<T>(parts: seq<seq<T>>, c: nat)
    requires forall p | p in parts :: |p| == c
    ensures |Concat(parts)| == |parts| * c
  {
    if parts != [] {
      ConcatLength(parts[1..], c);
      assert parts[0] in parts;
      assert |Concat(parts)| == c + |Concat(parts[1..])|;
      hide Concat;
      assert |parts[1..]| * c + c == |parts| * c;
    }
  }

  lemma {:induction false} PartOfConcat<T>(parts: seq<seq<T>>, i: nat)
    requires i < |parts|
    ensures multiset(parts[i]) <= multiset(Concat(parts))
    decreases i
  {
    if i > 0 { PartOfConcat(parts[1..], i - 1); }
  }

  lemma TwiceCounts<T>(s: seq<T>, i: nat, j: nat)
    requires i < j < |s|
    ensures s[i] == s[j] ==> multiset(s)[s[i]] >= 2
  {
    assert s == s[..i] + [s[i]] + s[i + 1..j] + [s[j]] + s[j + 1..];
  }

  lemma SameMembers<T>(a: seq<T>, b: seq<T>)
    requires multiset(a) == multiset(b)
    ensures |a| == |b| && forall x :: x in a <==> x in b
  {
    assert |multiset(a)| == |multiset(b)|;
    forall x ensures x in a <==> x in b {
      assert x in a <==> x in multiset(a);
      assert x in b <==> x in multiset(b);
    }
  }
}
