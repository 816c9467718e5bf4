/**
  The bubble-reducing order used for micro-batches (verl/utils/seqlen_balancing.py) and within each
  data-parallel partition (verl/trainer/sft_trainer_ray.py): sort by workload, then put every other
  element on either side of the largest.
*/
module Interleave {
  /** `s[::2]` */
  function Evens<T>(s: seq<T>): (r: seq<T>)
    ensures |r| == (|s| + 1) / 2
  {
    seq((|s| + 1) / 2, i requires 0 <= i < (|s| + 1) / 2 => s[2 * i])
  }

  /** `s[1::2]` */
  function Odds<T>(s: seq<T>): (r: seq<T>)
    ensures |r| == |s| / 2
  {
    seq(|s| / 2, i requires 0 <= i < |s| / 2 => s[2 * i + 1])
  }

  /** `s[::-1]` */
  function Reverse<T>(s: seq<T>): (r: seq<T>)
    ensures |r| == |s|
  {
    seq(|s|, i requires 0 <= i < |s| => s[|s| - 1 - i])
  }

  /** For a decreasing list: `s[::2][::-1] + s[1::2]` */
  function LargestInside<T>(s: seq<T>): (r: seq<T>)
    ensures |r| == |s|
  {
    Reverse(Evens(s)) + Odds(s)
  }

  /** For an increasing list: `s[::2] + s[1::2][::-1]` */
  function UpThenDown<T>(s: seq<T>): (r: seq<T>)
    ensures |r| == |s|
  {
    Evens(s) + Reverse(Odds(s))
  }

  lemma {:induction false} ReverseKeeps<T>(s: seq<T>)
    ensures multiset(Reverse(s)) == multiset(s)
  {
    if s != [] {
      ReverseKeeps(s[1..]);
      assert Reverse(s) == Reverse(s[1..]) + [s[0]];
      assert s == [s[0]] + s[1..];
    }
  }

  lemma {:induction false} HalvesKeep<T>(s: seq<T>)
    ensures multiset(Evens(s)) + multiset(Odds(s)) == multiset(s)
  {
    if s != [] {
      HalvesKeep(s[1..]);
      assert Evens(s) == [s[0]] + Odds(s[1..]);
      assert Odds(s) == Evens(s[1..]);
      assert s == [s[0]] + s[1..];
    }
  }

  /** Both orders only permute. */
  lemma BothPermute<T>(s: seq<T>)
    ensures multiset(LargestInside(s)) == multiset(s)
    ensures multiset(UpThenDown(s)) == multiset(s)
  {
    HalvesKeep(s);
    ReverseKeeps(Evens(s));
    ReverseKeeps(Odds(s));
  }

  /** Rises up to the peak and falls after it. */
  ghost predicate Mountain(w: seq<int>, peak: nat) {
    && peak < |w|
    && (forall i, j | 0 <= i < j <= peak :: w[i] <= w[j])
    && (forall i, j | peak <= i < j < |w| :: w[i] >= w[j])
  }

  ghost predicate Falling(w: seq<int>) {
    forall i, j | 0 <= i < j < |w| :: w[i] >= w[j]
  }

  ghost predicate Climbing(w: seq<int>) {
    forall i, j | 0 <= i < j < |w| :: w[i] <= w[j]
  }

  /** Where each place of the order comes from. */
  lemma LargestInsideAt<T>(s: seq<T>, i: nat)
    requires i < |s|
    ensures LargestInside(s)[i] == s[if i < (|s| + 1) / 2 then 2 * ((|s| + 1) / 2 - 1 - i) else 2 * (i - (|s| + 1) / 2) + 1]
  {
  }

  lemma UpThenDownAt<T>(s: seq<T>, i: nat)
    requires i < |s|
    ensures UpThenDown(s)[i] == s[if i < (|s| + 1) / 2 then 2 * i else 2 * (|s| - 1 - i) + 1]
  {
  }

  /** The largest of a decreasing list ends up at the junction, and the rest falls off on both sides. */
  lemma LargestInsideIsMountain(w: seq<int>)
    requires w != [] && Falling(w)
    ensures Mountain(LargestInside(w), (|w| - 1) / 2) && LargestInside(w)[(|w| - 1) / 2] == w[0]
  {
    var m := LargestInside(w);
    forall i: nat | i < |w| ensures m[i] == w[if i < (|w| + 1) / 2 then 2 * ((|w| + 1) / 2 - 1 - i) else 2 * (i - (|w| + 1) / 2) + 1] {
      LargestInsideAt(w, i);
    }
    hide LargestInside;
  }

  /** The same for an increasing list. */
  lemma UpThenDownIsMountain(w: seq<int>)
    requires w != [] && Climbing(w)
    ensures Mountain(UpThenDown(w), |w| / 2) && UpThenDown(w)[|w| / 2] == w[|w| - 1]
  {
    var m := UpThenDown(w);
    forall i: nat | i < |w| ensures m[i] == w[if i < (|w| + 1) / 2 then 2 * i else 2 * (|w| - 1 - i) + 1] {
      UpThenDownAt(w, i);
    }
    hide UpThenDown;
  }
}
