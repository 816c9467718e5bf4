/** Slicing and chunking as Python and torch do it. */
module TorchChunk {
  import opened Arithmetic

  /** Python's `s[lo:hi]` for non-negative bounds. */
  function Slice<T>(s: seq<T>, lo: nat, hi: nat): seq<T> {
    var h := Min(hi, |s|);
    if lo <= h then s[lo..h] else []
  }

  /** `tensor.chunk(n)`: pieces of ceil(len / n) rows, the last one shorter, possibly fewer than n pieces. */
  function Chunks<T>(s: seq<T>, n: nat): seq<seq<T>>
    requires n > 0
  {
    if s == [] then seq(n, _ => []) else Pieces(s, Div(|s| + n - 1, n))
  }

  function Pieces<T>(s: seq<T>, size: nat): seq<seq<T>>
    decreases |s|
  {
    if s == [] || size == 0 then []
    else if |s| <= size then [s]
    else [s[..size]] + Pieces(s[size..], size)
  }

  lemma {:induction false} PiecesShape<T>(s: seq<T>, size: nat)
    requires size > 0
    ensures var p := Pieces(s, size);
      && (forall i | 0 <= i < |p| :: 0 < |p[i]| <= size && (i < |p| - 1 ==> |p[i]| == size))
      && (|p| - 1) * size < |s| + (if s == [] then 1 else 0) && |s| <= |p| * size
    decreases |s|
  {
    if |s| > size {
      var rest := Pieces(s[size..], size);
      PiecesShape(s[size..], size);
      assert Pieces(s, size) == [s[..size]] + rest;
      assert |rest| * size == (|rest| - 1) * size + size && (|rest| + 1) * size == |rest| * size + size;
    }
  }

  /** At most n pieces of the least size with which n of them hold the tensor; only the last one may be shorter. */
  lemma ChunksShape<T>(s: seq<T>, n: nat) returns (size: nat)
    requires n > 0 && s != []
    ensures |s| <= n * size && (size - 1) * n < |s| && |Chunks(s, n)| <= n
    ensures forall i | 0 <= i < |Chunks(s, n)| ::
      0 < |Chunks(s, n)[i]| <= size && (i < |Chunks(s, n)| - 1 ==> |Chunks(s, n)[i]| == size)
  {
    size := Div(|s| + n - 1, n);
    var r := (|s| + n - 1) % n;
    assert |s| + n - 1 == size * n + r;
    assert (size - 1) * n == size * n - n;
    PiecesShape(s, size);
    var p := Pieces(s, size);
    if |p| > n {
      MulMono(n, |p| - 1, size);
    }
  }

  /** Block g of b elements. */
  function Group<T>(full: seq<T>, b: nat, g: nat): seq<T>
    requires (g + 1) * b <= |full|
  {
    assert g * b + b == (g + 1) * b;
    full[g * b..g * b + b]
  }

  lemma {:induction false} PiecesEven<T>(s: seq<T>, b: nat, n: nat, j: nat)
    requires b > 0 && |s| == n * b && j < n
    ensures |Pieces(s, b)| == n && (j + 1) * b <= |s| && Pieces(s, b)[j] == Group(s, b, j)
    decreases n
  {
    BlockBefore(j, n, b);
    if n == 1 {
      assert j == 0;
    } else {
      BlockBefore(1, n, b);
      assert |s[b..]| == (n - 1) * b;
      PiecesEven(s[b..], b, n - 1, if j == 0 then 0 else j - 1);
      if j > 0 {
        BlockBefore(j - 1, n - 1, b);
        assert (j - 1) * b + b == j * b;
        assert s[b..][(j - 1) * b..(j - 1) * b + b] == s[j * b..j * b + b];
      }
    }
  }

  /** A part of n equal groups is cut into exactly those groups. */
  lemma ChunksEven<T>(s: seq<T>, b: nat, n: nat, j: nat)
    requires n > 0 && |s| == n * b && j < n
    ensures |Chunks(s, n)| == n && (j + 1) * b <= |s| && Chunks(s, n)[j] == Group(s, b, j)
  {
    BlockBefore(j, n, b);
    if b == 0 {
      assert s == [];
    } else {
      MulAtLeast(n, b);
      DivMod(|s| + n - 1, b, n - 1, n);
      PiecesEven(s, b, n, j);
    }
  }
}
