/**
  Fanning a batch out over workers, as verl/protocol.py and verl/utils/tensordict_utils.py do it: pad to
  a multiple of the number of workers by repeating rows, chunk, let each worker do its rows,
  concatenate, and drop the padding. A batch is a dictionary of columns of equal length; tensor columns
  are split by torch, the others by numpy at the places where the tensors were split.
*/
module FanOut {
  import opened Sequences
  import opened Arithmetic
  import opened Wrappers
  import opened BalancedPartitions
  import opened TorchChunk

  datatype Failed = DivisionByZero | NotDivisible | NothingToConcat

  /** The columns, and which of them are tensors. */
  datatype Batch<T> = Batch(cols: map<string, seq<T>>, tensors: set<string>)

  /** check_consistency: n rows in every column. */
  ghost predicate HasRows<T>(b: Batch<T>, n: nat) {
    && b.tensors <= b.cols.Keys && (b.cols == map[] ==> n == 0)
    && forall k | k in b.cols :: |b.cols[k]| == n
  }

  /** `data[lo:hi]` */
  function RowRange<T>(b: Batch<T>, lo: nat, hi: nat): Batch<T> {
    Batch(map k | k in b.cols :: Slice(b.cols[k], lo, hi), b.tensors)
  }

  // ----- concat ------------------------------------------------------------------------------

  predicate Alike<T>(batches: seq<Batch<T>>) {
    forall i | 0 <= i < |batches| :: batches[i].cols.Keys == batches[0].cols.Keys && batches[i].tensors == batches[0].tensors
  }

  function Columns<T>(batches: seq<Batch<T>>, k: string): (r: seq<seq<T>>)
    requires forall i | 0 <= i < |batches| :: k in batches[i].cols
    ensures |r| == |batches|
  {
    seq(|batches|, i requires 0 <= i < |batches| => batches[i].cols[k])
  }

  function Joined<T>(batches: seq<Batch<T>>): Batch<T>
    requires batches != [] && Alike(batches)
  {
    Batch(map k | k in batches[0].cols :: Concat(Columns(batches, k)), batches[0].tensors)
  }

  method ConcatBatches<T>(batches: seq<Batch<T>>) returns (r: Result<Batch<T>, Failed>)
    requires Alike(batches)
    ensures r == if batches == [] then Failure(NothingToConcat) else Success(Joined(batches))
  {
    if batches == [] { return Failure(NothingToConcat); }
    var cols: map<string, seq<T>> := map[];
    var keys := batches[0].cols.Keys;
    while keys != {}
      invariant keys <= batches[0].cols.Keys
      invariant cols == map k | k in batches[0].cols.Keys - keys :: Concat(Columns(batches, k))
      decreases |keys|
    {
      var k :| k in keys;
      cols := cols[k := Concat(Columns(batches, k))];
      keys := keys - {k};
    }
    assert batches[0].cols.Keys - keys == batches[0].cols.Keys;
    assert cols == Joined(batches).cols;
    r := Success(Batch(cols, batches[0].tensors));
  }

  // ----- chunk -------------------------------------------------------------------------------

  function CumSum(lens: seq<nat>): (r: seq<nat>)
    ensures |r| == |lens|
    decreases |lens|
  {
    if lens == [] then []
    else
      var r := CumSum(lens[..|lens| - 1]);
      r + [(if r == [] then 0 else r[|r| - 1]) + lens[|lens| - 1]]
  }

  function Lengths<T>(pieces: seq<seq<T>>): (r: seq<nat>)
    ensures |r| == |pieces|
  {
    seq(|pieces|, i requires 0 <= i < |pieces| => |pieces[i]|)
  }

  /** `np.array_split(s, cuts)` with cut places */
  function SplitAt<T>(s: seq<T>, cuts: seq<nat>): (r: seq<seq<T>>)
    ensures |r| == |cuts| + 1
  {
    seq(|cuts| + 1, i requires 0 <= i <= |cuts| =>
      Slice(s, if i == 0 then 0 else cuts[i - 1], if i == |cuts| then |s| else cuts[i]))
  }

  /** `np.array_split(s, n)`: the first len % n pieces have one row more. */
  function SplitInto<T>(s: seq<T>, n: nat): (r: seq<seq<T>>)
    requires n > 0
    ensures |r| == n
  {
    seq(n, i requires 0 <= i < n => Slice(s, SplitPlace(|s|, n, i), SplitPlace(|s|, n, i + 1)))
  }

  function SplitPlace(len: nat, n: nat, i: nat): nat
    requires n > 0
  {
    i * Div(len, n) + Min(i, len % n)
  }

  /** How one column is split. */
  function SplitColumn<T>(col: seq<T>, isTensor: bool, cuts: Option<seq<nat>>, chunks: nat): seq<seq<T>>
    requires chunks > 0
  {
    if isTensor then Chunks(col, chunks)
    else if cuts.Some? then SplitAt(col, cuts.value)
    else SplitInto(col, chunks)
  }

  /** Piece i of c equal pieces. */
  function EvenPiece<T>(s: seq<T>, size: nat, i: nat): seq<T> {
    Slice(s, i * size, (i + 1) * size)
  }

  /** c even pieces. */
  ghost predicate SplitEvenly<T>(pieces: seq<seq<T>>, s: seq<T>, size: nat, c: nat) {
    |pieces| == c && forall i | 0 <= i < c :: pieces[i] == EvenPiece(s, size, i)
  }

  lemma GroupIsPiece<T>(s: seq<T>, size: nat, c: nat, i: nat)
    requires |s| == c * size && i < c
    ensures (i + 1) * size <= |s| && Group(s, size, i) == EvenPiece(s, size, i) && |EvenPiece(s, size, i)| == size
  {
    BlockBefore(i, c, size);
  }

  lemma TorchSplitsEvenly<T>(s: seq<T>, size: nat, c: nat)
    requires c > 0 && |s| == c * size
    ensures SplitEvenly(Chunks(s, c), s, size, c) && forall i | 0 <= i < c :: |Chunks(s, c)[i]| == size
  {
    ChunksEven(s, size, c, 0);
    forall i | 0 <= i < c ensures Chunks(s, c)[i] == EvenPiece(s, size, i) && |EvenPiece(s, size, i)| == size {
      ChunksEven(s, size, c, i);
      GroupIsPiece(s, size, c, i);
    }
  }

  lemma {:induction false} CumSumEven(lens: seq<nat>, size: nat, i: nat)
    requires i < |lens| && forall j | 0 <= j < |lens| :: lens[j] == size
    ensures CumSum(lens)[i] == (i + 1) * size
    decreases |lens|
  {
    var n := |lens| - 1;
    if i < n {
      CumSumEven(lens[..n], size, i);
    } else if n > 0 {
      CumSumEven(lens[..n], size, n - 1);
      assert (i + 1) * size == n * size + size;
    }
  }

  /** Where piece i of an even split begins. */
  lemma CutPlace(lens: seq<nat>, size: nat, c: nat, i: nat)
    requires |lens| == c && 0 < i < c && forall j | 0 <= j < c :: lens[j] == size
    ensures CumSum(lens)[..c - 1][i - 1] == i * size
  {
    CumSumEven(lens, size, i - 1);
  }

  lemma CutPiece<T>(s: seq<T>, cuts: seq<nat>, size: nat, c: nat, i: nat)
    requires i < c && |cuts| == c - 1 && |s| == c * size
    requires forall j: nat | 0 < j < c :: cuts[j - 1] == j * size
    ensures SplitAt(s, cuts)[i] == EvenPiece(s, size, i)
  {
    hide Slice;
    assert i > 0 ==> cuts[i - 1] == i * size;
    if i < c - 1 {
      var j := i + 1;
      assert cuts[j - 1] == j * size;
    }
  }

  /** numpy splits the other columns where torch split the tensors. */
  lemma CutsSplitEvenly<T>(s: seq<T>, lens: seq<nat>, size: nat, c: nat)
    requires c > 0 && |s| == c * size && |lens| == c && forall j | 0 <= j < c :: lens[j] == size
    ensures SplitEvenly(SplitAt(s, CumSum(lens)[..c - 1]), s, size, c)
  {
    hide SplitAt, EvenPiece, CumSum;
    var cuts := CumSum(lens)[..c - 1];
    forall j: nat | 0 < j < c ensures cuts[j - 1] == j * size {
      CutPlace(lens, size, c, j);
    }
    forall i: nat | i < c ensures SplitAt(s, cuts)[i] == EvenPiece(s, size, i) {
      CutPiece(s, cuts, size, c, i);
    }
  }

  lemma IntoSplitsEvenly<T>(s: seq<T>, size: nat, c: nat)
    requires c > 0 && |s| == c * size
    ensures SplitEvenly(SplitInto(s, c), s, size, c)
  {
    DivMod(|s|, size, 0, c);
  }

  /** Piece i of the batch. */
  function Piece<T>(b: Batch<T>, size: nat, i: nat): Batch<T> {
    Batch(map k | k in b.cols :: EvenPiece(b.cols[k], size, i), b.tensors)
  }

  function Pieces<T>(b: Batch<T>, size: nat, c: nat): (r: seq<Batch<T>>)
    ensures |r| == c
  {
    seq(c, i requires 0 <= i < c => Piece(b, size, i))
  }

  /** `np.cumsum(bsz_in_batch)[:-1]` of the chunks of a tensor column */
  function CutsOf<T>(col: seq<T>, c: nat): seq<nat>
    requires c > 0
  {
    var sums := CumSum(Lengths(Chunks(col, c)));
    if sums == [] then [] else sums[..|sums| - 1]
  }

  lemma CutsOfSplitEvenly<T>(s: seq<T>, t: seq<T>, size: nat, c: nat)
    requires c > 0 && |s| == |t| == c * size
    ensures SplitEvenly(SplitAt(s, CutsOf(t, c)), s, size, c)
  {
    hide Chunks, SplitAt, EvenPiece, CumSum;
    TorchSplitsEvenly(t, size, c);
    CutsSplitEvenly(s, Lengths(Chunks(t, c)), size, c);
  }

  /** Every column is split at the same places, whichever library splits it. */
  lemma ColumnSplitsEvenly<T>(b: Batch<T>, k: string, t: string, size: nat, c: nat)
    requires c > 0 && HasRows(b, c * size) && k in b.cols
    ensures SplitEvenly(SplitColumn(b.cols[k], k in b.tensors, None, c), b.cols[k], size, c)
    ensures t in b.cols ==>
      SplitEvenly(SplitColumn(b.cols[k], k in b.tensors, Some(CutsOf(b.cols[t], c)), c), b.cols[k], size, c)
  {
    hide Chunks, SplitAt, SplitInto, CutsOf, SplitEvenly;
    TorchSplitsEvenly(b.cols[k], size, c);
    IntoSplitsEvenly(b.cols[k], size, c);
    if t in b.cols { CutsOfSplitEvenly(b.cols[k], b.cols[t], size, c); }
  }

  /** The loop over the columns: piece i of every column goes to list i. */
  method SplitColumns<T>(b: Batch<T>, chunks: nat, cuts: Option<seq<nat>>, ghost size: nat)
    returns (lists: seq<map<string, seq<T>>>)
    requires chunks > 0
    requires forall k | k in b.cols ::
      SplitEvenly(SplitColumn(b.cols[k], k in b.tensors, cuts, chunks), b.cols[k], size, chunks)
    ensures |lists| == chunks && forall i | 0 <= i < chunks :: lists[i] == Part(b, size, i, b.cols.Keys)
  {
    hide SplitColumn, SplitEvenly, Part;
    lists := seq(chunks, _ => map[]);
    var keys, done := b.cols.Keys, {};
    NothingSplit(b, size);
    while keys != {}
      invariant keys + done == b.cols.Keys && |lists| == chunks
      invariant forall i | 0 <= i < chunks :: lists[i] == Part(b, size, i, done)
      decreases |keys|
    {
      var key :| key in keys;
      var pieces := SplitColumn(b.cols[key], key in b.tensors, cuts, chunks);
      lists := AddPieces(b, key, lists, pieces, size, done);
      keys, done := keys - {key}, done + {key};
    }
    assert done == b.cols.Keys;
  }

  lemma NothingSplit<T>(b: Batch<T>, size: nat)
    ensures forall i: nat :: Part(b, size, i, {}) == map[]
  {
  }

  /** The places where the tensors are split. */
  method TensorCuts<T>(b: Batch<T>, chunks: nat, ghost size: nat) returns (cuts: Option<seq<nat>>)
    requires chunks > 0 && HasRows(b, chunks * size)
    ensures forall k | k in b.cols ::
      SplitEvenly(SplitColumn(b.cols[k], k in b.tensors, cuts, chunks), b.cols[k], size, chunks)
  {
    cuts := None;
    ghost var tensor := "";
    if b.tensors != {} {
      var t :| t in b.tensors;
      cuts := Some(CutsOf(b.cols[t], chunks));
      tensor := t;
    }
    forall k | k in b.cols
      ensures SplitEvenly(SplitColumn(b.cols[k], k in b.tensors, cuts, chunks), b.cols[k], size, chunks)
    {
      ColumnSplitsEvenly(b, k, tensor, size, chunks);
    }
  }

  /** DataProto.chunk */
  method Chunk<T>(b: Batch<T>, n: nat, chunks: nat) returns (r: Result<seq<Batch<T>>, Failed>)
    requires HasRows(b, n)
    ensures r == if chunks == 0 then Failure(DivisionByZero) else if !Multiple(n, chunks) then Failure(NotDivisible)
                 else Success(Pieces(b, Div(n, chunks), chunks))
  {
    if chunks == 0 { return Failure(DivisionByZero); }
    if !Multiple(n, chunks) { return Failure(NotDivisible); }
    ghost var size := Div(n, chunks);
    assert n == chunks * size;
    hide Div, Multiple, SplitColumn, SplitEvenly, Part, Piece;
    var cuts := TensorCuts(b, chunks, size);
    var lists := SplitColumns(b, chunks, cuts, size);
    var output: seq<Batch<T>> := [];
    for i := 0 to chunks
      invariant |output| == i && forall j | 0 <= j < i :: output[j] == Piece(b, size, j)
    {
      PartIsAll(b, size, i);
      output := output + [Batch(lists[i], b.tensors)];
    }
    assert output == Pieces(b, size, chunks);
    r := Success(output);
  }

  /** The columns of piece i that have been split so far. */
  ghost function Part<T>(b: Batch<T>, size: nat, i: nat, done: set<string>): map<string, seq<T>>
    requires done <= b.cols.Keys
  {
    map k | k in done :: EvenPiece(b.cols[k], size, i)
  }

  lemma PartIsAll<T>(b: Batch<T>, size: nat, i: nat)
    ensures Batch(Part(b, size, i, b.cols.Keys), b.tensors) == Piece(b, size, i)
  {
    assert Part(b, size, i, b.cols.Keys) == Piece(b, size, i).cols;
  }

  method AddPieces<T>(
    ghost b: Batch<T>, key: string, lists: seq<map<string, seq<T>>>, pieces: seq<seq<T>>, ghost size: nat,
    ghost done: set<string>)
    returns (r: seq<map<string, seq<T>>>)
    requires key in b.cols && done <= b.cols.Keys && SplitEvenly(pieces, b.cols[key], size, |lists|)
    requires forall i | 0 <= i < |lists| :: lists[i] == Part(b, size, i, done)
    ensures |r| == |lists| && forall i | 0 <= i < |r| :: r[i] == Part(b, size, i, done + {key})
  {
    r := lists;
    for i := 0 to |lists|
      invariant |r| == |lists|
      invariant forall j | 0 <= j < |lists| :: r[j] == Part(b, size, j, if j < i then done + {key} else done)
    {
      r := r[i := r[i][key := pieces[i]]];
      assert r[i] == Part(b, size, i, done + {key});
    }
  }

  // ----- padding -----------------------------------------------------------------------------

  function PadSize(n: nat, d: nat): nat
    requires d > 0
  {
    if Multiple(n, d) then 0 else d - n % d
  }

  /** m rows, cycling through s */
  function Cycle<T>(s: seq<T>, m: nat): seq<T> {
    if s == [] then [] else seq(m, i requires 0 <= i < m => s[i % |s|])
  }

  function Padded<T>(b: Batch<T>, m: nat): Batch<T> {
    Batch(map k | k in b.cols :: b.cols[k] + Cycle(b.cols[k], m), b.tensors)
  }

  /** The padded length is the least multiple of d that holds n rows. */
  lemma PadReachesMultiple(n: nat, d: nat)
    requires d > 0
    ensures PadSize(n, d) < d && Multiple(n + PadSize(n, d), d)
  {
    var q, r := n / d, n % d;
    assert n == q * d + r;
    if r > 0 {
      assert n + PadSize(n, d) == (q + 1) * d;
      DivMod(n + PadSize(n, d), q + 1, 0, d);
    }
  }

  lemma CycleMore<T>(s: seq<T>, m: nat, take: nat)
    requires s != [] && take <= |s| && Multiple(m, |s|)
    ensures Cycle(s, m) + s[..take] == Cycle(s, m + take)
  {
    var n := |s|;
    var q := m / n;
    assert m == q * n;
    forall j: nat | j < take ensures Cycle(s, m + take)[m + j] == s[j] {
      if j < n { DivMod(m + j, q, j, n); }
    }
  }

  lemma MoreMultiples(m: nat, n: nat)
    requires n > 0 && Multiple(m, n)
    ensures Multiple(m + n, n)
  {
    var q := m / n;
    assert m + n == (q + 1) * n;
    DivMod(m + n, q + 1, 0, n);
  }

  /** The padding built so far cycles through the rows. */
  ghost predicate PaddingIs<T>(b: Batch<T>, protos: seq<Batch<T>>, m: nat) {
    && (forall i | 0 <= i < |protos| :: protos[i].cols.Keys == b.cols.Keys && protos[i].tensors == b.tensors)
    && forall k | k in b.cols :: Concat(Columns(protos, k)) == Cycle(b.cols[k], m)
  }

  lemma PaddingGrows<T>(b: Batch<T>, n: nat, protos: seq<Batch<T>>, m: nat, take: nat)
    requires HasRows(b, n) && PaddingIs(b, protos, m) && n > 0 && take <= n && Multiple(m, n)
    ensures PaddingIs(b, protos + [RowRange(b, 0, take)], m + take)
  {
    var last := RowRange(b, 0, take);
    forall k | k in b.cols ensures Concat(Columns(protos + [last], k)) == Cycle(b.cols[k], m + take) {
      assert Columns(protos + [last], k) == Columns(protos, k) + [last.cols[k]];
      ConcatSplit(Columns(protos, k), [last.cols[k]]);
      assert Concat([last.cols[k]]) == last.cols[k] == b.cols[k][..take];
      CycleMore(b.cols[k], m, take);
    }
  }

  lemma PaddedIsJoined<T>(b: Batch<T>, protos: seq<Batch<T>>, m: nat)
    requires PaddingIs(b, protos, m)
    ensures Alike([b] + protos) && Joined([b] + protos) == Padded(b, m)
  {
    var all := [b] + protos;
    forall k | k in b.cols ensures Concat(Columns(all, k)) == b.cols[k] + Cycle(b.cols[k], m) {
      assert Columns(all, k)[1..] == Columns(protos, k);
    }
    hide Cycle, Concat;
    assert Joined(all).cols == Padded(b, m).cols;
  }

  lemma NoPadding<T>(b: Batch<T>)
    ensures Padded(b, 0) == b && PaddingIs(b, [], 0)
  {
    forall k | k in b.cols ensures b.cols[k] + Cycle(b.cols[k], 0) == b.cols[k] {
    }
    assert Padded(b, 0).cols == b.cols;
  }

  lemma NextTake<T>(b: Batch<T>, n: nat, protos: seq<Batch<T>>, padSize: nat, remaining: nat)
    requires HasRows(b, n) && n > 0 && 0 < remaining <= padSize && Multiple(padSize - remaining, n)
    requires PaddingIs(b, protos, padSize - remaining)
    ensures var take := if remaining < n then remaining else n;
      && PaddingIs(b, protos + [RowRange(b, 0, take)], padSize - (remaining - take))
      && (remaining - take > 0 ==> Multiple(padSize - (remaining - take), n))
  {
    hide PaddingIs, RowRange, Multiple;
    PaddingGrows(b, n, protos, padSize - remaining, if remaining < n then remaining else n);
    MoreMultiples(padSize - remaining, n);
  }

  lemma ZeroMultiple(n: nat)
    requires n > 0
    ensures Multiple(0, n)
  {
    DivMod(0, 0, 0, n);
  }

  /** The padding loop, which ends because the batch is not empty. */
  method MakePadding<T>(b: Batch<T>, n: nat, padSize: nat) returns (paddingProtos: seq<Batch<T>>)
    requires HasRows(b, n) && n > 0
    ensures PaddingIs(b, paddingProtos, padSize)
  {
    hide PaddingIs, RowRange, Multiple, HasRows, Padded;
    NoPadding(b);
    ZeroMultiple(n);
    paddingProtos := [];
    var remainingPad: nat := padSize;
    while remainingPad > 0
      invariant remainingPad <= padSize && PaddingIs(b, paddingProtos, padSize - remainingPad)
      invariant remainingPad > 0 ==> Multiple(padSize - remainingPad, n)
      decreases remainingPad
    {
      var takeSize := if remainingPad < n then remainingPad else n;
      NextTake(b, n, paddingProtos, padSize, remainingPad);
      paddingProtos := paddingProtos + [RowRange(b, 0, takeSize)];
      remainingPad := remainingPad - takeSize;
    }
  }

  /** pad_dataproto_to_divisor and pad_to_divisor */
  method PadToDivisor<T>(b: Batch<T>, n: nat, d: nat) returns (r: Result<(Batch<T>, nat), Failed>)
    requires HasRows(b, n)
    ensures r == if d == 0 then Failure(DivisionByZero) else Success((Padded(b, PadSize(n, d)), PadSize(n, d)))
  {
    if d == 0 { return Failure(DivisionByZero); }
    if Multiple(n, d) {
      NoPadding(b);
      return Success((b, 0));
    }
    NotEmpty(n, d);
    var padSize := d - n % d;
    hide PaddingIs, Padded;
    var paddingProtos := MakePadding(b, n, padSize);
    PaddedIsJoined(b, paddingProtos, padSize);
    var padded := ConcatBatches([b] + paddingProtos);
    r := Success((padded.value, padSize));
  }

  lemma NotEmpty(n: nat, d: nat)
    requires d > 0 && !Multiple(n, d)
    ensures n > 0
  {
  }

  /** unpad_dataproto and unpad: `data[:-pad_size]` */
  function Unpad<T>(b: Batch<T>, n: nat, padSize: nat): Batch<T> {
    if padSize != 0 then RowRange(b, 0, if padSize <= n then n - padSize else 0) else b
  }

  // ----- the law -----------------------------------------------------------------------------

  lemma {:induction false} EvenPiecesConcat<T>(s: seq<T>, size: nat, c: nat, j: nat)
    requires |s| == c * size && j <= c
    ensures 0 <= j * size <= |s|
    ensures Concat(seq(j, i requires 0 <= i < j => EvenPiece(s, size, i))) == s[..j * size]
    decreases j
  {
    if j > 0 {
      BlockBefore(j - 1, c, size);
      EvenPiecesConcat(s, size, c, j - 1);
      var pieces := seq(j, i requires 0 <= i < j => EvenPiece(s, size, i));
      var front := seq(j - 1, i requires 0 <= i < j - 1 => EvenPiece(s, size, i));
      assert pieces == front + [EvenPiece(s, size, j - 1)];
      ConcatSplit(front, [EvenPiece(s, size, j - 1)]);
      assert Concat([EvenPiece(s, size, j - 1)]) == EvenPiece(s, size, j - 1);
    }
  }

  /** Concatenating the chunks gives the batch back. */
  lemma ConcatUndoesChunk<T>(b: Batch<T>, size: nat, c: nat)
    requires c > 0 && HasRows(b, c * size)
    ensures Alike(Pieces(b, size, c)) && Joined(Pieces(b, size, c)) == b
  {
    var pieces := Pieces(b, size, c);
    forall k | k in b.cols ensures Concat(Columns(pieces, k)) == b.cols[k] {
      var s := b.cols[k];
      assert Columns(pieces, k) == seq(c, i requires 0 <= i < c => EvenPiece(s, size, i));
      EvenPiecesConcat(s, size, c, c);
      assert s[..c * size] == s;
    }
    hide Concat, EvenPiece;
    assert Joined(pieces).cols == b.cols;
  }

  /** f treats each row by itself: of a range of rows it makes that range of what it makes of all. */
  ghost predicate RowWise<T(!new), U(!new)>(f: Batch<T> -> Batch<U>, b: Batch<T>, n: nat) {
    && HasRows(f(b), n)
    && forall lo: nat, hi: nat | lo <= hi <= n :: f(RowRange(b, lo, hi)) == RowRange(f(b), lo, hi)
  }

  function Each<T, U>(f: Batch<T> -> Batch<U>, pieces: seq<Batch<T>>): (r: seq<Batch<U>>)
    ensures |r| == |pieces|
  {
    seq(|pieces|, i requires 0 <= i < |pieces| => f(pieces[i]))
  }

  lemma PieceIsRange<T>(b: Batch<T>, size: nat, i: nat)
    ensures 0 <= i * size <= (i + 1) * size && Piece(b, size, i) == RowRange(b, i * size, (i + 1) * size)
  {
    BlockBefore(i, i + 1, size);
    assert Piece(b, size, i).cols == RowRange(b, i * size, (i + 1) * size).cols;
  }

  /** The workers' results, joined, are the result for the whole padded batch. */
  lemma WorkersTogether<T(!new), U(!new)>(f: Batch<T> -> Batch<U>, b: Batch<T>, size: nat, c: nat)
    requires c > 0 && HasRows(b, c * size) && RowWise(f, b, c * size)
    ensures Alike(Each(f, Pieces(b, size, c))) && Joined(Each(f, Pieces(b, size, c))) == f(b)
  {
    forall i: nat | i < c ensures f(Piece(b, size, i)) == Piece(f(b), size, i) {
      BlockBefore(i, c, size);
      PieceIsRange(b, size, i);
      PieceIsRange(f(b), size, i);
    }
    hide Piece;
    assert Each(f, Pieces(b, size, c)) == Pieces(f(b), size, c);
    ConcatUndoesChunk(f(b), size, c);
  }

  lemma FirstRows<T>(b: Batch<T>, n: nat, m: nat)
    requires HasRows(b, n) && (n == 0 ==> m == 0)
    ensures HasRows(Padded(b, m), n + m) && RowRange(Padded(b, m), 0, n) == b
  {
    forall k | k in b.cols ensures Slice(b.cols[k] + Cycle(b.cols[k], m), 0, n) == b.cols[k] {
    }
    assert RowRange(Padded(b, m), 0, n).cols == b.cols;
  }

  /** Padding, chunking over the workers, working row by row, concatenating and unpadding is the same as working on the
      batch, for every batch, every divisor and every number of workers that divides it. */
  lemma FanOutLaw<T(!new), U(!new)>(f: Batch<T> -> Batch<U>, b: Batch<T>, n: nat, d: nat, workers: nat)
    requires HasRows(b, n) && d > 0 && workers > 0 && Multiple(d, workers)
    requires RowWise(f, Padded(b, PadSize(n, d)), n + PadSize(n, d))
    ensures Multiple(n + PadSize(n, d), workers)
    ensures var pad, total := PadSize(n, d), n + PadSize(n, d);
      var outs := Each(f, Pieces(Padded(b, pad), Div(total, workers), workers));
      Alike(outs) && Unpad(Joined(outs), total, pad) == f(b)
  {
    hide Padded, Pieces, Each, Joined, RowRange, HasRows, Alike, RowWise, PadSize;
    var pad, total := PadSize(n, d), n + PadSize(n, d);
    PadReachesMultiple(n, d);
    MultipleOfMultiple(total, d, workers);
    EmptyNeedsNone(n, d);
    FirstRows(b, n, pad);
    var q := Padded(b, pad);
    assert total == workers * Div(total, workers);
    hide Multiple, Div;
    WorkersTogether(f, q, Div(total, workers), workers);
    RowWiseAt(f, q, total, 0, n);
    WholeRange(f(q), total);
  }

  lemma RowWiseAt<T(!new), U(!new)>(f: Batch<T> -> Batch<U>, b: Batch<T>, n: nat, lo: nat, hi: nat)
    requires RowWise(f, b, n) && lo <= hi <= n
    ensures HasRows(f(b), n) && f(RowRange(b, lo, hi)) == RowRange(f(b), lo, hi)
  {
  }

  lemma EmptyNeedsNone(n: nat, d: nat)
    requires d > 0
    ensures n == 0 ==> PadSize(n, d) == 0
  {
    DivMod(0, 0, 0, d);
  }

  lemma WholeRange<T>(b: Batch<T>, n: nat)
    requires HasRows(b, n)
    ensures RowRange(b, 0, n) == b
  {
    forall k | k in b.cols ensures Slice(b.cols[k], 0, n) == b.cols[k] {
    }
    assert RowRange(b, 0, n).cols == b.cols;
  }

  lemma MultipleOfMultiple(n: nat, d: nat, w: nat)
    requires d > 0 && w > 0 && Multiple(n, d) && Multiple(d, w)
    ensures Multiple(n, w)
  {
    var q, r := n / d, d / w;
    assert n == q * d && d == r * w;
    assert q * (r * w) == (q * r) * w;
    DivMod(n, q * r, 0, w);
  }
}
