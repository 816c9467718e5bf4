/**
  The packing loop that verl/checkpoint_engine/nccl_checkpoint_engine.py and
  nixl_checkpoint_engine.py share: chunks are placed one after another into a buffer of
  `bucketSize` bytes, and the bucket is shipped when the next chunk does not fit.
*/
module Buckets {
  import opened Arithmetic
  import opened Sequences
  import opened Wrappers
  import opened WeightChunks

  /** The buckets shipped so far, and `bucket_meta` (with its bytes) and `offset` of the one being filled. */
  datatype Packing = Packing(closed: seq<seq<Chunk>>, open: seq<Chunk>, offset: nat)

  const NOTHING_PACKED := Packing([], [], 0)

  predicate Fits(p: Packing, c: Chunk, bucketSize: nat) {
    p.offset + c.meta.chunkSize <= bucketSize
  }

  function Ship(p: Packing): Packing {
    Packing(p.closed + [p.open], [], 0)
  }

  function PlaceAt(c: Chunk, offset: nat): Chunk {
    c.(meta := c.meta.(offset := Some(offset)))
  }

  function Place(p: Packing, c: Chunk): Packing {
    p.(open := p.open + [PlaceAt(c, p.offset)], offset := p.offset + c.meta.chunkSize)
  }

  function PackOne(p: Packing, c: Chunk, bucketSize: nat): Packing {
    Place(if Fits(p, c, bucketSize) then p else Ship(p), c)
  }

  function Pack(cs: seq<Chunk>, bucketSize: nat): Packing {
    if cs == [] then NOTHING_PACKED
    else PackOne(Pack(cs[..|cs| - 1], bucketSize), cs[|cs| - 1], bucketSize)
  }

  /** All buckets, the last one included even when it is empty. */
  function BucketsOf(cs: seq<Chunk>, bucketSize: nat): seq<seq<Chunk>> {
    Ship(Pack(cs, bucketSize)).closed
  }

  // ----- what a bucket looks like ------------------------------------------------------------

  /** Chunks at consecutive offsets from 0 up to `end`. */
  ghost predicate LaidOut(b: seq<Chunk>, end: nat) {
    && (forall i | 0 <= i < |b| :: b[i].meta.offset.Some? && |b[i].data| == b[i].meta.chunkSize)
    && (forall i | 0 <= i < |b| - 1 ::
          b[i + 1].meta.offset.value == b[i].meta.offset.value + b[i].meta.chunkSize)
    && (if b == [] then end == 0
        else b[0].meta.offset.value == 0
             && end == b[|b| - 1].meta.offset.value + b[|b| - 1].meta.chunkSize)
  }

  ghost predicate OneChunkPerName(b: seq<Chunk>) {
    forall i, j | 0 <= i < j < |b| :: b[i].meta.name != b[j].meta.name
  }

  ghost predicate GoodBucket(b: seq<Chunk>, bucketSize: nat) {
    OneChunkPerName(b) && exists end: nat | end <= bucketSize :: LaidOut(b, end)
  }

  /** Consecutive ranges are disjoint ranges below `end`. */
  lemma {:induction false} LaidOutDisjoint(b: seq<Chunk>, end: nat, i: nat, j: nat)
    requires LaidOut(b, end) && i < j < |b|
    ensures b[i].meta.offset.value + b[i].meta.chunkSize <= b[j].meta.offset.value
    ensures b[j].meta.offset.value + b[j].meta.chunkSize <= end
    decreases |b| - i
  {
    if i + 1 < j {
      LaidOutDisjoint(b, end, i + 1, j);
    } else if j + 1 < |b| {
      LaidOutDisjoint(b, end, j, |b| - 1);
    }
  }

  lemma {:induction false} LaidOutEnd(b: seq<Chunk>, end: nat, i: nat)
    requires LaidOut(b, end) && i < |b|
    ensures b[i].meta.offset.value + b[i].meta.chunkSize <= end
  {
    if i + 1 < |b| { LaidOutDisjoint(b, end, i, |b| - 1); }
  }

  /** What packing keeps: everything packed so far, in order, in good buckets. */
  ghost predicate ReadyFor(p: Packing, cs: seq<Chunk>, bucketSize: nat) {
    && UnplacedAll(Concat(p.closed) + p.open) == cs
    && (forall k | 0 <= k < |p.closed| :: GoodBucket(p.closed[k], bucketSize))
    && LaidOut(p.open, p.offset) && p.offset <= bucketSize && OneChunkPerName(p.open)
  }

  /** After whole chunks, only the empty stream leaves the open bucket empty. */
  ghost predicate PackedSoFar(p: Packing, cs: seq<Chunk>, bucketSize: nat) {
    ReadyFor(p, cs, bucketSize) && (p.open == [] ==> p.closed == [])
  }

  lemma {:induction false} ShipKeeps(p: Packing, cs: seq<Chunk>, bucketSize: nat)
    requires ReadyFor(p, cs, bucketSize)
    ensures ReadyFor(Ship(p), cs, bucketSize)
  {
    var q := Ship(p);
    ConcatPush(p.closed, p.open);
    assert Concat(q.closed) + q.open == Concat(p.closed) + p.open;
  }

  /**
    `assert tensor_meta.name not in bucket_meta` never fires: a bucket already holding a chunk of
    the same weight holds a full-size one, so nothing more fits.
  */
  lemma {:induction false} NameIsNew(p: Packing, cs: seq<Chunk>, c: Chunk, bucketSize: nat)
    requires ReadyFor(p, cs, bucketSize) && Packable(cs + [c], bucketSize) && Fits(p, c, bucketSize)
    ensures forall i | 0 <= i < |p.open| :: p.open[i].meta.name != c.meta.name
  {
    var all := Concat(p.closed) + p.open;
    forall i | 0 <= i < |p.open| ensures p.open[i].meta.name != c.meta.name {
      var k := |Concat(p.closed)| + i;
      assert all[k] == p.open[i] && (cs + [c])[k] == UnplacedAll(all)[k] && (cs + [c])[|cs|] == c;
      LaidOutEnd(p.open, p.offset, i);
    }
  }

  lemma {:induction false} PlaceKeeps(p: Packing, cs: seq<Chunk>, c: Chunk, bucketSize: nat)
    requires ReadyFor(p, cs, bucketSize) && Packable(cs + [c], bucketSize) && Fits(p, c, bucketSize)
    ensures ReadyFor(Place(p, c), cs + [c], bucketSize)
  {
    NameIsNew(p, cs, c, bucketSize);
    var q := Place(p, c);
    var all := Concat(p.closed) + p.open;
    assert (cs + [c])[|cs|] == c;
    assert Concat(q.closed) + q.open == all + [PlaceAt(c, p.offset)];
    assert UnplacedAll(all + [PlaceAt(c, p.offset)]) == UnplacedAll(all) + [c];
  }

  lemma PackablePrefix(cs: seq<Chunk>, n: nat, bucketSize: nat)
    requires n <= |cs| && Packable(cs, bucketSize)
    ensures Packable(cs[..n], bucketSize)
  {
  }

  lemma {:induction false} PackKeeps(cs: seq<Chunk>, bucketSize: nat)
    requires Packable(cs, bucketSize)
    ensures PackedSoFar(Pack(cs, bucketSize), cs, bucketSize)
  {
    if cs == [] {
      assert UnplacedAll(Concat<Chunk>([]) + []) == [];
    } else {
      var n := |cs| - 1;
      PackablePrefix(cs, n, bucketSize);
      PackKeeps(cs[..n], bucketSize);
      assert cs[..n] + [cs[n]] == cs;
      var p := Pack(cs[..n], bucketSize);
      if Fits(p, cs[n], bucketSize) {
        PlaceKeeps(p, cs[..n], cs[n], bucketSize);
      } else {
        ShipKeeps(p, cs[..n], bucketSize);
        PlaceKeeps(Ship(p), cs[..n], cs[n], bucketSize);
      }
    }
  }

  /**
    The bucket theorem: every bucket holds at most `bucketSize` bytes in consecutive disjoint
    ranges, at most one chunk of each weight, and together they are the chunk stream in order.
  */
  lemma {:induction false} BucketsPartitionStream(cs: seq<Chunk>, bucketSize: nat)
    requires Packable(cs, bucketSize)
    ensures UnplacedAll(Concat(BucketsOf(cs, bucketSize))) == cs
    ensures forall b | b in BucketsOf(cs, bucketSize) :: GoodBucket(b, bucketSize)
    ensures cs != [] ==> forall b | b in BucketsOf(cs, bucketSize) :: b != []
  {
    PackKeeps(cs, bucketSize);
    var p := Pack(cs, bucketSize);
    ShipKeeps(p, cs, bucketSize);
    assert Concat(Ship(p).closed) + [] == Concat(Ship(p).closed);
    BucketsNotEmpty(cs, bucketSize);
  }

  lemma {:induction false} BucketsNotEmpty(cs: seq<Chunk>, bucketSize: nat)
    requires Packable(cs, bucketSize)
    ensures cs != [] ==> Pack(cs, bucketSize).open != []
    ensures forall b | b in Pack(cs, bucketSize).closed :: b != []
  {
    if cs != [] {
      var n := |cs| - 1;
      PackablePrefix(cs, n, bucketSize);
      BucketsNotEmpty(cs[..n], bucketSize);
    }
  }

  /** The bytes a bucket uses. */
  function EndOf(b: seq<Chunk>): nat {
    if b == [] || b[|b| - 1].meta.offset.None? then 0 else b[|b| - 1].meta.offset.value + b[|b| - 1].meta.chunkSize
  }

  /** The first chunk of `next` did not fit behind `b`. */
  ghost predicate NoRoomFor(b: seq<Chunk>, next: seq<Chunk>, bucketSize: nat) {
    next != [] && EndOf(b) + next[0].meta.chunkSize > bucketSize
  }

  ghost predicate ShippedFull(bs: seq<seq<Chunk>>, bucketSize: nat) {
    forall i | 0 <= i < |bs| - 1 :: NoRoomFor(bs[i], bs[i + 1], bucketSize)
  }

  /** A bucket is shipped only when the next chunk does not fit. */
  lemma {:induction false} BucketsAreFull(cs: seq<Chunk>, bucketSize: nat)
    requires Packable(cs, bucketSize)
    ensures ShippedFull(BucketsOf(cs, bucketSize), bucketSize)
  {
    hide Packable, GoodBucket;
    if cs != [] {
      var n := |cs| - 1;
      PackablePrefix(cs, n, bucketSize);
      BucketsAreFull(cs[..n], bucketSize);
      PackKeeps(cs[..n], bucketSize);
      PackOneFull(Pack(cs[..n], bucketSize), cs[n], bucketSize);
    }
  }

  lemma PackOneFull(p: Packing, c: Chunk, bucketSize: nat)
    requires LaidOut(p.open, p.offset) && (p.open == [] ==> p.closed == []) && ShippedFull(p.closed + [p.open], bucketSize)
    ensures var q := PackOne(p, c, bucketSize); ShippedFull(q.closed + [q.open], bucketSize)
  {
    var n := |p.closed|;
    var was, q := p.closed + [p.open], PackOne(p, c, bucketSize);
    var bs := q.closed + [q.open];
    forall i | 0 <= i < |bs| - 1 ensures NoRoomFor(bs[i], bs[i + 1], bucketSize) {
      if i < n { assert NoRoomFor(was[i], was[i + 1], bucketSize); }
    }
  }

  // ----- buckets in memory -------------------------------------------------------------------

  function WriteAt(buf: seq<Cell>, lo: nat, data: seq<Cell>): (r: seq<Cell>)
    requires lo + |data| <= |buf|
    ensures |r| == |buf|
  {
    buf[..lo] + data + buf[lo + |data|..]
  }

  function Metas(b: seq<Chunk>): seq<TensorMeta> {
    seq(|b|, i requires 0 <= i < |b| => b[i].meta)
  }

  ghost predicate HoldsChunk(buf: seq<Cell>, c: Chunk) {
    && c.meta.offset.Some?
    && c.meta.offset.value + c.meta.chunkSize <= |buf|
    && buf[c.meta.offset.value..c.meta.offset.value + c.meta.chunkSize] == c.data
  }

  /** The buffer holds every chunk of the bucket at its offset. */
  ghost predicate Holds(buf: seq<Cell>, b: seq<Chunk>) {
    forall i | 0 <= i < |b| :: HoldsChunk(buf, b[i])
  }

  lemma WriteElsewhere(buf: seq<Cell>, lo: nat, data: seq<Cell>, c: Chunk)
    requires lo + |data| <= |buf| && HoldsChunk(buf, c)
    requires c.meta.offset.value + c.meta.chunkSize <= lo
    ensures HoldsChunk(WriteAt(buf, lo, data), c)
  {
    var from, to := c.meta.offset.value, c.meta.offset.value + c.meta.chunkSize;
    assert WriteAt(buf, lo, data)[from..to] == buf[from..to];
  }

  lemma {:induction false} WriteHolds(buf: seq<Cell>, p: Packing, c: Chunk)
    requires LaidOut(p.open, p.offset) && Holds(buf, p.open)
    requires |c.data| == c.meta.chunkSize && p.offset + c.meta.chunkSize <= |buf|
    ensures Holds(WriteAt(buf, p.offset, c.data), Place(p, c).open)
  {
    forall i | 0 <= i < |p.open| ensures HoldsChunk(WriteAt(buf, p.offset, c.data), p.open[i]) {
      LaidOutEnd(p.open, p.offset, i);
      WriteElsewhere(buf, p.offset, c.data, p.open[i]);
    }
  }

  /** The view `buf[offset : offset + chunk_size]` a receiver yields for one entry of `bucket_meta`. */
  function View(buf: seq<Cell>, m: TensorMeta): seq<Cell> {
    if m.offset.None? then []
    else buf[Min(m.offset.value, |buf|)..Min(m.offset.value + m.chunkSize, |buf|)]
  }

  lemma ViewReadsChunk(buf: seq<Cell>, b: seq<Chunk>, i: nat)
    requires i < |b| && HoldsChunk(buf, b[i])
    ensures Chunk(Metas(b)[i], View(buf, Metas(b)[i])) == b[i]
  {
  }

  /** One shipment: `{"bucket_meta": ..., "is_last": ...}` and the whole buffer, stale bytes included. */
  datatype Shipment = Shipment(metas: seq<TensorMeta>, isLast: bool, image: seq<Cell>)

  ghost predicate CarriesOne(s: Shipment, b: seq<Chunk>, bucketSize: nat, isLast: bool) {
    s.metas == Metas(b) && s.isLast == isLast && |s.image| == bucketSize && Holds(s.image, b)
  }

  /** The shipments carry the buckets, and exactly the last one says so. */
  ghost predicate Carries(ships: seq<Shipment>, buckets: seq<seq<Chunk>>, bucketSize: nat) {
    && |ships| <= |buckets|
    && forall k | 0 <= k < |ships| :: CarriesOne(ships[k], buckets[k], bucketSize, k == |buckets| - 1)
  }

  /** The first `j` chunks a receiver yields from a shipment. */
  function ReadShipment(s: Shipment, j: nat): seq<Chunk>
    requires j <= |s.metas|
  {
    seq(j, i requires 0 <= i < j => Chunk(s.metas[i], View(s.image, s.metas[i])))
  }

  /** What a receiver yields that reads shipment after shipment. */
  function ReadAll(ships: seq<Shipment>): seq<Chunk> {
    if ships == [] then []
    else ReadAll(ships[..|ships| - 1]) + ReadShipment(ships[|ships| - 1], |ships[|ships| - 1].metas|)
  }

  lemma {:induction false} ReadAllIsConcat(ships: seq<Shipment>, buckets: seq<seq<Chunk>>, bucketSize: nat)
    requires Carries(ships, buckets, bucketSize)
    ensures ReadAll(ships) == Concat(buckets[..|ships|])
  {
    if ships != [] {
      var n := |ships| - 1;
      ReadAllIsConcat(ships[..n], buckets, bucketSize);
      ConcatNext(buckets, n);
      var read := ReadShipment(ships[n], |ships[n].metas|);
      forall i | 0 <= i < |read| ensures read[i] == buckets[n][i] {
        ViewReadsChunk(ships[n].image, buckets[n], i);
      }
      assert read == buckets[n];
    }
  }

  ghost predicate Shipped(ships: seq<Shipment>, buckets: seq<seq<Chunk>>, bucketSize: nat) {
    |ships| == |buckets| && forall k | 0 <= k < |ships| :: CarriesOne(ships[k], buckets[k], bucketSize, false)
  }

  /** The sender's buffer, `bucket_meta`, `offset` and shipments agree with the packing `p` of `cs`. */
  ghost predicate Mirrors(
    buf: seq<Cell>, metas: seq<TensorMeta>, offset: nat, ships: seq<Shipment>,
    p: Packing, cs: seq<Chunk>, bucketSize: nat)
  {
    && ReadyFor(p, cs, bucketSize) && |buf| == bucketSize && Holds(buf, p.open)
    && metas == Metas(p.open) && offset == p.offset && Shipped(ships, p.closed, bucketSize)
  }

  lemma MirrorsPlace(
    buf: seq<Cell>, metas: seq<TensorMeta>, ships: seq<Shipment>,
    p: Packing, cs: seq<Chunk>, c: Chunk, bucketSize: nat)
    requires Mirrors(buf, metas, p.offset, ships, p, cs, bucketSize)
    requires Packable(cs + [c], bucketSize) && Fits(p, c, bucketSize)
    ensures |c.data| == c.meta.chunkSize
    ensures forall m | m in metas :: m.name != c.meta.name
    ensures Mirrors(WriteAt(buf, p.offset, c.data), metas + [c.meta.(offset := Some(p.offset))],
                    p.offset + c.meta.chunkSize, ships, Place(p, c), cs + [c], bucketSize)
  {
    assert (cs + [c])[|cs|] == c;
    NameIsNew(p, cs, c, bucketSize);
    PlaceKeeps(p, cs, c, bucketSize);
    WriteHolds(buf, p, c);
  }

  lemma MirrorsShip(
    buf: seq<Cell>, metas: seq<TensorMeta>, offset: nat, ships: seq<Shipment>,
    p: Packing, cs: seq<Chunk>, bucketSize: nat, other: seq<Cell>)
    requires Mirrors(buf, metas, offset, ships, p, cs, bucketSize) && |other| == bucketSize
    ensures Mirrors(other, [], 0, ships + [Shipment(metas, false, buf)], Ship(p), cs, bucketSize)
    ensures Carries(ships + [Shipment(metas, true, buf)], Ship(p).closed, bucketSize)
    ensures |ships| == |p.closed|
  {
    ShipKeeps(p, cs, bucketSize);
    assert CarriesOne(Shipment(metas, false, buf), p.open, bucketSize, false);
  }

  /**
    The sender's local variables. Two buffers take turns, so a shipped image also carries bytes
    left over from the bucket before last.
  */
  class Sender {
    var sendBuf: array<Cell>
    var recvBuf: array<Cell>
    var bucketMeta: seq<TensorMeta>
    var offset: nat
    var ships: seq<Shipment>

    ghost predicate Valid(bucketSize: nat)
      reads this
    {
      sendBuf != recvBuf && sendBuf.Length == recvBuf.Length == bucketSize
    }

    constructor (bucketSize: nat)
      ensures Valid(bucketSize) && fresh(sendBuf) && fresh(recvBuf)
      ensures bucketMeta == [] && offset == 0 && ships == []
    {
      sendBuf, recvBuf := new Cell[bucketSize](_ => Byte(0)), new Cell[bucketSize](_ => Byte(0));
      bucketMeta, offset, ships := [], 0, [];
    }

    method ShipBucket(bucketSize: nat, isLast: bool)
      requires Valid(bucketSize)
      modifies this
      ensures Valid(bucketSize)
      ensures sendBuf == old(recvBuf) && recvBuf == old(sendBuf)
      ensures bucketMeta == [] && offset == 0
      ensures ships == old(ships) + [Shipment(old(bucketMeta), isLast, old(sendBuf[..]))]
    {
      ships := ships + [Shipment(bucketMeta, isLast, sendBuf[..])];
      sendBuf, recvBuf := recvBuf, sendBuf;
      bucketMeta, offset := [], 0;
    }

    method PlaceChunk(c: Chunk, bucketSize: nat)
      requires Valid(bucketSize)
      requires |c.data| == c.meta.chunkSize && offset + c.meta.chunkSize <= bucketSize
      requires forall m | m in bucketMeta :: m.name != c.meta.name
      modifies this, sendBuf
      ensures Valid(bucketSize)
      ensures sendBuf == old(sendBuf) && recvBuf == old(recvBuf) && ships == old(ships)
      ensures bucketMeta == old(bucketMeta) + [c.meta.(offset := Some(old(offset)))]
      ensures sendBuf[..] == WriteAt(old(sendBuf[..]), old(offset), c.data)
      ensures offset == old(offset) + c.meta.chunkSize
    {
      bucketMeta := bucketMeta + [c.meta.(offset := Some(offset))];
      forall k | offset <= k < offset + c.meta.chunkSize {
        sendBuf[k] := c.data[k - offset];
      }
      assert sendBuf[..] == WriteAt(old(sendBuf[..]), offset, c.data);
      offset := offset + c.meta.chunkSize;
    }
  }

  lemma PackStep(cs: seq<Chunk>, n: nat, bucketSize: nat)
    requires n < |cs|
    ensures Pack(cs[..n + 1], bucketSize) == PackOne(Pack(cs[..n], bucketSize), cs[n], bucketSize)
    ensures cs[..n + 1] == cs[..n] + [cs[n]]
  {
    assert cs[..n + 1][..n] == cs[..n];
  }

  lemma PackNothing(bucketSize: nat)
    ensures Pack([], bucketSize) == NOTHING_PACKED
  {
  }

  lemma PackableChunk(cs: seq<Chunk>, n: nat, bucketSize: nat)
    requires Packable(cs, bucketSize) && n < |cs|
    ensures cs[n].meta.chunkSize <= bucketSize
  {
  }

  lemma MirrorsStart(bucketSize: nat, buf: seq<Cell>)
    requires |buf| == bucketSize
    ensures Mirrors(buf, [], 0, [], NOTHING_PACKED, [], bucketSize)
  {
    assert UnplacedAll(Concat<Chunk>([]) + []) == [];
  }

  lemma MirrorsOffset(
    buf: seq<Cell>, metas: seq<TensorMeta>, offset: nat, ships: seq<Shipment>,
    p: Packing, cs: seq<Chunk>, bucketSize: nat)
    requires Mirrors(buf, metas, offset, ships, p, cs, bucketSize)
    ensures offset == p.offset && |buf| == bucketSize
  {
  }

  /** The sender's loop with the transport reduced to recording each shipment when it is handed over. */
  method FillBuckets(chunks: seq<Chunk>, bucketSize: nat) returns (ships: seq<Shipment>)
    requires Packable(chunks, bucketSize)
    ensures Carries(ships, BucketsOf(chunks, bucketSize), bucketSize)
    ensures |ships| == |BucketsOf(chunks, bucketSize)|
  {
    hide Mirrors, Pack, Packable, Carries;
    var sender := new Sender(bucketSize);
    ghost var p := NOTHING_PACKED;
    MirrorsStart(bucketSize, sender.sendBuf[..]);
    assert chunks[..0] == [] && Pack([], bucketSize) == NOTHING_PACKED by { PackNothing(bucketSize); }
    for n := 0 to |chunks|
      invariant fresh(sender) && fresh(sender.sendBuf) && fresh(sender.recvBuf) && sender.Valid(bucketSize)
      invariant p == Pack(chunks[..n], bucketSize)
      invariant Mirrors(sender.sendBuf[..], sender.bucketMeta, sender.offset, sender.ships, p, chunks[..n], bucketSize)
    {
      PackStep(chunks, n, bucketSize);
      PackablePrefix(chunks, n + 1, bucketSize);
      PackableChunk(chunks, n, bucketSize);
      MirrorsOffset(sender.sendBuf[..], sender.bucketMeta, sender.offset, sender.ships, p, chunks[..n], bucketSize);
      if sender.offset + chunks[n].meta.chunkSize > bucketSize {
        MirrorsShip(sender.sendBuf[..], sender.bucketMeta, sender.offset, sender.ships, p, chunks[..n], bucketSize,
                    sender.recvBuf[..]);
        sender.ShipBucket(bucketSize, false);
        p := Ship(p);
      }
      MirrorsPlace(sender.sendBuf[..], sender.bucketMeta, sender.ships, p, chunks[..n], chunks[n], bucketSize);
      sender.PlaceChunk(chunks[n], bucketSize);
      p := Place(p, chunks[n]);
    }
    assert chunks[..|chunks|] == chunks;
    MirrorsShip(sender.sendBuf[..], sender.bucketMeta, sender.offset, sender.ships, p, chunks, bucketSize,
                sender.recvBuf[..]);
    sender.ShipBucket(bucketSize, true);
    ships := sender.ships;
  }
}
