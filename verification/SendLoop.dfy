/**
  What the NCCL and the NIXL engine have in common: two buffers per rank, the packing loop of
  `send_weights` cut into single steps, and reading delivered buckets back into chunks.
*/
module SendLoop {
  import opened Sequences
  import opened Wrappers
  import opened WeightChunks
  import opened Buckets

  /** The two buffers of a rank. */
  datatype Buf = BufA | BufB

  datatype Memory = Memory(a: seq<Cell>, b: seq<Cell>) {
    function At(buf: Buf): seq<Cell> {
      if buf == BufA then a else b
    }

    function Put(buf: Buf, cells: seq<Cell>): Memory {
      if buf == BufA then this.(a := cells) else this.(b := cells)
    }
  }

  datatype Config = Config(chunks: seq<Chunk>, bucketSize: nat, receivers: nat) {
    ghost predicate Valid() {
      bucketSize > 0 && receivers > 0 && Packable(chunks, bucketSize)
    }

    function Buckets(): seq<seq<Chunk>> {
      BucketsOf(chunks, bucketSize)
    }
  }

  /** Progress of the sending loop: chunks consumed, packing, whether the last bucket went out, shipments. */
  datatype Filling = Filling(next: nat, packing: Packing, lastSent: bool, ships: seq<Shipment>)

  const NOTHING_SENT := Filling(0, NOTHING_PACKED, false, [])

  predicate NextFits(c: Config, f: Filling) {
    f.next < |c.chunks| && Fits(f.packing, c.chunks[f.next], c.bucketSize)
  }

  /** The loop has to hand a bucket over, or is done, and so waits for the previous operation. */
  predicate MustShip(c: Config, f: Filling) {
    !NextFits(c, f)
  }

  function Store(buf: seq<Cell>, lo: nat, data: seq<Cell>): seq<Cell> {
    if lo + |data| <= |buf| then WriteAt(buf, lo, data) else buf
  }

  function AfterFill(c: Config, f: Filling): Filling
    requires f.next < |c.chunks|
  {
    f.(next := f.next + 1, packing := Place(f.packing, c.chunks[f.next]))
  }

  function AfterShip(f: Filling, image: seq<Cell>, last: bool): Filling {
    f.(packing := Ship(f.packing), lastSent := last,
       ships := f.ships + [Shipment(Metas(f.packing.open), last, image)])
  }

  /** The cells of a whole buffer. */
  function CellsBelow(n: nat): (r: set<nat>)
    ensures forall k: nat :: k in r <==> k < n
    ensures |r| == n
  {
    if n == 0 then {}
    else
      var below := CellsBelow(n - 1);
      assert n - 1 !in below && |below + {n - 1}| == |below| + 1;
      below + {n - 1}
  }

  function CopyInto(dst: seq<Cell>, src: seq<Cell>, cell: nat): seq<Cell> {
    if cell < |dst| && cell < |src| then dst[cell := src[cell]] else dst
  }

  /** The packing agrees with the chunks consumed, before or after the pending bucket was shipped. */
  ghost predicate PackingIs(c: Config, f: Filling) {
    && f.next <= |c.chunks|
    && var p := Pack(c.chunks[..f.next], c.bucketSize);
    if f.lastSent then f.next == |c.chunks| && f.packing == Ship(p)
    else || f.packing == p
         || (f.next < |c.chunks| && !Fits(p, c.chunks[f.next], c.bucketSize) && f.packing == Ship(p))
  }

  ghost predicate ShipsAre(c: Config, f: Filling) {
    && |f.ships| == |f.packing.closed|
    && forall k | 0 <= k < |f.ships| ::
         CarriesOne(f.ships[k], f.packing.closed[k], c.bucketSize, f.lastSent && k == |f.ships| - 1)
  }

  ghost predicate MemoryOk(c: Config, m: Memory) {
    |m.a| == c.bucketSize && |m.b| == c.bucketSize
  }

  ghost predicate CopiedSoFar(dst: seq<Cell>, src: seq<Cell>, todo: set<nat>) {
    |dst| == |src| && forall k: nat | k < |src| && k !in todo :: dst[k] == src[k]
  }

  lemma FillPacking(c: Config, f: Filling)
    requires c.Valid() && PackingIs(c, f) && ReadyFor(f.packing, c.chunks[..f.next], c.bucketSize)
    requires !f.lastSent && NextFits(c, f)
    ensures var chunk, filled := c.chunks[f.next], f.(next := f.next + 1, packing := Place(f.packing, c.chunks[f.next]));
      && PackingIs(c, filled) && ReadyFor(filled.packing, c.chunks[..filled.next], c.bucketSize)
      && |chunk.data| == chunk.meta.chunkSize
      && forall m | m in Metas(f.packing.open) :: m.name != chunk.meta.name
  {
    var chunk, before := c.chunks[f.next], c.chunks[..f.next];
    PackStep(c.chunks, f.next, c.bucketSize);
    PackablePrefix(c.chunks, f.next + 1, c.bucketSize);
    NameIsNew(f.packing, before, chunk, c.bucketSize);
    PlaceKeeps(f.packing, before, chunk, c.bucketSize);
    hide ReadyFor, Pack, LaidOut, OneChunkPerName;
  }

  lemma ShipsAreMore(c: Config, f: Filling, ship: Shipment, after: Filling)
    requires ShipsAre(c, f) && !f.lastSent && CarriesOne(ship, f.packing.open, c.bucketSize, after.lastSent)
    requires after.ships == f.ships + [ship] && after.packing == Ship(f.packing)
    ensures ShipsAre(c, after)
  {
    hide CarriesOne;
  }

  lemma ShipPacking(c: Config, f: Filling, after: Filling)
    requires c.Valid() && PackingIs(c, f) && ReadyFor(f.packing, c.chunks[..f.next], c.bucketSize)
    requires !f.lastSent && MustShip(c, f)
    requires after.next == f.next && after.packing == Ship(f.packing)
    requires after.lastSent <==> f.next == |c.chunks|
    ensures PackingIs(c, after)
  {
    if f.next < |c.chunks| {
      PackableChunk(c.chunks, f.next, c.bucketSize);
    }
    hide Pack;
  }

  ghost predicate FillInv(c: Config, f: Filling, buf: seq<Cell>) {
    && PackingIs(c, f) && ShipsAre(c, f) && ReadyFor(f.packing, c.chunks[..f.next], c.bucketSize)
    && (!f.lastSent ==> Holds(buf, f.packing.open))
  }

  lemma FillStart(c: Config, buf: seq<Cell>)
    requires c.Valid()
    ensures FillInv(c, NOTHING_SENT, buf)
  {
    PackKeeps([], c.bucketSize);
    assert c.chunks[..0] == [];
  }

  lemma FillStep(c: Config, f: Filling, buf: seq<Cell>)
    requires c.Valid() && FillInv(c, f, buf) && |buf| == c.bucketSize && !f.lastSent && NextFits(c, f)
    ensures FillInv(c, AfterFill(c, f), Store(buf, f.packing.offset, c.chunks[f.next].data))
    ensures forall m | m in Metas(f.packing.open) :: m.name != c.chunks[f.next].meta.name
  {
    FillPacking(c, f);
    assert LaidOut(f.packing.open, f.packing.offset);
    hide ReadyFor, PackingIs, LaidOut;
    WriteHolds(buf, f.packing, c.chunks[f.next]);
    hide Holds;
  }

  lemma ShipOne(c: Config, f: Filling, buf: seq<Cell>, other: seq<Cell>, last: bool)
    requires c.Valid() && FillInv(c, f, buf) && |buf| == c.bucketSize
    requires !f.lastSent && MustShip(c, f) && (last <==> f.next == |c.chunks|)
    ensures FillInv(c, AfterShip(f, buf, last), other)
  {
    ShipKeeps(f.packing, c.chunks[..f.next], c.bucketSize);
    ShipsAreMore(c, f, Shipment(Metas(f.packing.open), last, buf), AfterShip(f, buf, last));
    ShipPacking(c, f, AfterShip(f, buf, last));
    hide ReadyFor, ShipsAre, PackingIs, CarriesOne;
  }

  /** A bucket that must go out before the end of the stream is not empty. */
  lemma ShippedIsNotEmpty(c: Config, f: Filling, buf: seq<Cell>)
    requires c.Valid() && FillInv(c, f, buf) && f.next < |c.chunks| && MustShip(c, f)
    ensures f.packing.open != []
  {
    hide PackingIs, ShipsAre, Holds;
    assert LaidOut(f.packing.open, f.packing.offset);
    PackableChunk(c.chunks, f.next, c.bucketSize);
  }

  // ----- from shipments to the plan ----------------------------------------------------------

  ghost predicate IsPrefix<T>(a: seq<T>, b: seq<T>) {
    |a| <= |b| && a == b[..|a|]
  }

  lemma {:induction false} PackGrows(cs: seq<Chunk>, n: nat, bucketSize: nat)
    requires n <= |cs|
    ensures IsPrefix(Pack(cs[..n], bucketSize).closed, Pack(cs, bucketSize).closed)
    ensures n < |cs| && !Fits(Pack(cs[..n], bucketSize), cs[n], bucketSize) ==>
      IsPrefix(Ship(Pack(cs[..n], bucketSize)).closed, Pack(cs, bucketSize).closed)
    decreases |cs|
  {
    var m := |cs| - 1;
    if n == |cs| {
      assert cs[..n] == cs;
    } else {
      assert cs[..m][..n] == cs[..n];
      PackGrows(cs[..m], n, bucketSize);
    }
  }

  lemma PackingIsPrefix(c: Config, f: Filling)
    requires c.Valid() && PackingIs(c, f)
    ensures IsPrefix(f.packing.closed, c.Buckets())
    ensures f.lastSent <==> |f.packing.closed| == |c.Buckets()|
  {
    PackGrows(c.chunks, f.next, c.bucketSize);
    assert c.chunks[..|c.chunks|] == c.chunks;
  }

  /** The shipments so far carry a prefix of the buckets the whole stream packs into. */
  lemma ShipsCarryPlan(c: Config, f: Filling, buf: seq<Cell>)
    requires c.Valid() && FillInv(c, f, buf)
    ensures Carries(f.ships, c.Buckets(), c.bucketSize)
    ensures f.lastSent <==> |f.ships| == |c.Buckets()|
  {
    hide CarriesOne, PackingIs, ReadyFor, Holds;
    PackingIsPrefix(c, f);
    forall k | 0 <= k < |f.ships|
      ensures CarriesOne(f.ships[k], c.Buckets()[k], c.bucketSize, k == |c.Buckets()| - 1)
    {
      assert f.packing.closed[k] == c.Buckets()[..|f.packing.closed|][k];
    }
  }

  lemma ConcatIsPrefix<T>(xss: seq<seq<T>>, n: nat)
    requires n <= |xss|
    ensures IsPrefix(Concat(xss[..n]), Concat(xss))
  {
    ConcatPrefix(xss, n);
  }

  lemma PrefixOfPrefix<T>(a: seq<T>, b: seq<T>, c: seq<T>)
    requires IsPrefix(a, b) && IsPrefix(b, c)
    ensures IsPrefix(a, c)
  {
    assert a == c[..|b|][..|a|];
  }

  lemma ExtendPrefix<T>(a: seq<T>, b: seq<T>, b': seq<T>)
    requires IsPrefix(b, b')
    ensures IsPrefix(a + b, a + b')
  {
  }

  lemma ReadShipmentPrefix(s: Shipment, j: nat)
    requires j <= |s.metas|
    ensures IsPrefix(ReadShipment(s, j), ReadShipment(s, |s.metas|))
  {
  }

  lemma ReadOneMore(s: Shipment, j: nat)
    requires j < |s.metas|
    ensures ReadShipment(s, j + 1) == ReadShipment(s, j) + [Chunk(s.metas[j], View(s.image, s.metas[j]))]
  {
  }

  lemma ReadWhole(ships: seq<Shipment>, plan: seq<seq<Chunk>>, bucketSize: nat, held: nat)
    requires Carries(ships, plan, bucketSize) && held <= |ships|
    ensures IsPrefix(ReadAll(ships[..held]), Concat(plan))
    ensures held == |plan| ==> ReadAll(ships[..held]) == Concat(plan)
  {
    ReadAllIsConcat(ships[..held], plan, bucketSize);
    ConcatIsPrefix(plan, held);
    assert held == |plan| ==> plan[..held] == plan;
  }

  lemma ReadLast(ships: seq<Shipment>, held: nat)
    requires 0 < held <= |ships|
    ensures ReadAll(ships[..held])
            == ReadAll(ships[..held - 1]) + ReadShipment(ships[held - 1], |ships[held - 1].metas|)
  {
    assert ships[..held][..held - 1] == ships[..held - 1];
  }

  lemma ReadPrefix(ships: seq<Shipment>, plan: seq<seq<Chunk>>, bucketSize: nat, held: nat, j: nat)
    requires Carries(ships, plan, bucketSize) && 0 < held <= |ships| && j <= |ships[held - 1].metas|
    ensures var got := ReadAll(ships[..held - 1]) + ReadShipment(ships[held - 1], j);
      && IsPrefix(got, Concat(plan))
      && (held == |plan| && j == |ships[held - 1].metas| ==> got == Concat(plan))
  {
    hide Carries, ReadShipment, IsPrefix, ReadAll, Concat;
    var last := ships[held - 1];
    ReadWhole(ships, plan, bucketSize, held);
    ReadLast(ships, held);
    ReadShipmentPrefix(last, j);
    var start := ReadAll(ships[..held - 1]);
    ExtendPrefix(start, ReadShipment(last, j), ReadShipment(last, |last.metas|));
    PrefixOfPrefix(start + ReadShipment(last, j), ReadAll(ships[..held]), Concat(plan));
  }

  lemma ConcatHolds<T>(xss: seq<seq<T>>, k: nat)
    requires k < |xss|
    ensures |xss[k]| <= |Concat(xss)|
  {
    ConcatPrefix(xss, k + 1);
    ConcatNext(xss, k);
  }

  lemma BucketCount(c: Config, k: nat)
    requires c.Valid() && k < |c.Buckets()|
    ensures |c.Buckets()[k]| <= |c.chunks|
  {
    BucketsPartitionStream(c.chunks, c.bucketSize);
    ConcatHolds(c.Buckets(), k);
  }
}
