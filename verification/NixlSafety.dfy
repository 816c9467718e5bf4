/** Safety of the NIXL chain: the invariant that every action keeps, and what follows from it. */
module NixlSafety {
  import opened Wrappers
  import opened WeightChunks
  import opened Buckets
  import opened SendLoop
  import opened NixlChain

  // ----- the invariant, component by component -----------------------------------------------

  ghost predicate SenderInv(c: Config, s: SenderState, mem: Memory, out: Link) {
    && s.sides.Paired() && FillInv(c, s.fill, mem.At(s.sides.sendBuf))
    && out.exposed == |s.fill.ships|
    && (out.readable.Some? ==>
          out.readable.value.desc == if s.fill.lastSent then s.sides.sendBuf else s.sides.recvBuf)
  }

  /** What rank i has exposed on its outgoing link is the shipment it says it is. */
  ghost predicate OfferHolds(l: Link, mem: Memory, ships: seq<Shipment>) {
    l.readable.Some? ==>
      && 0 < l.exposed <= |ships| && l.readable.value.key == l.exposed - 1
      && mem.At(l.readable.value.desc) == ships[l.exposed - 1].image
  }

  function Taken(r: Receiver): nat {
    r.held + if r.transfer.Some? then 1 else 0
  }

  function Read(r: Receiver): nat {
    r.held + if TransferDone(r) then 1 else 0
  }

  function Acked(l: Link): int {
    l.exposed - if l.readable.Some? then 1 else 0
  }

  ghost predicate IsMessageFor(m: Message, l: Link, ships: seq<Shipment>) {
    && l.readable.Some? && 0 < l.exposed <= |ships|
    && m.key == l.exposed - 1 && m.desc == l.readable.value.desc
    && m.metas == ships[l.exposed - 1].metas && m.isLast == ships[l.exposed - 1].isLast
  }

  /** At most one operation is open on a link, and the queues hold what is still unread and unacknowledged. */
  ghost predicate LinkInv(l: Link, r: Receiver, ships: seq<Shipment>) {
    && Acked(l) <= Read(r) <= Taken(r) <= l.exposed <= |ships|
    && (if Taken(r) < l.exposed then |l.msgs| == 1 && IsMessageFor(l.msgs[0], l, ships) else l.msgs == [])
    && l.notifs == (if Acked(l) < Read(r) then [l.exposed - 1] else [])
  }

  /** A transfer reads the shipment after the ones held and has copied all cells it no longer has to do. */
  ghost predicate TransferInv(c: Config, l: Link, r: Receiver, mem: Memory, ships: seq<Shipment>) {
    r.transfer.Some? ==>
      var t := r.transfer.value;
      && t.local == r.sides.recvBuf && r.held < |ships| && t.msg.key == r.held
      && t.msg.metas == ships[r.held].metas && t.msg.isLast == ships[r.held].isLast
      && (!t.done ==> l.exposed == r.held + 1 && l.readable.Some? && l.readable.value.desc == t.msg.desc)
      && (t.done ==> t.todo == {})
      && t.todo <= CellsBelow(c.bucketSize)
      && CopiedSoFar(mem.At(t.local), ships[r.held].image, t.todo)
  }

  /** How many chunks of the held bucket have been yielded. */
  function YieldedOf(r: Receiver): nat {
    match r.phase
    case First => 0
    case Head => 0
    case AwaitMeta => 0
    case Yielding(j) => j
    case AwaitAck => |r.metas|
    case AwaitRead => |r.metas|
    case Done => |r.metas|
  }

  /** The bucket a receiver works on sits in its `send_buf`, and the yielded chunks are a prefix. */
  ghost predicate HoldInv(r: Receiver, mem: Memory, ships: seq<Shipment>) {
    if r.phase == First then r.held == 0 && r.yielded == []
    else
      && 0 < r.held <= |ships|
      && var s := ships[r.held - 1];
      && r.metas == s.metas && r.isLast == s.isLast && mem.At(r.sides.sendBuf) == s.image
      && YieldedOf(r) <= |r.metas|
      && r.yielded == ReadAll(ships[..r.held - 1]) + ReadShipment(s, YieldedOf(r))
  }

  ghost predicate PhaseInv(r: Receiver) {
    && r.sides.Paired()
    && match r.phase
       case First => true
       case Head => r.transfer.None?
       case AwaitMeta => r.transfer.None? && !r.isLast
       case Yielding(_) => r.transfer.Some? <==> !r.isLast
       case AwaitAck => r.transfer.Some? <==> !r.isLast
       case AwaitRead => r.transfer.Some? && !r.isLast
       case Done => r.transfer.None? && r.isLast
  }

  predicate HasOpenOffer(r: Receiver) {
    r.phase.AwaitMeta? || r.phase.Yielding? || r.phase.AwaitAck?
  }

  /** What a receiver has offered on its outgoing link in each phase. */
  ghost predicate OutInv(r: Receiver, out: Link) {
    && out.exposed == (if r.phase.Head? then r.held - 1 else r.held)
    && (out.readable.Some? <==> HasOpenOffer(r))
    && (out.readable.Some? ==> out.readable.value.key == r.held - 1 && out.readable.value.desc == r.sides.sendDesc)
  }

  ghost predicate ReceiverInv(
    c: Config, r: Receiver, l: Link, mem: Memory, prev: Memory, ships: seq<Shipment>)
  {
    && PhaseInv(r) && HoldInv(r, mem, ships)
    && LinkInv(l, r, ships) && TransferInv(c, l, r, mem, ships) && OfferHolds(l, prev, ships)
  }

  /** All there is to say about receiver i: its own state, both its links and both memories involved. */
  ghost predicate RankInv(c: Config, s: State, i: nat)
    requires WellShaped(c, s) && i < c.receivers
  {
    && MemoryOk(c, s.mems[i + 1])
    && ReceiverInv(c, s.receivers[i], s.links[i], s.mems[i + 1], s.mems[i], s.sender.fill.ships)
    && (i + 1 < c.receivers ==> OutInv(s.receivers[i], s.links[i + 1]))
  }

  ghost predicate Inv(c: Config, s: State) {
    && WellShaped(c, s)
    && MemoryOk(c, s.mems[0]) && SenderInv(c, s.sender, s.mems[0], s.links[0])
    && forall i: nat | i < c.receivers :: RankInv(c, s, i)
  }

  lemma InitInv(c: Config)
    requires c.Valid()
    ensures Inv(c, Init(c))
  {
    InitSender(c);
    forall i: nat | i < c.receivers ensures RankInv(c, Init(c), i) {
      InitRank(c, i);
    }
    hide RankInv, SenderInv, Init;
  }

  lemma InitSender(c: Config)
    requires c.Valid()
    ensures WellShaped(c, Init(c)) && MemoryOk(c, Init(c).mems[0])
    ensures SenderInv(c, Init(c).sender, Init(c).mems[0], Init(c).links[0])
  {
    FillStart(c, Init(c).mems[0].a);
    hide FillInv;
  }

  lemma InitRank(c: Config, i: nat)
    requires c.Valid() && i < c.receivers
    ensures RankInv(c, Init(c), i)
  {
  }

  // ----- the sender's actions ----------------------------------------------------------------

  lemma SenderFill(c: Config, me: SenderState, mem: Memory, out: Link)
    requires c.Valid() && SenderInv(c, me, mem, out) && MemoryOk(c, mem) && !me.fill.lastSent && NextFits(c, me.fill)
    ensures var chunk, buf := c.chunks[me.fill.next], mem.At(me.sides.sendBuf);
      && SenderInv(c, me.(fill := AfterFill(c, me.fill)),
                   mem.Put(me.sides.sendBuf, Store(buf, me.fill.packing.offset, chunk.data)), out)
      && forall m | m in Metas(me.fill.packing.open) :: m.name != chunk.meta.name
  {
    hide FillInv;
    FillStep(c, me.fill, mem.At(me.sides.sendBuf));
  }

  lemma FillUnseen(
    c: Config, me: SenderState, mem: Memory, r: Receiver, l: Link, rmem: Memory, data: seq<Cell>)
    requires SenderInv(c, me, mem, l) && !me.fill.lastSent && ReceiverInv(c, r, l, rmem, mem, me.fill.ships)
    ensures ReceiverInv(c, r, l, rmem, mem.Put(me.sides.sendBuf, data), me.fill.ships)
  {
  }

  lemma FillKeeps(c: Config, s: State)
    requires c.Valid() && Inv(c, s) && SenderEnabled(c, s, Fill)
    ensures Inv(c, Apply(c, s, Fill)) && AssertionsHold(c, s, Fill)
  {
    hide OutInv, SenderInv, ReceiverInv;
    var t := Apply(c, s, Fill);
    SenderFill(c, s.sender, s.mems[0], s.links[0]);
    forall i: nat | i < c.receivers ensures RankInv(c, t, i) {
      assert RankInv(c, s, i);
      if i == 0 {
        FillUnseen(c, s.sender, s.mems[0], s.receivers[0], s.links[0], s.mems[1], t.mems[0].At(s.sender.sides.sendBuf));
      }
    }
  }

  lemma AckLink(c: Config, r: Receiver, l: Link, mem: Memory, prev: Memory, ships: seq<Shipment>)
    requires ReceiverInv(c, r, l, mem, prev, ships) && l.readable.Some? && l.notifs != []
    ensures l.notifs[0] == l.readable.value.key
    ensures ReceiverInv(c, r, Acknowledged(l), mem, prev, ships)
  {
  }

  lemma SenderAcked(c: Config, me: SenderState, mem: Memory, out: Link)
    requires SenderInv(c, me, mem, out) && out.notifs != []
    ensures SenderInv(c, me, mem, Acknowledged(out))
  {
  }

  lemma SenderAckKeeps(c: Config, s: State)
    requires c.Valid() && Inv(c, s) && SenderEnabled(c, s, SenderAck)
    ensures Inv(c, Apply(c, s, SenderAck)) && AssertionsHold(c, s, SenderAck)
  {
    hide OutInv, SenderInv, ReceiverInv;
    var t := Apply(c, s, SenderAck);
    assert RankInv(c, s, 0);
    AckLink(c, s.receivers[0], s.links[0], s.mems[1], s.mems[0], s.sender.fill.ships);
    SenderAcked(c, s.sender, s.mems[0], s.links[0]);
    forall i: nat | i < c.receivers ensures RankInv(c, t, i) {
      assert RankInv(c, s, i);
    }
  }

  /** Nothing a receiver relies on changes when the history of shipments grows. */
  lemma ShipsGrow(c: Config, r: Receiver, l: Link, mem: Memory, prev: Memory, ships: seq<Shipment>, s: Shipment)
    requires ReceiverInv(c, r, l, mem, prev, ships)
    ensures ReceiverInv(c, r, l, mem, prev, ships + [s])
  {
    if r.phase != First {
      assert (ships + [s])[..r.held - 1] == ships[..r.held - 1];
    }
  }

  /** A link without an open operation carries the next offer. */
  lemma OfferLink(
    c: Config, r: Receiver, l: Link, mem: Memory, prev: Memory, ships: seq<Shipment>, desc: Buf)
    requires ReceiverInv(c, r, l, mem, prev, ships) && l.readable.None?
    requires l.exposed < |ships| && prev.At(desc) == ships[l.exposed].image
    ensures ReceiverInv(c, r, Offer(l, desc, ships[l.exposed].metas, ships[l.exposed].isLast), mem, prev, ships)
  {
  }

  lemma SenderShip(c: Config, me: SenderState, mem: Memory, out: Link, last: bool)
    requires c.Valid() && SenderInv(c, me, mem, out) && MemoryOk(c, mem)
    requires !me.fill.lastSent && MustShip(c, me.fill) && out.readable.None? && (last <==> me.fill.next == |c.chunks|)
    ensures var sides := if last then me.sides else me.sides.Swap();
      SenderInv(c, SenderState(sides, AfterShip(me.fill, mem.At(me.sides.sendBuf), last)), mem,
                Offer(out, me.sides.sendDesc, Metas(me.fill.packing.open), last))
  {
    hide FillInv;
    ShipOne(c, me.fill, mem.At(me.sides.sendBuf), mem.At(if last then me.sides.sendBuf else me.sides.recvBuf), last);
  }

  lemma SenderFacts(c: Config, me: SenderState, mem: Memory, out: Link)
    requires SenderInv(c, me, mem, out)
    ensures out.exposed == |me.fill.ships| && (me.fill.lastSent ==> me.fill.next == |c.chunks|) && me.sides.Paired()
  {
  }

  lemma ShipKeepsInv(c: Config, s: State, a: Action)
    requires c.Valid() && Inv(c, s) && (a.ShipFull? || a.ShipLast?) && SenderEnabled(c, s, a)
    ensures Inv(c, Apply(c, s, a))
  {
    hide OutInv, SenderInv, ReceiverInv;
    var me, t := s.sender, Apply(c, s, a);
    SenderFacts(c, me, s.mems[0], s.links[0]);
    SenderShip(c, me, s.mems[0], s.links[0], a.ShipLast?);
    var ship := t.sender.fill.ships[|me.fill.ships|];
    forall i: nat | i < c.receivers ensures RankInv(c, t, i) {
      assert RankInv(c, s, i);
      ShipsGrow(c, s.receivers[i], s.links[i], s.mems[i + 1], s.mems[i], me.fill.ships, ship);
      if i == 0 {
        OfferLink(c, s.receivers[0], s.links[0], s.mems[1], s.mems[0], t.sender.fill.ships, me.sides.sendDesc);
      }
    }
  }

  // ----- a receiver's actions ----------------------------------------------------------------

  lemma TakeMessageInv(c: Config, r: Receiver, l: Link, mem: Memory, prev: Memory, ships: seq<Shipment>)
    requires ReceiverInv(c, r, l, mem, prev, ships) && MemoryOk(c, mem) && MemoryOk(c, prev)
    requires (r.phase == First && r.transfer.None?) || r.phase == AwaitMeta
    requires l.msgs != []
    ensures var t := Transfer(l.msgs[0], r.sides.recvDesc, CellsBelow(c.bucketSize), false);
      ReceiverInv(c, r.(transfer := Some(t), phase := if r.phase == First then First else Yielding(0)),
                  l.(msgs := l.msgs[1..]), mem, prev, ships)
  {
  }

  lemma CopyCellInv(
    c: Config, r: Receiver, l: Link, mem: Memory, prev: Memory, ships: seq<Shipment>, cell: nat)
    requires ReceiverInv(c, r, l, mem, prev, ships) && MemoryOk(c, mem) && MemoryOk(c, prev)
    requires r.transfer.Some? && cell in r.transfer.value.todo
    ensures var t := r.transfer.value;
      var copied := CopyInto(mem.At(t.local), prev.At(t.msg.desc), cell);
      && MemoryOk(c, mem.Put(t.local, copied))
      && mem.Put(t.local, copied).At(r.sides.sendBuf) == mem.At(r.sides.sendBuf)
      && ReceiverInv(c, r.(transfer := Some(t.(todo := t.todo - {cell}))), l, mem.Put(t.local, copied), prev, ships)
  {
    var t := r.transfer.value;
    assert !t.done;
    assert prev.At(t.msg.desc) == ships[r.held].image;
    assert cell < c.bucketSize;
  }

  lemma CompleteInv(c: Config, r: Receiver, l: Link, mem: Memory, prev: Memory, ships: seq<Shipment>)
    requires ReceiverInv(c, r, l, mem, prev, ships)
    requires r.transfer.Some? && r.transfer.value.todo == {} && !r.transfer.value.done
    ensures var t := r.transfer.value;
      ReceiverInv(c, r.(transfer := Some(t.(done := true))), l.(notifs := l.notifs + [t.msg.key]), mem, prev, ships)
  {
  }

  lemma SwapHold(c: Config, r: Receiver, l: Link, mem: Memory, ships: seq<Shipment>)
    requires PhaseInv(r) && HoldInv(r, mem, ships) && TransferInv(c, l, r, mem, ships)
    requires (r.phase == First || r.phase == AwaitRead) && TransferDone(r)
    ensures PhaseInv(SwapIn(r)) && HoldInv(SwapIn(r), mem, ships)
  {
    assert mem.At(r.sides.recvBuf) == ships[r.held].image;
    hide TransferInv, CopiedSoFar;
    assert ReadShipment(ships[r.held], 0) == [];
    if r.phase == First {
      assert ships[..0] == [];
    } else {
      ReadLast(ships, r.held);
    }
  }

  lemma SwapInv(c: Config, r: Receiver, l: Link, mem: Memory, prev: Memory, ships: seq<Shipment>)
    requires ReceiverInv(c, r, l, mem, prev, ships)
    requires (r.phase == First || r.phase == AwaitRead) && TransferDone(r)
    ensures ReceiverInv(c, SwapIn(r), l, mem, prev, ships)
  {
    SwapHold(c, r, l, mem, ships);
    hide HoldInv, OfferHolds, PhaseInv;
  }

  /** Moving on inside the loop body: offering, finishing the yields, being acknowledged. */
  lemma AdvanceInv(
    c: Config, r: Receiver, phase: Phase, l: Link, mem: Memory, prev: Memory, ships: seq<Shipment>)
    requires ReceiverInv(c, r, l, mem, prev, ships)
    requires match r.phase
             case Head => phase == if r.isLast then Yielding(0) else AwaitMeta
             case Yielding(j) => j == |r.metas| && phase == AwaitAck
             case AwaitAck => phase == if r.isLast then Done else AwaitRead
             case _ => false
    ensures ReceiverInv(c, r.(phase := phase), l, mem, prev, ships)
  {
  }

  /** The incoming link only sees which transfer is under way and how many buckets are held. */
  lemma LinkSees(c: Config, r: Receiver, q: Receiver, l: Link, mem: Memory, ships: seq<Shipment>)
    requires LinkInv(l, r, ships) && TransferInv(c, l, r, mem, ships)
    requires q.held == r.held && q.transfer == r.transfer && q.sides == r.sides
    ensures LinkInv(l, q, ships) && TransferInv(c, l, q, mem, ships)
  {
  }

  lemma YieldHold(r: Receiver, mem: Memory, ships: seq<Shipment>)
    requires PhaseInv(r) && HoldInv(r, mem, ships) && r.phase.Yielding? && r.phase.j < |r.metas|
    ensures var m := r.metas[r.phase.j];
      var q := r.(phase := Yielding(r.phase.j + 1),
                  yielded := r.yielded + [Chunk(m, View(mem.At(r.sides.sendBuf), m))]);
      PhaseInv(q) && HoldInv(q, mem, ships)
  {
    ReadOneMore(ships[r.held - 1], r.phase.j);
    hide ReadShipment, View, ReadAll;
  }

  lemma YieldInv(c: Config, r: Receiver, l: Link, mem: Memory, prev: Memory, ships: seq<Shipment>)
    requires ReceiverInv(c, r, l, mem, prev, ships) && r.phase.Yielding? && r.phase.j < |r.metas|
    ensures var m := r.metas[r.phase.j];
      ReceiverInv(c, r.(phase := Yielding(r.phase.j + 1),
                        yielded := r.yielded + [Chunk(m, View(mem.At(r.sides.sendBuf), m))]), l, mem, prev, ships)
  {
    hide PhaseInv, HoldInv, LinkInv, TransferInv, OfferHolds, View;
    var m := r.metas[r.phase.j];
    YieldHold(r, mem, ships);
    LinkSees(c, r, r.(phase := Yielding(r.phase.j + 1),
                      yielded := r.yielded + [Chunk(m, View(mem.At(r.sides.sendBuf), m))]), l, mem, ships);
  }

  /** The rank's own step does not disturb what its successor reads. */
  lemma SuccessorKeeps(
    c: Config, r: Receiver, out: Link, next: Receiver, nextMem: Memory, mem: Memory, after: Memory,
    ships: seq<Shipment>)
    requires r.sides.Paired() && OutInv(r, out) && ReceiverInv(c, next, out, nextMem, mem, ships)
    requires mem.At(r.sides.sendBuf) == after.At(r.sides.sendBuf)
    ensures ReceiverInv(c, next, out, nextMem, after, ships)
  {
  }

  /** The sender only looks at how many operations it opened and at the open one. */
  lemma SenderSees(c: Config, me: SenderState, mem: Memory, l: Link, after: Link)
    requires SenderInv(c, me, mem, l) && after.exposed == l.exposed && after.readable == l.readable
    ensures SenderInv(c, me, mem, after)
  {
  }

  lemma OutSees(r: Receiver, l: Link, after: Link)
    requires OutInv(r, l) && after.exposed == l.exposed && after.readable == l.readable
    ensures OutInv(r, after)
  {
  }

  lemma SidesPaired(c: Config, r: Receiver, l: Link, mem: Memory, prev: Memory, ships: seq<Shipment>)
    requires ReceiverInv(c, r, l, mem, prev, ships)
    ensures r.sides.Paired()
  {
  }

  /** A receiver's step on its incoming side: itself, its incoming queues and its memory change. */
  lemma AssembleIncoming(c: Config, s: State, t: State, i: nat, r: Receiver, l: Link, mem: Memory)
    requires Inv(c, s) && i < c.receivers
    requires t == s.(receivers := s.receivers[i := r], links := s.links[i := l], mems := s.mems[i + 1 := mem])
    requires ReceiverInv(c, r, l, mem, s.mems[i], s.sender.fill.ships) && MemoryOk(c, mem)
    requires l.exposed == s.links[i].exposed && l.readable == s.links[i].readable
    requires i + 1 < c.receivers ==> OutInv(r, s.links[i + 1])
    requires mem.At(s.receivers[i].sides.sendBuf) == s.mems[i + 1].At(s.receivers[i].sides.sendBuf)
    ensures Inv(c, t)
  {
    hide ReceiverInv, OutInv, MemoryOk, SenderInv;
    SenderSees(c, s.sender, s.mems[0], s.links[0], t.links[0]);
    forall k: nat | k < c.receivers ensures RankInv(c, t, k) {
      assert RankInv(c, s, k);
      if k == i + 1 {
        assert RankInv(c, s, i);
        SidesPaired(c, s.receivers[i], s.links[i], s.mems[i + 1], s.mems[i], s.sender.fill.ships);
        SuccessorKeeps(c, s.receivers[i], s.links[k], s.receivers[k], s.mems[k + 1], s.mems[k], mem, s.sender.fill.ships);
      } else if k + 1 == i {
        OutSees(s.receivers[k], s.links[i], l);
      }
    }
  }

  /** A receiver's step on its outgoing side: itself and its outgoing link change. */
  lemma AssembleOutgoing(c: Config, s: State, t: State, i: nat, r: Receiver, out: Link)
    requires Inv(c, s) && i + 1 < c.receivers
    requires t == s.(receivers := s.receivers[i := r], links := s.links[i + 1 := out])
    requires ReceiverInv(c, r, s.links[i], s.mems[i + 1], s.mems[i], s.sender.fill.ships)
    requires ReceiverInv(c, s.receivers[i + 1], out, s.mems[i + 2], s.mems[i + 1], s.sender.fill.ships)
    requires OutInv(r, out)
    ensures Inv(c, t)
  {
    hide ReceiverInv, OutInv, MemoryOk, SenderInv;
    forall k: nat | k < c.receivers ensures RankInv(c, t, k) {
      assert RankInv(c, s, k);
    }
  }

  lemma MemoriesOk(c: Config, s: State, i: nat)
    requires Inv(c, s) && i <= c.receivers
    ensures MemoryOk(c, s.mems[i])
  {
    hide ReceiverInv, OutInv, SenderInv;
    if i > 0 { assert RankInv(c, s, i - 1); }
  }

  lemma CopyCellKeeps(c: Config, s: State, i: nat, cell: nat)
    requires c.Valid() && Inv(c, s) && ReceiverEnabled(c, s, CopyCell(i, cell))
    ensures Inv(c, Apply(c, s, CopyCell(i, cell)))
  {
    hide SenderInv, LinkInv, TransferInv, HoldInv, OfferHolds;
    MemoriesOk(c, s, i);
    assert RankInv(c, s, i);
    var t := Apply(c, s, CopyCell(i, cell));
    CopyCellInv(c, s.receivers[i], s.links[i], s.mems[i + 1], s.mems[i], s.sender.fill.ships, cell);
    AssembleIncoming(c, s, t, i, t.receivers[i], s.links[i], t.mems[i + 1]);
  }

  lemma QueueStepKeeps(c: Config, s: State, a: Action)
    requires c.Valid() && Inv(c, s) && ReceiverEnabled(c, s, a) && (a.TakeMessage? || a.Complete?)
    ensures Inv(c, Apply(c, s, a))
  {
    hide SenderInv, LinkInv, TransferInv, HoldInv, OfferHolds;
    MemoriesOk(c, s, a.i);
    assert RankInv(c, s, a.i);
    var t, i := Apply(c, s, a), a.i;
    var r, l, mem, prev, ships := s.receivers[i], s.links[i], s.mems[i + 1], s.mems[i], s.sender.fill.ships;
    if a.TakeMessage? {
      TakeMessageInv(c, r, l, mem, prev, ships);
    } else {
      CompleteInv(c, r, l, mem, prev, ships);
    }
    AssembleIncoming(c, s, t, i, t.receivers[i], t.links[i], mem);
  }

  lemma LocalStepKeeps(c: Config, s: State, a: Action)
    requires c.Valid() && Inv(c, s) && ReceiverEnabled(c, s, a)
    requires a.FirstSwap? || a.NextSwap? || a.Yield? || a.EndYield?
    ensures Inv(c, Apply(c, s, a))
  {
    hide SenderInv, LinkInv, TransferInv, HoldInv, OfferHolds;
    assert RankInv(c, s, a.i);
    var t, i := Apply(c, s, a), a.i;
    var r, l, mem, prev, ships := s.receivers[i], s.links[i], s.mems[i + 1], s.mems[i], s.sender.fill.ships;
    if a.Yield? {
      YieldInv(c, r, l, mem, prev, ships);
    } else if a.EndYield? {
      AdvanceInv(c, r, AwaitAck, l, mem, prev, ships);
    } else {
      SwapInv(c, r, l, mem, prev, ships);
    }
    AssembleIncoming(c, s, t, i, t.receivers[i], l, mem);
  }

  lemma ExposeOut(c: Config, r: Receiver, l: Link, mem: Memory, prev: Memory, ships: seq<Shipment>, out: Link)
    requires ReceiverInv(c, r, l, mem, prev, ships) && OutInv(r, out) && r.phase == Head
    ensures out.readable.None? && out.exposed < |ships| && mem.At(r.sides.sendDesc) == ships[out.exposed].image
    ensures r.metas == ships[out.exposed].metas && r.isLast == ships[out.exposed].isLast
    ensures OutInv(r.(phase := if r.isLast then Yielding(0) else AwaitMeta), Offer(out, r.sides.sendDesc, r.metas, r.isLast))
  {
  }

  lemma ExposeKeeps(c: Config, s: State, i: nat)
    requires c.Valid() && Inv(c, s) && ReceiverEnabled(c, s, Expose(i))
    ensures Inv(c, Apply(c, s, Expose(i))) && AssertionsHold(c, s, Expose(i))
  {
    hide SenderInv, ReceiverInv;
    assert RankInv(c, s, i);
    var t, r, ships := Apply(c, s, Expose(i)), s.receivers[i], s.sender.fill.ships;
    AdvanceInv(c, r, t.receivers[i].phase, s.links[i], s.mems[i + 1], s.mems[i], ships);
    if i + 1 < c.receivers {
      var next, out := s.receivers[i + 1], s.links[i + 1];
      assert RankInv(c, s, i + 1);
      ExposeOut(c, r, s.links[i], s.mems[i + 1], s.mems[i], ships, out);
      assert out.readable.None?;
      OfferLink(c, next, out, s.mems[i + 2], s.mems[i + 1], ships, r.sides.sendDesc);
      AssembleOutgoing(c, s, t, i, t.receivers[i], t.links[i + 1]);
    } else {
      AssembleIncoming(c, s, t, i, t.receivers[i], s.links[i], s.mems[i + 1]);
    }
  }

  lemma AckKeeps(c: Config, s: State, i: nat)
    requires c.Valid() && Inv(c, s) && ReceiverEnabled(c, s, Ack(i))
    ensures Inv(c, Apply(c, s, Ack(i))) && AssertionsHold(c, s, Ack(i))
  {
    hide SenderInv, ReceiverInv;
    assert RankInv(c, s, i);
    var t, r, ships := Apply(c, s, Ack(i)), s.receivers[i], s.sender.fill.ships;
    AdvanceInv(c, r, t.receivers[i].phase, s.links[i], s.mems[i + 1], s.mems[i], ships);
    if i + 1 < c.receivers {
      var next, out := s.receivers[i + 1], s.links[i + 1];
      assert RankInv(c, s, i + 1);
      AckLink(c, next, out, s.mems[i + 2], s.mems[i + 1], ships);
      AssembleOutgoing(c, s, t, i, t.receivers[i], t.links[i + 1]);
    } else {
      AssembleIncoming(c, s, t, i, t.receivers[i], s.links[i], s.mems[i + 1]);
    }
  }

  lemma InvKept(c: Config, s: State, a: Action)
    requires c.Valid() && Inv(c, s) && Enabled(c, s, a)
    ensures Inv(c, Apply(c, s, a)) && AssertionsHold(c, s, a)
  {
    match a
    case Fill => FillKeeps(c, s);
    case SenderAck => SenderAckKeeps(c, s);
    case ShipFull => ShipKeepsInv(c, s, a);
    case ShipLast => ShipKeepsInv(c, s, a);
    case CopyCell(i, cell) => CopyCellKeeps(c, s, i, cell);
    case Expose(i) => ExposeKeeps(c, s, i);
    case Ack(i) => AckKeeps(c, s, i);
    case TakeMessage(_) => QueueStepKeeps(c, s, a);
    case Complete(_) => QueueStepKeeps(c, s, a);
    case _ => LocalStepKeeps(c, s, a);
  }
}
