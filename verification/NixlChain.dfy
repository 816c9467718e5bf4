/**
  verl/checkpoint_engine/nixl_checkpoint_engine.py as a state machine: rank 0 packs chunks into
  buckets, every later rank reads each bucket out of its predecessor's exposed buffer, yields its
  chunks and exposes it to its successor. An `await` is a guard, a queue is a reliable FIFO, and a
  READ transfer copies single bytes at arbitrary moments between its start and its completion.
*/
module NixlChain {
  import opened Wrappers
  import opened WeightChunks
  import opened Buckets
  import opened SendLoop

  /** The local variables `send_buf, recv_buf` and `send_descs, recv_descs`. */
  datatype Sides = Sides(sendBuf: Buf, recvBuf: Buf, sendDesc: Buf, recvDesc: Buf) {
    function Swap(): Sides {
      Sides(recvBuf, sendBuf, recvDesc, sendDesc)
    }

    predicate Paired() {
      sendBuf == sendDesc && recvBuf == recvDesc && sendBuf != recvBuf
    }
  }

  /** A `ReadableOperation` not yet awaited; keys are fresh, so the n-th operation of a link has key n. */
  datatype Readable = Readable(key: nat, desc: Buf)

  datatype Message = Message(key: nat, desc: Buf, metas: seq<TensorMeta>, isLast: bool)

  /** From rank i to rank i + 1: rank i's open operation, the messages sent, the notifications returned. */
  datatype Link = Link(exposed: nat, readable: Option<Readable>, msgs: seq<Message>, notifs: seq<nat>)

  /** A `ReadOperation` that has begun: the cells still to be copied, and whether it has completed. */
  datatype Transfer = Transfer(msg: Message, local: Buf, todo: set<nat>, done: bool)

  datatype SenderState = SenderState(sides: Sides, fill: Filling)

  /** Where `_receive_weight_chunks` stands. */
  datatype Phase = First | Head | AwaitMeta | Yielding(j: nat) | AwaitAck | AwaitRead | Done

  datatype Receiver = Receiver(
    sides: Sides, phase: Phase, held: nat, metas: seq<TensorMeta>, isLast: bool,
    transfer: Option<Transfer>, yielded: seq<Chunk>)

  /** Receiver i is rank i + 1: its memory is mems[i + 1], links[i] comes in and links[i + 1] goes out. */
  datatype State = State(mems: seq<Memory>, links: seq<Link>, sender: SenderState, receivers: seq<Receiver>)

  datatype Action =
    | Fill | SenderAck | ShipFull | ShipLast
    | TakeMessage(i: nat) | CopyCell(i: nat, cell: nat) | Complete(i: nat)
    | FirstSwap(i: nat) | Expose(i: nat) | Yield(i: nat) | EndYield(i: nat) | Ack(i: nat) | NextSwap(i: nat)

  const START_SIDES := Sides(BufA, BufB, BufA, BufB)

  function Init(c: Config): State {
    var zeros := seq(c.bucketSize, _ => Byte(0));
    State(
      seq(c.receivers + 1, _ => Memory(zeros, zeros)),
      seq(c.receivers, _ => Link(0, None, [], [])),
      SenderState(START_SIDES, NOTHING_SENT),
      seq(c.receivers, _ => Receiver(START_SIDES, First, 0, [], false, None, [])))
  }

  // ----- the sender --------------------------------------------------------------------------

  /** `ReadableOperation(...)`: the metadata goes out at once and the operation is open. */
  function Offer(l: Link, desc: Buf, metas: seq<TensorMeta>, isLast: bool): Link {
    Link(l.exposed + 1, Some(Readable(l.exposed, desc)), l.msgs + [Message(l.exposed, desc, metas, isLast)], l.notifs)
  }

  /** `wait_for_complete` once a notification is there. */
  function Acknowledged(l: Link): Link
    requires l.notifs != []
  {
    l.(readable := None, notifs := l.notifs[1..])
  }

  predicate WellShaped(c: Config, s: State) {
    |s.mems| == c.receivers + 1 && |s.links| == c.receivers == |s.receivers| && c.receivers > 0
  }

  predicate SenderEnabled(c: Config, s: State, a: Action)
    requires WellShaped(c, s)
  {
    match a
    case Fill => !s.sender.fill.lastSent && NextFits(c, s.sender.fill)
    case SenderAck => MustShip(c, s.sender.fill) && s.links[0].readable.Some? && s.links[0].notifs != []
    case ShipFull => s.sender.fill.next < |c.chunks| && MustShip(c, s.sender.fill) && s.links[0].readable.None?
    case ShipLast => s.sender.fill.next == |c.chunks| && !s.sender.fill.lastSent && s.links[0].readable.None?
    case _ => false
  }

  function SenderApply(c: Config, s: State, a: Action): State
    requires WellShaped(c, s) && SenderEnabled(c, s, a)
  {
    var me, mem, out := s.sender, s.mems[0], s.links[0];
    var buf := mem.At(me.sides.sendBuf);
    match a
    case Fill =>
      var filled := Store(buf, me.fill.packing.offset, c.chunks[me.fill.next].data);
      s.(mems := s.mems[0 := mem.Put(me.sides.sendBuf, filled)], sender := me.(fill := AfterFill(c, me.fill)))
    case SenderAck =>
      s.(links := s.links[0 := Acknowledged(out)])
    case ShipFull =>
      s.(links := s.links[0 := Offer(out, me.sides.sendDesc, Metas(me.fill.packing.open), false)],
         sender := SenderState(me.sides.Swap(), AfterShip(me.fill, buf, false)))
    case ShipLast =>
      s.(links := s.links[0 := Offer(out, me.sides.sendDesc, Metas(me.fill.packing.open), true)],
         sender := SenderState(me.sides, AfterShip(me.fill, buf, true)))
  }

  // ----- a receiver --------------------------------------------------------------------------

  predicate TransferDone(r: Receiver) {
    r.transfer.Some? && r.transfer.value.done
  }

  predicate ReceiverEnabled(c: Config, s: State, a: Action)
    requires WellShaped(c, s)
  {
    && !a.Fill? && !a.SenderAck? && !a.ShipFull? && !a.ShipLast?
    && a.i < c.receivers
    && var r := s.receivers[a.i];
    match a
    case TakeMessage(i) =>
      ((r.phase == First && r.transfer.None?) || r.phase == AwaitMeta) && s.links[i].msgs != []
    case CopyCell(i, cell) => r.transfer.Some? && cell in r.transfer.value.todo
    case Complete(i) => r.transfer.Some? && r.transfer.value.todo == {} && !r.transfer.value.done
    case FirstSwap(i) => r.phase == First && TransferDone(r)
    case Expose(i) => r.phase == Head
    case Yield(i) => r.phase.Yielding? && r.phase.j < |r.metas|
    case EndYield(i) => r.phase.Yielding? && r.phase.j == |r.metas|
    case Ack(i) =>
      r.phase == AwaitAck && (i + 1 < c.receivers ==> s.links[i + 1].readable.Some? && s.links[i + 1].notifs != [])
    case NextSwap(i) => r.phase == AwaitRead && TransferDone(r)
  }

  function SwapIn(r: Receiver): Receiver
    requires r.transfer.Some?
  {
    r.(sides := r.sides.Swap(), phase := Head, held := r.held + 1,
       metas := r.transfer.value.msg.metas, isLast := r.transfer.value.msg.isLast, transfer := None)
  }

  function ReceiverApply(c: Config, s: State, a: Action): State
    requires WellShaped(c, s) && ReceiverEnabled(c, s, a)
  {
    var r := s.receivers[a.i];
    match a
    case TakeMessage(i) =>
      var t := Transfer(s.links[i].msgs[0], r.sides.recvDesc, CellsBelow(c.bucketSize), false);
      s.(links := s.links[i := s.links[i].(msgs := s.links[i].msgs[1..])],
         receivers := s.receivers[i := r.(transfer := Some(t),
                                          phase := if r.phase == First then First else Yielding(0))])
    case CopyCell(i, cell) =>
      var t := r.transfer.value;
      var copied := CopyInto(s.mems[i + 1].At(t.local), s.mems[i].At(t.msg.desc), cell);
      s.(mems := s.mems[i + 1 := s.mems[i + 1].Put(t.local, copied)],
         receivers := s.receivers[i := r.(transfer := Some(t.(todo := t.todo - {cell})))])
    case Complete(i) =>
      var t := r.transfer.value;
      s.(links := s.links[i := s.links[i].(notifs := s.links[i].notifs + [t.msg.key])],
         receivers := s.receivers[i := r.(transfer := Some(t.(done := true)))])
    case FirstSwap(i) => s.(receivers := s.receivers[i := SwapIn(r)])
    case Expose(i) =>
      var after := r.(phase := if r.isLast then Yielding(0) else AwaitMeta);
      if i + 1 < c.receivers then
        s.(links := s.links[i + 1 := Offer(s.links[i + 1], r.sides.sendDesc, r.metas, r.isLast)],
           receivers := s.receivers[i := after])
      else s.(receivers := s.receivers[i := after])
    case Yield(i) =>
      var m := r.metas[r.phase.j];
      s.(receivers := s.receivers[i := r.(phase := Yielding(r.phase.j + 1),
                                          yielded := r.yielded + [Chunk(m, View(s.mems[i + 1].At(r.sides.sendBuf), m))])])
    case EndYield(i) => s.(receivers := s.receivers[i := r.(phase := AwaitAck)])
    case Ack(i) =>
      var after := r.(phase := if r.isLast then Done else AwaitRead);
      if i + 1 < c.receivers then
        s.(links := s.links[i + 1 := Acknowledged(s.links[i + 1])], receivers := s.receivers[i := after])
      else s.(receivers := s.receivers[i := after])
    case NextSwap(i) => s.(receivers := s.receivers[i := SwapIn(r)])
  }

  predicate Enabled(c: Config, s: State, a: Action)
    requires WellShaped(c, s)
  {
    SenderEnabled(c, s, a) || ReceiverEnabled(c, s, a)
  }

  function Apply(c: Config, s: State, a: Action): (t: State)
    requires WellShaped(c, s) && Enabled(c, s, a)
    ensures WellShaped(c, t)
  {
    if SenderEnabled(c, s, a) then SenderApply(c, s, a) else ReceiverApply(c, s, a)
  }

  /** The assertions in the code path of an action, and that a new operation never replaces an open one. */
  ghost predicate AssertionsHold(c: Config, s: State, a: Action)
    requires WellShaped(c, s) && Enabled(c, s, a)
  {
    match a
    case Fill =>
      && s.sender.fill.packing.offset + c.chunks[s.sender.fill.next].meta.chunkSize <= c.bucketSize
      && forall m | m in Metas(s.sender.fill.packing.open) :: m.name != c.chunks[s.sender.fill.next].meta.name
    case SenderAck => s.links[0].notifs[0] == s.links[0].readable.value.key
    case Ack(i) => i + 1 < c.receivers ==> s.links[i + 1].notifs[0] == s.links[i + 1].readable.value.key
    case ShipFull => s.links[0].readable.None?
    case ShipLast => s.links[0].readable.None?
    case Expose(i) => i + 1 < c.receivers ==> s.links[i + 1].readable.None?
    case _ => true
  }

  /** The buffer an action writes into. */
  function Written(c: Config, s: State, a: Action): set<(nat, Buf)>
    requires WellShaped(c, s) && Enabled(c, s, a)
  {
    match a
    case Fill => {(0, s.sender.sides.sendBuf)}
    case CopyCell(i, _) => {(i + 1, s.receivers[i].transfer.value.local)}
    case _ => {}
  }

  /** A buffer somebody else relies on: exposed to the next rank, or viewed by tensors being yielded. */
  predicate InUse(c: Config, s: State, rank: nat, buf: Buf)
    requires WellShaped(c, s)
  {
    || (rank < c.receivers && s.links[rank].readable.Some? && s.links[rank].readable.value.desc == buf)
    || (1 <= rank <= c.receivers && s.receivers[rank - 1].phase.Yielding? && s.receivers[rank - 1].sides.sendBuf == buf)
  }

  // ----- runs --------------------------------------------------------------------------------

  /** `acts` can be taken one after another from `s`. */
  predicate Legal(c: Config, s: State, acts: seq<Action>)
    requires WellShaped(c, s)
    decreases |acts|
  {
    acts == [] || (Enabled(c, s, acts[0]) && Legal(c, Apply(c, s, acts[0]), acts[1..]))
  }

  function After(c: Config, s: State, acts: seq<Action>): (t: State)
    requires WellShaped(c, s) && Legal(c, s, acts)
    ensures WellShaped(c, t)
    decreases |acts|
  {
    if acts == [] then s else After(c, Apply(c, s, acts[0]), acts[1..])
  }

  predicate Finished(s: State) {
    && s.sender.fill.lastSent && (forall l | l in s.links :: l.readable.None?)
    && (forall r | r in s.receivers :: r.phase == Done)
  }
}
