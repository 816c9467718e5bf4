/**
  verl/checkpoint_engine/nccl_checkpoint_engine.py as a state machine. Every broadcast runs in its
  own thread: the sender publishes the metadata dict, the receivers take it, and the collective
  copies single bytes at arbitrary moments; the sender's side completes when every receiver has
  the whole bucket. Meanwhile the sender fills its other buffer and the receivers yield from theirs.
*/
module NcclBroadcast {
  import opened Wrappers
  import opened WeightChunks
  import opened Buckets
  import opened SendLoop

  /** The sender's `BroadcastOperation` in flight; it holds a reference to a metadata dict. */
  datatype Outgoing = Outgoing(bucket: Buf, dict: nat, isLast: bool, published: bool)

  /** `dicts` are all `bucket_meta` dicts made so far; the last one is being filled. */
  datatype SenderState = SenderState(
    mem: Memory, sendBuf: Buf, recvBuf: Buf, dicts: seq<seq<TensorMeta>>, fill: Filling, op: Option<Outgoing>)

  datatype Notice = Notice(metas: seq<TensorMeta>, isLast: bool)

  /** A receiver's `BroadcastOperation`: metadata once it came in, and the cells still to arrive. */
  datatype Incoming = Incoming(bucket: Buf, notice: Option<Notice>, todo: set<nat>)

  datatype Phase = First | Head | Yielding(j: nat) | Await | Done

  datatype Receiver = Receiver(
    mem: Memory, sendBuf: Buf, recvBuf: Buf, phase: Phase, held: nat, metas: seq<TensorMeta>, isLast: bool,
    op: Option<Incoming>, inbox: seq<Notice>, yielded: seq<Chunk>)

  datatype State = State(sender: SenderState, receivers: seq<Receiver>)

  datatype Action =
    | Fill | AwaitBroadcast | BroadcastFull | BroadcastLast | Publish
    | TakeNotice(i: nat) | CopyCell(i: nat, cell: nat) | Swap(i: nat) | Next(i: nat) | Yield(i: nat) | EndYield(i: nat)

  function Init(c: Config): State {
    var zeros := Memory(seq(c.bucketSize, _ => Byte(0)), seq(c.bucketSize, _ => Byte(0)));
    State(
      SenderState(zeros, BufA, BufB, [[]], NOTHING_SENT, None),
      seq(c.receivers, _ => Receiver(zeros, BufA, BufB, First, 0, [], false,
                                     Some(Incoming(BufB, None, CellsBelow(c.bucketSize))), [], [])))
  }

  predicate Received(op: Option<Incoming>) {
    op.Some? && op.value.notice.Some? && op.value.todo == {}
  }

  /** Broadcasts a receiver has completed. */
  function Completed(r: Receiver): nat {
    r.held + if Received(r.op) then 1 else 0
  }

  predicate WellShaped(c: Config, s: State) {
    |s.receivers| == c.receivers && c.receivers > 0 && s.sender.dicts != []
    && (s.sender.op.Some? ==> s.sender.op.value.dict < |s.sender.dicts|)
  }

  predicate SenderEnabled(c: Config, s: State, a: Action) {
    var me := s.sender;
    match a
    case Fill => !me.fill.lastSent && NextFits(c, me.fill)
    case AwaitBroadcast =>
      MustShip(c, me.fill) && me.op.Some? && me.op.value.published
      && forall r | r in s.receivers :: Completed(r) >= |me.fill.ships|
    case BroadcastFull => me.fill.next < |c.chunks| && MustShip(c, me.fill) && me.op.None?
    case BroadcastLast => me.fill.next == |c.chunks| && !me.fill.lastSent && me.op.None?
    case Publish => me.op.Some? && !me.op.value.published
    case _ => false
  }

  /** A new operation on `send_buf`; before the last bucket the buffers swap and a new dict is made. */
  function Broadcast(me: SenderState, last: bool): SenderState
    requires me.dicts != []
  {
    var started := me.(op := Some(Outgoing(me.sendBuf, |me.dicts| - 1, last, false)),
                       fill := AfterShip(me.fill, me.mem.At(me.sendBuf), last));
    if last then started
    else started.(sendBuf := me.recvBuf, recvBuf := me.sendBuf, dicts := me.dicts + [[]])
  }

  function SenderApply(c: Config, s: State, a: Action): State
    requires WellShaped(c, s) && SenderEnabled(c, s, a)
  {
    var me, cur := s.sender, |s.sender.dicts| - 1;
    var buf := me.mem.At(me.sendBuf);
    match a
    case Fill =>
      var chunk := c.chunks[me.fill.next];
      var entry := chunk.meta.(offset := Some(me.fill.packing.offset));
      s.(sender := me.(mem := me.mem.Put(me.sendBuf, Store(buf, me.fill.packing.offset, chunk.data)),
                       dicts := me.dicts[cur := me.dicts[cur] + [entry]],
                       fill := AfterFill(c, me.fill)))
    case AwaitBroadcast => s.(sender := me.(op := None))
    case BroadcastFull => s.(sender := Broadcast(me, false))
    case BroadcastLast => s.(sender := Broadcast(me, true))
    case Publish =>
      var notice := Notice(me.dicts[me.op.value.dict], me.op.value.isLast);
      State(me.(op := Some(me.op.value.(published := true))),
            seq(|s.receivers|, i requires 0 <= i < |s.receivers| =>
              s.receivers[i].(inbox := s.receivers[i].inbox + [notice])))
  }

  predicate ReceiverEnabled(c: Config, s: State, a: Action)
    requires WellShaped(c, s)
  {
    && (a.TakeNotice? || a.CopyCell? || a.Swap? || a.Next? || a.Yield? || a.EndYield?)
    && a.i < c.receivers
    && var r := s.receivers[a.i];
    match a
    case TakeNotice(_) => r.op.Some? && r.op.value.notice.None? && r.inbox != []
    case CopyCell(_, cell) =>
      // both sides are inside the collective with the same number
      && r.op.Some? && r.op.value.notice.Some? && cell in r.op.value.todo
      && s.sender.op.Some? && s.sender.op.value.published && |s.sender.fill.ships| == r.held + 1
    case Swap(_) => (r.phase == First || r.phase == Await) && Received(r.op)
    case Next(_) => r.phase == Head
    case Yield(_) => r.phase.Yielding? && r.phase.j < |r.metas|
    case EndYield(_) => r.phase.Yielding? && r.phase.j == |r.metas|
  }

  function ReceiverStep(c: Config, me: SenderState, r: Receiver, a: Action): Receiver {
    match a
    case TakeNotice(_) =>
      if r.op.None? || r.inbox == [] then r
      else r.(op := Some(r.op.value.(notice := Some(r.inbox[0]))), inbox := r.inbox[1..])
    case CopyCell(_, cell) =>
      if r.op.None? || me.op.None? then r
      else
        var copied := CopyInto(r.mem.At(r.op.value.bucket), me.mem.At(me.op.value.bucket), cell);
        r.(mem := r.mem.Put(r.op.value.bucket, copied), op := Some(r.op.value.(todo := r.op.value.todo - {cell})))
    case Swap(_) =>
      if !Received(r.op) then r
      else
        var n := r.op.value.notice.value;
        r.(sendBuf := r.recvBuf, recvBuf := r.sendBuf, phase := Head, held := r.held + 1,
           metas := n.metas, isLast := n.isLast, op := None)
    case Next(_) =>
      r.(phase := Yielding(0),
         op := if r.isLast then None else Some(Incoming(r.recvBuf, None, CellsBelow(c.bucketSize))))
    case Yield(_) =>
      if !r.phase.Yielding? || r.phase.j >= |r.metas| then r
      else
        var m := r.metas[r.phase.j];
        r.(phase := Yielding(r.phase.j + 1), yielded := r.yielded + [Chunk(m, View(r.mem.At(r.sendBuf), m))])
    case EndYield(_) => r.(phase := if r.isLast then Done else Await)
    case _ => r
  }

  predicate Enabled(c: Config, s: State, a: Action)
    requires WellShaped(c, s)
  {
    SenderEnabled(c, s, a) || ReceiverEnabled(c, s, a)
  }

  function Apply(c: Config, s: State, a: Action): (t: State)
    requires WellShaped(c, s) && Enabled(c, s, a)
    ensures WellShaped(c, t)
  {
    if SenderEnabled(c, s, a) then SenderApply(c, s, a)
    else s.(receivers := s.receivers[a.i := ReceiverStep(c, s.sender, s.receivers[a.i], a)])
  }

  predicate Legal(c: Config, s: State, acts: seq<Action>)
    requires WellShaped(c, s)
    decreases |acts|
  {
    acts == [] || (Enabled(c, s, acts[0]) && Legal(c, Apply(c, s, acts[0]), acts[1..]))
  }

  function After(c: Config, s: State, acts: seq<Action>): (t: State)
    requires WellShaped(c, s) && Legal(c, s, acts)
    ensures WellShaped(c, t)
    decreases |acts|
  {
    if acts == [] then s else After(c, Apply(c, s, acts[0]), acts[1..])
  }

  predicate Finished(s: State) {
    s.sender.fill.lastSent && s.sender.op.None? && forall r | r in s.receivers :: r.phase == Done
  }

  /** The sender's assertions, and: no write hits a buffer or a metadata dict somebody else relies on. */
  ghost predicate StepIsSafe(c: Config, s: State, a: Action)
    requires WellShaped(c, s) && Enabled(c, s, a)
  {
    var me := s.sender;
    match a
    case Fill =>
      && (forall m | m in me.dicts[|me.dicts| - 1] :: m.name != c.chunks[me.fill.next].meta.name)
      && (me.op.Some? ==> me.op.value.bucket != me.sendBuf && me.op.value.dict != |me.dicts| - 1)
    case CopyCell(i, _) =>
      s.receivers[i].phase.Yielding? ==> s.receivers[i].op.value.bucket != s.receivers[i].sendBuf
    case _ => true
  }

  // ----- invariant ---------------------------------------------------------------------------

  ghost predicate SenderInv(c: Config, me: SenderState) {
    && me.sendBuf != me.recvBuf && |me.mem.a| == |me.mem.b| == c.bucketSize
    && FillInv(c, me.fill, me.mem.At(me.sendBuf)) && me.dicts != []
    && (!me.fill.lastSent ==> me.dicts[|me.dicts| - 1] == Metas(me.fill.packing.open))
    && (me.op.Some? ==>
          var op, ships := me.op.value, me.fill.ships;
          && |ships| > 0 && op.dict < |me.dicts| && op.isLast == me.fill.lastSent
          && op.bucket == (if me.fill.lastSent then me.sendBuf else me.recvBuf)
          && (!me.fill.lastSent ==> op.dict < |me.dicts| - 1)
          && me.mem.At(op.bucket) == ships[|ships| - 1].image
          && Notice(me.dicts[op.dict], op.isLast) == NoticeOf(ships[|ships| - 1]))
  }

  function NoticeOf(s: Shipment): Notice {
    Notice(s.metas, s.isLast)
  }

  function Published(me: SenderState): int {
    |me.fill.ships| - if me.op.Some? && !me.op.value.published then 1 else 0
  }

  /** Metadata taken so far. */
  function Taken(r: Receiver): nat {
    r.held + if r.op.Some? && r.op.value.notice.Some? then 1 else 0
  }

  ghost predicate QueueInv(me: SenderState, r: Receiver) {
    var n := |me.fill.ships|;
    && Completed(r) <= Taken(r) <= Published(me) <= n
    && (if me.op.Some? then n - 1 <= Completed(r) else Completed(r) == n)
    && r.inbox == (if Taken(r) < Published(me) then [NoticeOf(me.fill.ships[n - 1])] else [])
  }

  ghost predicate OpInv(c: Config, r: Receiver, ships: seq<Shipment>) {
    r.op.Some? ==>
      var op := r.op.value;
      && op.bucket == r.recvBuf && op.todo <= CellsBelow(c.bucketSize)
      && if op.notice.None? then op.todo == CellsBelow(c.bucketSize)
         else && r.held < |ships| && op.notice.value == NoticeOf(ships[r.held])
              && CopiedSoFar(r.mem.At(op.bucket), ships[r.held].image, op.todo)
  }

  function YieldedOf(r: Receiver): nat {
    match r.phase
    case First => 0
    case Head => 0
    case Yielding(j) => j
    case Await => |r.metas|
    case Done => |r.metas|
  }

  ghost predicate HoldInv(c: Config, r: Receiver, ships: seq<Shipment>) {
    && r.sendBuf != r.recvBuf && |r.mem.a| == |r.mem.b| == c.bucketSize
    && if r.phase == First then r.held == 0 && r.yielded == [] && r.op.Some?
       else
         && 0 < r.held <= |ships|
         && var s := ships[r.held - 1];
         && r.metas == s.metas && r.isLast == s.isLast && r.mem.At(r.sendBuf) == s.image
         && YieldedOf(r) <= |r.metas|
         && r.yielded == ReadAll(ships[..r.held - 1]) + ReadShipment(s, YieldedOf(r))
         && (r.op.Some? <==> !r.isLast && r.phase != Head)
         && (r.phase == Done ==> r.isLast) && (r.phase == Await ==> !r.isLast)
  }

  ghost predicate ReceiverInv(c: Config, me: SenderState, r: Receiver) {
    QueueInv(me, r) && OpInv(c, r, me.fill.ships) && HoldInv(c, r, me.fill.ships)
  }

  ghost predicate Inv(c: Config, s: State) {
    && WellShaped(c, s) && SenderInv(c, s.sender)
    && forall r | r in s.receivers :: ReceiverInv(c, s.sender, r)
  }

  lemma InitInv(c: Config)
    requires c.Valid()
    ensures Inv(c, Init(c))
  {
    FillStart(c, Init(c).sender.mem.a);
    assert Metas([]) == [];
    hide FillInv;
    forall r | r in Init(c).receivers ensures ReceiverInv(c, Init(c).sender, r) {
      assert r == Init(c).receivers[0];
    }
    hide ReceiverInv;
  }

  // ----- the sender's steps ------------------------------------------------------------------

  lemma FillKeeps(c: Config, s: State)
    requires c.Valid() && Inv(c, s) && SenderEnabled(c, s, Fill)
    ensures SenderInv(c, SenderApply(c, s, Fill).sender) && StepIsSafe(c, s, Fill)
  {
    hide FillInv, ReceiverInv;
    FillStep(c, s.sender.fill, s.sender.mem.At(s.sender.sendBuf));
  }

  lemma LastMeansAll(c: Config, me: SenderState)
    requires SenderInv(c, me)
    ensures me.fill.lastSent ==> me.fill.next == |c.chunks|
  {
  }

  lemma BroadcastKeeps(c: Config, me: SenderState, last: bool)
    requires c.Valid() && SenderInv(c, me) && !me.fill.lastSent && MustShip(c, me.fill)
    requires last <==> me.fill.next == |c.chunks|
    ensures SenderInv(c, Broadcast(me, last))
  {
    hide FillInv;
    ShipOne(c, me.fill, me.mem.At(me.sendBuf), me.mem.At(if last then me.sendBuf else me.recvBuf), last);
  }

  lemma ShipKeepsSender(c: Config, s: State, a: Action)
    requires c.Valid() && Inv(c, s) && SenderEnabled(c, s, a) && (a.BroadcastFull? || a.BroadcastLast?)
    ensures SenderInv(c, SenderApply(c, s, a).sender)
  {
    hide ReceiverInv, SenderInv;
    LastMeansAll(c, s.sender);
    BroadcastKeeps(c, s.sender, a.BroadcastLast?);
  }

  /** A receiver only depends on the shipments so far and on what has been published. */
  lemma ReceiverSees(c: Config, me: SenderState, after: SenderState, r: Receiver)
    requires ReceiverInv(c, me, r) && after.fill.ships == me.fill.ships
    requires after.op == me.op || (after.op.None? && me.op.Some? && me.op.value.published && Completed(r) == |me.fill.ships|)
    ensures ReceiverInv(c, after, r)
  {
    hide OpInv, HoldInv;
  }

  lemma ShipSeen(c: Config, me: SenderState, after: SenderState, r: Receiver, ship: Shipment)
    requires ReceiverInv(c, me, r) && me.op.None?
    requires after.fill.ships == me.fill.ships + [ship] && after.op.Some? && !after.op.value.published
    ensures ReceiverInv(c, after, r)
  {
    assert r.held > 0 ==> (me.fill.ships + [ship])[..r.held - 1] == me.fill.ships[..r.held - 1];
  }

  lemma PublishSeen(c: Config, me: SenderState, r: Receiver)
    requires SenderInv(c, me) && ReceiverInv(c, me, r) && me.op.Some? && !me.op.value.published
    ensures ReceiverInv(c, me.(op := Some(me.op.value.(published := true))),
                        r.(inbox := r.inbox + [Notice(me.dicts[me.op.value.dict], me.op.value.isLast)]))
  {
    hide FillInv;
  }

  lemma SenderStepKeeps(c: Config, s: State, a: Action)
    requires c.Valid() && Inv(c, s) && SenderEnabled(c, s, a)
    ensures Inv(c, Apply(c, s, a)) && StepIsSafe(c, s, a)
  {
    hide ReceiverInv, SenderInv;
    var t := SenderApply(c, s, a);
    match a {
      case Fill => FillKeeps(c, s);
      case AwaitBroadcast => AwaitKeeps(c, s.sender);
      case BroadcastFull => ShipKeepsSender(c, s, a);
      case BroadcastLast => ShipKeepsSender(c, s, a);
      case Publish => PublishKeeps(c, s.sender);
    }
    forall i | 0 <= i < |s.receivers| ensures ReceiverInv(c, t.sender, t.receivers[i]) {
      var r := s.receivers[i];
      assert r in s.receivers;
      if a.BroadcastFull? || a.BroadcastLast? {
        ShipSeen(c, s.sender, t.sender, r, t.sender.fill.ships[|s.sender.fill.ships|]);
      } else if a.Publish? {
        PublishSeen(c, s.sender, r);
      } else {
        CompletedBounded(c, s.sender, r);
        ReceiverSees(c, s.sender, t.sender, r);
      }
    }
  }

  lemma CompletedBounded(c: Config, me: SenderState, r: Receiver)
    requires ReceiverInv(c, me, r)
    ensures Completed(r) <= |me.fill.ships|
  {
  }

  lemma AwaitKeeps(c: Config, me: SenderState)
    requires SenderInv(c, me)
    ensures SenderInv(c, me.(op := None))
  {
    hide FillInv;
  }

  lemma PublishKeeps(c: Config, me: SenderState)
    requires SenderInv(c, me) && me.op.Some?
    ensures SenderInv(c, me.(op := Some(me.op.value.(published := true))))
  {
    hide FillInv;
  }

  // ----- the receivers' steps ----------------------------------------------------------------

  lemma TakeNoticeKeeps(c: Config, me: SenderState, r: Receiver)
    requires SenderInv(c, me) && ReceiverInv(c, me, r)
    requires r.op.Some? && r.op.value.notice.None? && r.inbox != []
    ensures ReceiverInv(c, me, ReceiverStep(c, me, r, TakeNotice(0)))
  {
    hide FillInv, ReadShipment, ReadAll;
    assert me.op.Some? && |me.fill.ships| == r.held + 1;
  }

  lemma CopyCellKeeps(c: Config, me: SenderState, r: Receiver, cell: nat)
    requires SenderInv(c, me) && ReceiverInv(c, me, r)
    requires r.op.Some? && r.op.value.notice.Some? && cell in r.op.value.todo
    requires me.op.Some? && me.op.value.published && |me.fill.ships| == r.held + 1
    ensures ReceiverInv(c, me, ReceiverStep(c, me, r, CopyCell(0, cell)))
    ensures r.phase.Yielding? ==> r.op.value.bucket != r.sendBuf
  {
    hide FillInv, ReadShipment, ReadAll;
    assert me.mem.At(me.op.value.bucket) == me.fill.ships[r.held].image;
    assert cell < c.bucketSize;
  }

  lemma SwapKeeps(c: Config, me: SenderState, r: Receiver)
    requires ReceiverInv(c, me, r) && (r.phase == First || r.phase == Await) && Received(r.op)
    ensures ReceiverInv(c, me, ReceiverStep(c, me, r, Swap(0)))
  {
    var ships := me.fill.ships;
    assert r.mem.At(r.recvBuf) == ships[r.held].image;
    hide CopiedSoFar;
    assert ReadShipment(ships[r.held], 0) == [];
    if r.phase == First {
      assert ships[..0] == [];
    } else {
      ReadLast(ships, r.held);
    }
  }

  lemma YieldKeeps(c: Config, me: SenderState, r: Receiver)
    requires ReceiverInv(c, me, r) && r.phase.Yielding? && r.phase.j < |r.metas|
    ensures ReceiverInv(c, me, ReceiverStep(c, me, r, Yield(0)))
  {
    ReadOneMore(me.fill.ships[r.held - 1], r.phase.j);
    hide ReadShipment, ReadAll, View, CopiedSoFar;
  }

  lemma MoveOnKeeps(c: Config, me: SenderState, r: Receiver, a: Action)
    requires ReceiverInv(c, me, r)
    requires (a.Next? && r.phase == Head) || (a.EndYield? && r.phase.Yielding? && r.phase.j == |r.metas|)
    ensures ReceiverInv(c, me, ReceiverStep(c, me, r, a))
  {
    hide ReadShipment, ReadAll, View, CopiedSoFar;
  }

  lemma ReceiverStepKeeps(c: Config, s: State, a: Action)
    requires c.Valid() && Inv(c, s) && ReceiverEnabled(c, s, a)
    ensures Inv(c, s.(receivers := s.receivers[a.i := ReceiverStep(c, s.sender, s.receivers[a.i], a)]))
    ensures !SenderEnabled(c, s, a) ==> StepIsSafe(c, s, a)
  {
    hide ReceiverInv, SenderInv;
    var r := s.receivers[a.i];
    assert r in s.receivers;
    match a
    case TakeNotice(_) => TakeNoticeKeeps(c, s.sender, r);
    case CopyCell(_, cell) => CopyCellKeeps(c, s.sender, r, cell);
    case Swap(_) => SwapKeeps(c, s.sender, r);
    case Yield(_) => YieldKeeps(c, s.sender, r);
    case _ => MoveOnKeeps(c, s.sender, r, a);
  }

  lemma InvKept(c: Config, s: State, a: Action)
    requires c.Valid() && Inv(c, s) && Enabled(c, s, a)
    ensures Inv(c, Apply(c, s, a)) && StepIsSafe(c, s, a)
  {
    hide Inv, StepIsSafe;
    if SenderEnabled(c, s, a) {
      SenderStepKeeps(c, s, a);
    } else {
      ReceiverStepKeeps(c, s, a);
    }
  }
}
