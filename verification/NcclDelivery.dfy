/** What every run of the NCCL broadcast guarantees: safety, progress, an end, and complete delivery. */
module NcclDelivery {
  import opened Sequences
  import opened Wrappers
  import opened WeightChunks
  import opened Buckets
  import opened Alignment
  import opened SendLoop
  import opened NcclBroadcast

  lemma {:induction false} InvAlways(c: Config, s: State, acts: seq<Action>)
    requires c.Valid() && Inv(c, s) && Legal(c, s, acts)
    ensures Inv(c, After(c, s, acts))
    decreases |acts|
  {
    hide SenderInv, ReceiverInv;
    if acts != [] {
      InvKept(c, s, acts[0]);
      InvAlways(c, Apply(c, s, acts[0]), acts[1..]);
    }
  }

  lemma PlanCarried(c: Config, me: SenderState)
    requires c.Valid() && SenderInv(c, me)
    ensures Carries(me.fill.ships, c.Buckets(), c.bucketSize)
    ensures me.fill.lastSent <==> |me.fill.ships| == |c.Buckets()|
  {
    hide Carries;
    ShipsCarryPlan(c, me.fill, me.mem.At(me.sendBuf));
  }

  lemma YieldedIsPrefix(c: Config, me: SenderState, r: Receiver)
    requires c.Valid() && SenderInv(c, me) && ReceiverInv(c, me, r)
    ensures IsPrefix(r.yielded, Concat(c.Buckets()))
    ensures r.phase == Done ==> r.yielded == Concat(c.Buckets())
  {
    hide SenderInv, QueueInv, OpInv;
    PlanCarried(c, me);
    if r.phase != First {
      ReadPrefix(me.fill.ships, c.Buckets(), c.bucketSize, r.held, YieldedOf(r));
      assert CarriesOne(me.fill.ships[r.held - 1], c.Buckets()[r.held - 1], c.bucketSize, r.held == |c.Buckets()|);
    }
  }

  // ----- progress ----------------------------------------------------------------------------

  /** A receiver that holds up the others, or that is not done although all buckets went out, can move. */
  lemma ReceiverMoves(c: Config, s: State, i: nat) returns (a: Action)
    requires c.Valid() && Inv(c, s) && i < c.receivers
    requires s.receivers[i].phase != Done
    requires s.sender.op.Some? ==> s.sender.op.value.published && Completed(s.receivers[i]) < |s.sender.fill.ships|
    requires s.sender.op.None? ==> s.sender.fill.lastSent
    ensures Enabled(c, s, a)
  {
    hide SenderInv, ReadAll, ReadShipment, CopiedSoFar;
    var r, me := s.receivers[i], s.sender;
    assert r in s.receivers;
    PlanCarried(c, me);
    if r.phase == Head {
      a := Next(i);
    } else if r.phase.Yielding? {
      a := if r.phase.j < |r.metas| then Yield(i) else EndYield(i);
    } else {
      WaitingReceiver(c, me, r);
      if Received(r.op) {
        a := Swap(i);
      } else if r.op.value.notice.None? {
        a := TakeNotice(i);
      } else {
        var cell :| cell in r.op.value.todo;
        a := CopyCell(i, cell);
      }
    }
  }

  lemma LastBucketHeld(c: Config, me: SenderState, r: Receiver)
    requires c.Valid() && SenderInv(c, me) && ReceiverInv(c, me, r) && r.phase != First
    ensures r.isLast <==> r.held == |c.Buckets()|
  {
    PlanCarried(c, me);
    hide SenderInv, ReadAll, ReadShipment, CopiedSoFar;
    assert CarriesOne(me.fill.ships[r.held - 1], c.Buckets()[r.held - 1], c.bucketSize, r.held == |c.Buckets()|);
  }

  lemma WaitingReceiver(c: Config, me: SenderState, r: Receiver)
    requires c.Valid() && SenderInv(c, me) && ReceiverInv(c, me, r) && (r.phase == First || r.phase == Await)
    requires me.op.Some? ==> me.op.value.published && Completed(r) < |me.fill.ships|
    requires me.op.None? ==> me.fill.lastSent
    ensures r.op.Some? && (r.op.value.notice.None? ==> r.inbox != [])
    ensures !Received(r.op) ==> me.op.Some? && r.held + 1 == |me.fill.ships|
  {
    PlanCarried(c, me);
    if r.phase == Await { LastBucketHeld(c, me, r); }
    SomethingPlanned(c);
    hide SenderInv, ReadAll, ReadShipment, CopiedSoFar, Carries;
  }

  lemma SomethingPlanned(c: Config)
    ensures |c.Buckets()| > 0
  {
  }

  lemma NotYetDone(c: Config, me: SenderState, r: Receiver)
    requires c.Valid() && SenderInv(c, me) && ReceiverInv(c, me, r) && Completed(r) < |me.fill.ships|
    ensures r.phase != Done
  {
    PlanCarried(c, me);
    if r.phase != First { LastBucketHeld(c, me, r); }
    hide SenderInv, ReadAll, ReadShipment, CopiedSoFar, Carries;
  }

  lemma NoDeadlock(c: Config, s: State) returns (a: Action)
    requires c.Valid() && Inv(c, s) && !NcclBroadcast.Finished(s)
    ensures Enabled(c, s, a)
  {
    hide SenderInv, ReceiverInv;
    var me := s.sender;
    LastMeansAll(c, me);
    AllConsumed(c, me);
    if !me.fill.lastSent && NextFits(c, me.fill) {
      a := Fill;
    } else if me.op.Some? && !me.op.value.published {
      a := Publish;
    } else if me.op.Some? && exists i: nat :: i < c.receivers && Completed(s.receivers[i]) < |me.fill.ships| {
      var i: nat :| i < c.receivers && Completed(s.receivers[i]) < |me.fill.ships|;
      assert s.receivers[i] in s.receivers;
      NotYetDone(c, me, s.receivers[i]);
      a := ReceiverMoves(c, s, i);
    } else if me.op.Some? {
      a := AwaitBroadcast;
    } else if me.fill.lastSent {
      var i: nat :| i < c.receivers && s.receivers[i].phase != Done;
      a := ReceiverMoves(c, s, i);
    } else {
      a := if me.fill.next < |c.chunks| then BroadcastFull else BroadcastLast;
    }
  }

  lemma AllConsumed(c: Config, me: SenderState)
    requires SenderInv(c, me)
    ensures me.fill.next <= |c.chunks|
  {
  }

  lemma FinishedIsFinal(c: Config, s: State, a: Action)
    requires c.Valid() && Inv(c, s) && NcclBroadcast.Finished(s)
    ensures !Enabled(c, s, a)
  {
    hide SenderInv, QueueInv, ReadAll, ReadShipment, CopiedSoFar;
    LastMeansAll(c, s.sender);
    if (a.TakeNotice? || a.CopyCell? || a.Swap? || a.Next? || a.Yield? || a.EndYield?) && a.i < c.receivers {
      assert s.receivers[a.i] in s.receivers;
      assert ReceiverInv(c, s.sender, s.receivers[a.i]);
    }
  }

  // ----- termination -------------------------------------------------------------------------

  function Round(c: Config): nat {
    c.bucketSize + |c.chunks| + 8
  }

  function Pending(c: Config, r: Receiver): nat {
    match r.op
    case None => 0
    case Some(op) => if op.notice.None? then c.bucketSize + 1 else |op.todo|
  }

  function LocalSteps(c: Config, r: Receiver): int {
    match r.phase
    case First => Pending(c, r)
    case Head => Round(c) - 1
    case Yielding(j) => |r.metas| - j + 2 + Pending(c, r)
    case Await => 1 + Pending(c, r)
    case Done => 0
  }

  function ReceiverSteps(c: Config, r: Receiver): int {
    (|c.Buckets()| - r.held) * Round(c) + LocalSteps(c, r)
  }

  function StepsOf(c: Config): Receiver -> int {
    r => ReceiverSteps(c, r)
  }

  function SumSteps(c: Config, rs: seq<Receiver>): int {
    SumBy(StepsOf(c), rs)
  }

  function SenderSteps(c: Config, me: SenderState): int {
    5 * (|c.chunks| - me.fill.next) + (if me.fill.lastSent then 0 else 5) + (if me.fill.packing.open != [] then 3 else 0)
    + match me.op { case None => 0 case Some(op) => if op.published then 1 else 2 }
  }

  /** Bounds the number of steps still possible. */
  function StepsLeft(c: Config, s: State): int {
    SenderSteps(c, s.sender) + SumSteps(c, s.receivers)
  }

  /** Inboxes do not count. */
  lemma {:induction false} SumSame(c: Config, rs: seq<Receiver>, qs: seq<Receiver>)
    requires |rs| == |qs| && forall i | 0 <= i < |rs| :: qs[i] == rs[i].(inbox := qs[i].inbox)
    ensures SumSteps(c, rs) == SumSteps(c, qs)
    decreases |rs|
  {
    if rs != [] {
      SumSame(c, rs[..|rs| - 1], qs[..|rs| - 1]);
    }
  }

  lemma ReceiverBounds(c: Config, me: SenderState, r: Receiver)
    requires c.Valid() && SenderInv(c, me) && ReceiverInv(c, me, r)
    ensures r.held + (if r.op.Some? && r.op.value.notice.Some? then 1 else 0) <= |c.Buckets()|
    ensures r.phase != First ==> |r.metas| <= |c.chunks| && (r.op.Some? <==> !r.isLast && r.phase != Head)
    ensures r.phase.Yielding? ==> r.phase.j <= |r.metas|
    ensures r.op.Some? && r.op.value.notice.None? ==> r.op.value.todo == CellsBelow(c.bucketSize)
  {
    PlanCarried(c, me);
    hide SenderInv, ReadAll, ReadShipment, CopiedSoFar;
    if r.phase != First {
      BucketCount(c, r.held - 1);
      assert CarriesOne(me.fill.ships[r.held - 1], c.Buckets()[r.held - 1], c.bucketSize, r.held == |c.Buckets()|);
    }
  }

  lemma SwapPays(c: Config, r: Receiver, me: SenderState)
    requires (r.phase == First || r.phase == Await) && Received(r.op)
    ensures ReceiverSteps(c, ReceiverStep(c, me, r, Swap(0))) < ReceiverSteps(c, r)
  {
    var b, h, round := |c.Buckets()|, r.held, Round(c);
    assert (b - h) * round == (b - (h + 1)) * round + round;
  }

  lemma QueueStepPays(c: Config, me: SenderState, r: Receiver, a: Action)
    requires c.Valid() && SenderInv(c, me) && ReceiverInv(c, me, r)
    requires match a
             case TakeNotice(_) => r.op.Some? && r.op.value.notice.None? && r.inbox != []
             case CopyCell(_, cell) =>
               r.op.Some? && r.op.value.notice.Some? && cell in r.op.value.todo && me.op.Some?
             case _ => false
    ensures var q := ReceiverStep(c, me, r, a); q.held == r.held && LocalSteps(c, q) < LocalSteps(c, r)
  {
    hide SenderInv, ReceiverInv;
    ReceiverBounds(c, me, r);
    DoneHasNoOp(c, me, r);
    if a.CopyCell? {
      assert |r.op.value.todo - {a.cell}| == |r.op.value.todo| - 1;
    }
  }

  lemma LoopStepPays(c: Config, me: SenderState, r: Receiver, a: Action)
    requires c.Valid() && SenderInv(c, me) && ReceiverInv(c, me, r)
    requires match a
             case Next(_) => r.phase == Head
             case Yield(_) => r.phase.Yielding? && r.phase.j < |r.metas|
             case EndYield(_) => r.phase.Yielding? && r.phase.j == |r.metas|
             case _ => false
    ensures var q := ReceiverStep(c, me, r, a); q.held == r.held && LocalSteps(c, q) < LocalSteps(c, r)
  {
    hide SenderInv, ReceiverInv, View;
    ReceiverBounds(c, me, r);
  }

  lemma DoneHasNoOp(c: Config, me: SenderState, r: Receiver)
    requires ReceiverInv(c, me, r)
    ensures r.phase == Done || r.phase == Head ==> r.op.None?
  {
  }

  lemma ReceiverStepPays(c: Config, s: State, a: Action)
    requires c.Valid() && Inv(c, s) && ReceiverEnabled(c, s, a)
    ensures ReceiverSteps(c, ReceiverStep(c, s.sender, s.receivers[a.i], a)) < ReceiverSteps(c, s.receivers[a.i])
  {
    hide SenderInv, ReceiverInv, LocalSteps;
    assert s.receivers[a.i] in s.receivers;
    if a.Swap? {
      SwapPays(c, s.receivers[a.i], s.sender);
    } else if a.TakeNotice? || a.CopyCell? {
      QueueStepPays(c, s.sender, s.receivers[a.i], a);
    } else {
      LoopStepPays(c, s.sender, s.receivers[a.i], a);
    }
  }

  lemma SenderStepPays(c: Config, s: State, a: Action)
    requires c.Valid() && Inv(c, s) && SenderEnabled(c, s, a)
    ensures SenderSteps(c, SenderApply(c, s, a).sender) < SenderSteps(c, s.sender)
    ensures SumSteps(c, SenderApply(c, s, a).receivers) == SumSteps(c, s.receivers)
  {
    hide ReceiverInv, FillInv;
    LastMeansAll(c, s.sender);
    if a.BroadcastFull? {
      ShippedIsNotEmpty(c, s.sender.fill, s.sender.mem.At(s.sender.sendBuf));
    }
    SumSame(c, s.receivers, SenderApply(c, s, a).receivers);
  }

  lemma StepPays(c: Config, s: State, a: Action)
    requires c.Valid() && Inv(c, s) && Enabled(c, s, a)
    ensures StepsLeft(c, Apply(c, s, a)) < StepsLeft(c, s)
  {
    hide SenderInv, ReceiverInv, ReceiverSteps, SenderSteps, ReceiverStep, SenderApply;
    if SenderEnabled(c, s, a) {
      SenderStepPays(c, s, a);
    } else {
      ReceiverStepPays(c, s, a);
      SumByUpdate(StepsOf(c), s.receivers, a.i, ReceiverStep(c, s.sender, s.receivers[a.i], a));
    }
  }

  lemma LocalStepsNonNegative(c: Config, me: SenderState, r: Receiver)
    requires c.Valid() && SenderInv(c, me) && ReceiverInv(c, me, r)
    ensures LocalSteps(c, r) >= 0 && r.held <= |c.Buckets()|
  {
    hide SenderInv, ReceiverInv;
    ReceiverBounds(c, me, r);
  }

  lemma Product(a: nat, b: nat)
    ensures a * b >= 0
  {
  }

  lemma ReceiverStepsNonNegative(c: Config, me: SenderState, r: Receiver)
    requires c.Valid() && SenderInv(c, me) && ReceiverInv(c, me, r)
    ensures ReceiverSteps(c, r) >= 0
  {
    hide SenderInv, ReceiverInv, LocalSteps, Round;
    LocalStepsNonNegative(c, me, r);
    Product(|c.Buckets()| - r.held, Round(c));
  }

  lemma {:induction false} SumNonNegative(c: Config, s: State, n: nat)
    requires c.Valid() && Inv(c, s) && n <= c.receivers
    ensures SumSteps(c, s.receivers[..n]) >= 0
  {
    hide SenderInv, ReceiverInv, ReceiverSteps;
    if n > 0 {
      SumNonNegative(c, s, n - 1);
      assert s.receivers[n - 1] in s.receivers;
      ReceiverStepsNonNegative(c, s.sender, s.receivers[n - 1]);
      assert s.receivers[..n][..n - 1] == s.receivers[..n - 1];
    }
  }

  lemma {:induction false} RunsEnd(c: Config, s: State, acts: seq<Action>)
    requires c.Valid() && Inv(c, s) && Legal(c, s, acts)
    ensures |acts| <= StepsLeft(c, s)
    decreases |acts|
  {
    hide SenderInv, ReceiverInv, SenderSteps, SumSteps;
    if acts == [] {
      SumNonNegative(c, s, c.receivers);
      assert s.receivers[..c.receivers] == s.receivers;
      SenderStepsNonNegative(c, s.sender);
    } else {
      InvKept(c, s, acts[0]);
      StepPays(c, s, acts[0]);
      RunsEnd(c, Apply(c, s, acts[0]), acts[1..]);
    }
  }

  lemma SenderStepsNonNegative(c: Config, me: SenderState)
    requires SenderInv(c, me)
    ensures SenderSteps(c, me) >= 0
  {
    AllConsumed(c, me);
  }

  // ----- the theorem -------------------------------------------------------------------------

  /**
    Under every interleaving of filling, broadcasting and yielding: no step is unsafe, the chunks
    each rank has yielded are a prefix of the sender's, a transfer takes boundedly many steps, it
    stops only when everybody is done, and then every rank has put together exactly the sender's
    non-empty weights if and only if they are aligned; then no rank's merging ever stops on the way.
  */
  lemma BroadcastDelivers(ws: seq<Weight>, bucketSize: nat, receivers: nat, acts: seq<Action>)
    requires bucketSize > 0 && receivers > 0 && DistinctNames(ws) && forall w :: w in ws ==> w.WellFormed()
    requires var c := Config(SplitAll(ws, bucketSize), bucketSize, receivers); Legal(c, Init(c), acts)
    ensures var c := Config(SplitAll(ws, bucketSize), bucketSize, receivers);
      var s := After(c, Init(c), acts);
      && |acts| <= StepsLeft(c, Init(c))
      && (forall a | Enabled(c, s, a) :: StepIsSafe(c, s, a))
      && (forall r | r in s.receivers :: IsPrefix(r.yielded, Concat(c.Buckets())))
      && ((forall a :: !Enabled(c, s, a)) <==> NcclBroadcast.Finished(s))
      && (AllAligned(ws, bucketSize) ==>
            forall r | r in s.receivers :: MergeFrom(MERGE_START, r.yielded, bucketSize).error.None?)
      && (NcclBroadcast.Finished(s) ==>
            forall r | r in s.receivers ::
              (MergeFrom(MERGE_START, r.yielded, bucketSize) == Merged(MergeState(None, NonEmpty(ws)), None)
               <==> AllAligned(ws, bucketSize)))
  {
    hide SenderInv, ReceiverInv, StepIsSafe, AllAligned, MergeFrom;
    var c := Config(SplitAll(ws, bucketSize), bucketSize, receivers);
    SplitIsPackable(ws, bucketSize);
    InitInv(c);
    RunsEnd(c, Init(c), acts);
    InvAlways(c, Init(c), acts);
    var s := After(c, Init(c), acts);
    forall a | Enabled(c, s, a) ensures StepIsSafe(c, s, a) {
      InvKept(c, s, a);
    }
    forall r | r in s.receivers
      ensures IsPrefix(r.yielded, Concat(c.Buckets()))
      ensures AllAligned(ws, bucketSize) ==> MergeFrom(MERGE_START, r.yielded, bucketSize).error.None?
      ensures r.phase == Done ==>
        (MergeFrom(MERGE_START, r.yielded, bucketSize) == Merged(MergeState(None, NonEmpty(ws)), None)
         <==> AllAligned(ws, bucketSize))
    {
      YieldedIsPrefix(c, s.sender, r);
      if AllAligned(ws, bucketSize) { PrefixMerges(ws, bucketSize, r.yielded); }
      if r.phase == Done { BucketsRebuildWeights(ws, bucketSize, r.yielded); }
    }
    if NcclBroadcast.Finished(s) {
      forall a ensures !Enabled(c, s, a) {
        FinishedIsFinal(c, s, a);
      }
    } else {
      var a := NoDeadlock(c, s);
    }
  }
}
