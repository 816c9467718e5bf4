/**
  What every run of the NIXL chain guarantees: no write hits a buffer in use, deliveries are
  prefixes, no run gets stuck or goes on forever, and a run that has ended delivered everything.
*/
module NixlDelivery {
  import opened Sequences
  import opened Wrappers
  import opened WeightChunks
  import opened Buckets
  import opened Alignment
  import opened SendLoop
  import opened NixlChain
  import opened NixlSafety

  lemma {:induction false} InvAlways(c: Config, s: State, acts: seq<Action>)
    requires c.Valid() && Inv(c, s) && Legal(c, s, acts)
    ensures Inv(c, After(c, s, acts))
    decreases |acts|
  {
    hide SenderInv, RankInv;
    if acts != [] {
      InvKept(c, s, acts[0]);
      InvAlways(c, Apply(c, s, acts[0]), acts[1..]);
    }
  }

  // ----- safety ------------------------------------------------------------------------------

  lemma RankFacts(c: Config, s: State, i: nat)
    requires c.Valid() && Inv(c, s) && i < c.receivers
    ensures PhaseInv(s.receivers[i])
    ensures i + 1 < c.receivers ==> OutInv(s.receivers[i], s.links[i + 1])
    ensures var r := s.receivers[i];
      && (r.phase.Yielding? ==> r.phase.j <= |r.metas|)
      && (r.phase != First ==> r.held > 0)
      && (r.transfer.Some? ==>
            r.transfer.value.local == r.sides.recvBuf && (r.transfer.value.done ==> r.transfer.value.todo == {}))
  {
    assert RankInv(c, s, i);
  }

  lemma FillMissesOffer(c: Config, me: SenderState, mem: Memory, out: Link)
    requires SenderInv(c, me, mem, out) && !me.fill.lastSent
    ensures out.readable.Some? ==> out.readable.value.desc != me.sides.sendBuf
  {
  }

  /** No action writes into a buffer that is exposed to the next rank or viewed by a yielded tensor. */
  lemma WritesMissBuffersInUse(c: Config, s: State, a: Action)
    requires c.Valid() && Inv(c, s) && Enabled(c, s, a)
    ensures forall w | w in Written(c, s, a) :: !InUse(c, s, w.0, w.1)
  {
    hide RankInv, SenderInv;
    if a.CopyCell? {
      RankFacts(c, s, a.i);
    } else if a.Fill? {
      FillMissesOffer(c, s.sender, s.mems[0], s.links[0]);
    }
  }

  /** One link carries at most one open operation: every bucket offered but the open one has been read. A rank is never
      ahead of its predecessor. */
  lemma LinkBounds(c: Config, s: State, i: nat)
    requires c.Valid() && Inv(c, s) && i < c.receivers
    ensures |s.links[i].msgs| <= 1 && |s.links[i].notifs| <= 1
    ensures s.receivers[i].held <= s.links[i].exposed <= |s.sender.fill.ships|
    ensures s.links[i].exposed - (if s.links[i].readable.Some? then 1 else 0) <=
      s.receivers[i].held + if TransferDone(s.receivers[i]) then 1 else 0
    ensures i > 0 ==> s.links[i].exposed <= s.receivers[i - 1].held
  {
    assert RankInv(c, s, i);
    if i > 0 { assert RankInv(c, s, i - 1); }
  }

  /** The shipments so far carry a prefix of the buckets the whole stream packs into. */
  lemma PlanCarried(c: Config, s: State)
    requires c.Valid() && Inv(c, s)
    ensures Carries(s.sender.fill.ships, c.Buckets(), c.bucketSize)
    ensures s.sender.fill.lastSent <==> |s.sender.fill.ships| == |c.Buckets()|
  {
    hide RankInv, Carries;
    ShipsCarryPlan(c, s.sender.fill, s.mems[0].At(s.sender.sides.sendBuf));
  }

  /** What a rank has yielded is a prefix of the chunk stream, and all of it once it is done. */
  lemma YieldedIsPrefix(c: Config, s: State, i: nat)
    requires c.Valid() && Inv(c, s) && i < c.receivers
    ensures IsPrefix(s.receivers[i].yielded, Concat(c.Buckets()))
    ensures s.receivers[i].phase == Done ==> s.receivers[i].yielded == Concat(c.Buckets())
  {
    hide SenderInv, LinkInv, TransferInv, OfferHolds, OutInv;
    assert RankInv(c, s, i);
    var r, ships := s.receivers[i], s.sender.fill.ships;
    PlanCarried(c, s);
    if r.phase != First {
      ReadPrefix(ships, c.Buckets(), c.bucketSize, r.held, YieldedOf(r));
      assert CarriesOne(ships[r.held - 1], c.Buckets()[r.held - 1], c.bucketSize, r.held == |c.Buckets()|);
    }
  }

  // ----- progress ----------------------------------------------------------------------------

  /** A predecessor that waits in vain means this receiver has something left to do. */
  lemma WaitedFor(c: Config, s: State, i: nat)
    requires c.Valid() && Inv(c, s) && i < c.receivers
    requires s.links[i].readable.Some? && s.links[i].notifs == []
    ensures s.receivers[i].phase != Done
    ensures s.receivers[i].transfer.None? ==> s.links[i].msgs != []
  {
    hide SenderInv, TransferInv, OfferHolds, OutInv;
    assert RankInv(c, s, i);
    PlanCarried(c, s);
  }

  /** A receiver that is not done and not starved can move, or somebody further down can. */
  lemma {:induction false} ReceiverMoves(c: Config, s: State, i: nat) returns (a: Action)
    requires c.Valid() && Inv(c, s) && i < c.receivers
    requires s.receivers[i].phase != Done
    requires s.receivers[i].transfer.None? && (s.receivers[i].phase == First || s.receivers[i].phase == AwaitMeta)
      ==> s.links[i].msgs != []
    ensures Enabled(c, s, a)
    decreases c.receivers - i
  {
    hide SenderInv, RankInv;
    RankFacts(c, s, i);
    var r := s.receivers[i];
    if r.transfer.Some? && !r.transfer.value.done {
      if r.transfer.value.todo != {} {
        var cell :| cell in r.transfer.value.todo;
        a := CopyCell(i, cell);
      } else {
        a := Complete(i);
      }
    } else {
      match r.phase
      case First => a := if r.transfer.None? then TakeMessage(i) else FirstSwap(i);
      case Head => a := Expose(i);
      case AwaitMeta => a := TakeMessage(i);
      case Yielding(j) => a := if j < |r.metas| then Yield(i) else EndYield(i);
      case AwaitRead => a := NextSwap(i);
      case AwaitAck =>
        if i + 1 < c.receivers && s.links[i + 1].notifs == [] {
          WaitedFor(c, s, i + 1);
          a := ReceiverMoves(c, s, i + 1);
        } else {
          a := Ack(i);
        }
    }
  }

  /** With everything offered on its link, a receiver is done or can move. */
  lemma OfferedAll(c: Config, s: State, i: nat)
    requires c.Valid() && Inv(c, s) && i < c.receivers
    requires s.sender.fill.lastSent && s.links[i].exposed == |s.sender.fill.ships|
    ensures s.receivers[i].transfer.None? && s.links[i].msgs == [] ==>
      s.receivers[i].phase != First && s.receivers[i].phase != AwaitMeta
    ensures s.receivers[i].phase == Done && i + 1 < c.receivers ==>
      s.links[i + 1].exposed == |s.sender.fill.ships| && s.links[i + 1].readable.None?
  {
    hide SenderInv, TransferInv, OfferHolds;
    assert RankInv(c, s, i);
    PlanCarried(c, s);
  }

  lemma {:induction false} SomeReceiverMoves(c: Config, s: State, i: nat) returns (a: Action)
    requires c.Valid() && Inv(c, s) && i < c.receivers
    requires s.sender.fill.lastSent && s.links[i].exposed == |s.sender.fill.ships| && s.links[i].readable.None?
    requires forall k | 0 <= k < i :: s.receivers[k].phase == Done && s.links[k].readable.None?
    requires !NixlChain.Finished(s)
    ensures Enabled(c, s, a)
    decreases c.receivers - i
  {
    OfferedAll(c, s, i);
    if s.receivers[i].phase == Done {
      a := SomeReceiverMoves(c, s, i + 1);
    } else {
      a := ReceiverMoves(c, s, i);
    }
  }

  /** The chain cannot deadlock: in every reachable state that is not final some rank can act. */
  lemma NoDeadlock(c: Config, s: State) returns (a: Action)
    requires c.Valid() && Inv(c, s) && !NixlChain.Finished(s)
    ensures Enabled(c, s, a)
  {
    hide RankInv, ReadyFor, ShipsAre, Holds;
    var me, out := s.sender, s.links[0];
    if !me.fill.lastSent && NextFits(c, me.fill) {
      a := Fill;
    } else if out.readable.None? {
      if me.fill.lastSent {
        a := SomeReceiverMoves(c, s, 0);
      } else {
        a := if me.fill.next < |c.chunks| then ShipFull else ShipLast;
      }
    } else if out.notifs != [] {
      a := SenderAck;
    } else {
      WaitedFor(c, s, 0);
      a := ReceiverMoves(c, s, 0);
    }
  }

  // ----- termination -------------------------------------------------------------------------

  /** More than the steps a receiver spends on one bucket. */
  function Round(c: Config): nat {
    c.bucketSize + |c.chunks| + 8
  }

  function Pending(r: Receiver): nat {
    match r.transfer
    case None => 0
    case Some(t) => |t.todo| + if t.done then 0 else 1
  }

  function LocalSteps(c: Config, r: Receiver): int {
    match r.phase
    case First => if r.transfer.None? then c.bucketSize + 2 else Pending(r)
    case Head => Round(c) - 1
    case AwaitMeta => Round(c) - 2
    case Yielding(j) => |r.metas| - j + 3 + Pending(r)
    case AwaitAck => 2 + Pending(r)
    case AwaitRead => 1 + Pending(r)
    case Done => 0
  }

  function ReceiverSteps(c: Config, r: Receiver): int {
    (|c.Buckets()| - r.held) * Round(c) + LocalSteps(c, r)
  }

  function StepsOf(c: Config): Receiver -> int {
    r => ReceiverSteps(c, r)
  }

  function SumSteps(c: Config, rs: seq<Receiver>): int {
    SumBy(StepsOf(c), rs)
  }

  function SenderSteps(c: Config, s: State): int
    requires WellShaped(c, s)
  {
    4 * (|c.chunks| - s.sender.fill.next) + (if s.links[0].readable.Some? then 1 else 0)
    + (if s.sender.fill.lastSent then 0 else 4) + (if s.sender.fill.packing.open != [] then 2 else 0)
  }

  /** Bounds the number of steps still possible. */
  function StepsLeft(c: Config, s: State): int
    requires WellShaped(c, s)
  {
    SenderSteps(c, s) + SumSteps(c, s.receivers)
  }

  lemma HeldBounded(c: Config, s: State, i: nat)
    requires c.Valid() && Inv(c, s) && i < c.receivers
    ensures s.receivers[i].held + (if s.receivers[i].transfer.Some? then 1 else 0) <= |c.Buckets()|
    ensures s.receivers[i].phase != First ==> |s.receivers[i].metas| <= |c.chunks|
    ensures s.receivers[i].phase.Yielding? ==> s.receivers[i].phase.j <= |s.receivers[i].metas|
    ensures s.receivers[i].phase == AwaitRead ==> s.receivers[i].transfer.Some?
    ensures s.receivers[i].phase.Yielding? || s.receivers[i].phase == AwaitAck ==>
      (s.receivers[i].transfer.Some? <==> !s.receivers[i].isLast)
    ensures s.receivers[i].phase == Head || s.receivers[i].phase == AwaitMeta ==> s.receivers[i].transfer.None?
    ensures s.receivers[i].transfer.Some? && s.receivers[i].transfer.value.done ==> s.receivers[i].transfer.value.todo == {}
  {
    assert RankInv(c, s, i);
    PlanCarried(c, s);
    var r := s.receivers[i];
    if r.phase != First {
      BucketCount(c, r.held - 1);
      assert CarriesOne(s.sender.fill.ships[r.held - 1], c.Buckets()[r.held - 1], c.bucketSize, r.held == |c.Buckets()|);
    }
  }

  lemma SwapPays(buckets: int, held: int, round: int)
    ensures (buckets - held) * round == (buckets - (held + 1)) * round + round
  {
  }

  lemma SwapStepPays(c: Config, s: State, i: nat)
    requires c.Valid() && Inv(c, s) && i < c.receivers && s.receivers[i].transfer.Some?
    requires s.receivers[i].phase == First || s.receivers[i].phase == AwaitRead
    ensures ReceiverSteps(c, SwapIn(s.receivers[i])) < ReceiverSteps(c, s.receivers[i])
  {
    hide RankInv, SenderInv;
    SwapPays(|c.Buckets()|, s.receivers[i].held, Round(c));
  }

  lemma LocalStepPays(c: Config, s: State, a: Action)
    requires c.Valid() && Inv(c, s) && ReceiverEnabled(c, s, a) && !a.FirstSwap? && !a.NextSwap?
    ensures var r, q := s.receivers[a.i], ReceiverApply(c, s, a).receivers[a.i];
      q.held == r.held && LocalSteps(c, q) < LocalSteps(c, r)
  {
    hide RankInv, SenderInv;
    HeldBounded(c, s, a.i);
    RankFacts(c, s, a.i);
    if a.CopyCell? {
      assert |s.receivers[a.i].transfer.value.todo - {a.cell}| == |s.receivers[a.i].transfer.value.todo| - 1;
    }
  }

  lemma ReceiverStepPays(c: Config, s: State, a: Action)
    requires c.Valid() && Inv(c, s) && ReceiverEnabled(c, s, a)
    ensures ReceiverSteps(c, Apply(c, s, a).receivers[a.i]) < ReceiverSteps(c, s.receivers[a.i])
  {
    hide RankInv, SenderInv, LocalSteps;
    if a.FirstSwap? || a.NextSwap? {
      SwapStepPays(c, s, a.i);
    } else {
      LocalStepPays(c, s, a);
    }
  }

  lemma SenderStepPays(c: Config, s: State, a: Action)
    requires c.Valid() && Inv(c, s) && SenderEnabled(c, s, a)
    ensures SenderSteps(c, Apply(c, s, a)) < SenderSteps(c, s)
  {
    hide RankInv, FillInv;
    SenderFacts(c, s.sender, s.mems[0], s.links[0]);
    if a.ShipFull? {
      ShippedIsNotEmpty(c, s.sender.fill, s.mems[0].At(s.sender.sides.sendBuf));
    }
  }

  lemma OnlyOneMoved(c: Config, s: State, a: Action)
    requires WellShaped(c, s) && ReceiverEnabled(c, s, a)
    ensures var t := ReceiverApply(c, s, a);
      t.receivers == s.receivers[a.i := t.receivers[a.i]] && SenderSteps(c, t) == SenderSteps(c, s)
  {
  }

  lemma StepPays(c: Config, s: State, a: Action)
    requires c.Valid() && Inv(c, s) && Enabled(c, s, a)
    ensures StepsLeft(c, Apply(c, s, a)) < StepsLeft(c, s)
  {
    hide SenderInv, RankInv, ReceiverSteps, SenderSteps;
    if SenderEnabled(c, s, a) {
      SenderStepPays(c, s, a);
    } else {
      ReceiverStepPays(c, s, a);
      OnlyOneMoved(c, s, a);
      SumByUpdate(StepsOf(c), s.receivers, a.i, ReceiverApply(c, s, a).receivers[a.i]);
    }
  }

  lemma StepsOfReceiver(c: Config, s: State, i: nat)
    requires c.Valid() && Inv(c, s) && i < c.receivers
    ensures ReceiverSteps(c, s.receivers[i]) >= 0
  {
    hide SenderInv, RankInv;
    HeldBounded(c, s, i);
    Product(|c.Buckets()| - s.receivers[i].held, Round(c));
  }

  lemma Product(a: nat, b: nat)
    ensures a * b >= 0
  {
  }

  lemma {:induction false} SumNonNegative(c: Config, s: State, n: nat)
    requires c.Valid() && Inv(c, s) && n <= c.receivers
    ensures SumSteps(c, s.receivers[..n]) >= 0
  {
    hide SenderInv, RankInv, ReceiverSteps;
    if n > 0 {
      SumNonNegative(c, s, n - 1);
      StepsOfReceiver(c, s, n - 1);
      assert s.receivers[..n][..n - 1] == s.receivers[..n - 1];
    }
  }

  lemma StepsNonNegative(c: Config, s: State)
    requires c.Valid() && Inv(c, s)
    ensures StepsLeft(c, s) >= 0
  {
    SumNonNegative(c, s, c.receivers);
    assert s.receivers[..c.receivers] == s.receivers;
  }

  /** Every run is finite: its length is bounded by a number known at the start. */
  lemma {:induction false} RunsEnd(c: Config, s: State, acts: seq<Action>)
    requires c.Valid() && Inv(c, s) && Legal(c, s, acts)
    ensures |acts| <= StepsLeft(c, s)
    decreases |acts|
  {
    hide SenderInv, RankInv;
    StepsNonNegative(c, s);
    if acts != [] {
      InvKept(c, s, acts[0]);
      StepPays(c, s, acts[0]);
      RunsEnd(c, Apply(c, s, acts[0]), acts[1..]);
    }
  }

  // ----- the theorems ------------------------------------------------------------------------

  /** Safety of every reachable state, for any number of ranks and any interleaving. */
  lemma EveryReachableStateIsSafe(c: Config, acts: seq<Action>, a: Action)
    requires c.Valid() && Legal(c, Init(c), acts)
    ensures var s := After(c, Init(c), acts);
      && (Enabled(c, s, a) ==>
            AssertionsHold(c, s, a) && forall w | w in Written(c, s, a) :: !InUse(c, s, w.0, w.1))
      && s.sender.sides.Paired()
      && (forall i | 0 <= i < c.receivers ::
            s.receivers[i].sides.Paired() && |s.links[i].msgs| <= 1 && |s.links[i].notifs| <= 1)
      && (forall i | 0 <= i < c.receivers :: IsPrefix(s.receivers[i].yielded, Concat(c.Buckets())))
      && (forall i | 0 < i < c.receivers :: s.receivers[i].held <= s.receivers[i - 1].held)
  {
    hide SenderInv, RankInv;
    InitInv(c);
    InvAlways(c, Init(c), acts);
    var s := After(c, Init(c), acts);
    if Enabled(c, s, a) {
      InvKept(c, s, a);
      WritesMissBuffersInUse(c, s, a);
    }
    SenderFacts(c, s.sender, s.mems[0], s.links[0]);
    forall i: nat | i < c.receivers
      ensures s.receivers[i].sides.Paired() && |s.links[i].msgs| <= 1 && |s.links[i].notifs| <= 1
      ensures IsPrefix(s.receivers[i].yielded, Concat(c.Buckets()))
      ensures i > 0 ==> s.receivers[i].held <= s.receivers[i - 1].held
    {
      LinkBounds(c, s, i);
      YieldedIsPrefix(c, s, i);
      StaysPaired(c, s, i);
    }
  }

  lemma StaysPaired(c: Config, s: State, i: nat)
    requires Inv(c, s) && i < c.receivers
    ensures s.receivers[i].sides.Paired()
  {
    assert RankInv(c, s, i);
  }

  /**
    End to end: whatever the interleaving, a transfer takes boundedly many steps, and when nothing can move any more
    every rank has put together exactly the sender's non-empty weights if and only if they are aligned; then no rank's
    merging ever stops on the way.
  */
  lemma ChainDelivers(ws: seq<Weight>, bucketSize: nat, receivers: nat, acts: seq<Action>)
    requires bucketSize > 0 && receivers > 0 && DistinctNames(ws) && forall w :: w in ws ==> w.WellFormed()
    requires var c := Config(SplitAll(ws, bucketSize), bucketSize, receivers); Legal(c, Init(c), acts)
    ensures var c := Config(SplitAll(ws, bucketSize), bucketSize, receivers);
      var s := After(c, Init(c), acts);
      && |acts| <= StepsLeft(c, Init(c))
      && ((forall a :: !Enabled(c, s, a)) <==> NixlChain.Finished(s))
      && (AllAligned(ws, bucketSize) ==>
            forall i | 0 <= i < receivers :: MergeFrom(MERGE_START, s.receivers[i].yielded, bucketSize).error.None?)
      && (NixlChain.Finished(s) ==>
            forall i | 0 <= i < receivers ::
              (MergeFrom(MERGE_START, s.receivers[i].yielded, bucketSize) == Merged(MergeState(None, NonEmpty(ws)), None)
               <==> AllAligned(ws, bucketSize)))
  {
    hide SenderInv, RankInv, AllAligned, MergeFrom;
    var c := Config(SplitAll(ws, bucketSize), bucketSize, receivers);
    SplitIsPackable(ws, bucketSize);
    InitInv(c);
    RunsEnd(c, Init(c), acts);
    InvAlways(c, Init(c), acts);
    var s := After(c, Init(c), acts);
    if AllAligned(ws, bucketSize) {
      forall i: nat | i < receivers ensures MergeFrom(MERGE_START, s.receivers[i].yielded, bucketSize).error.None? {
        YieldedIsPrefix(c, s, i);
        PrefixMerges(ws, bucketSize, s.receivers[i].yielded);
      }
    }
    if !NixlChain.Finished(s) {
      var a := NoDeadlock(c, s);
    } else {
      forall a ensures !Enabled(c, s, a) {
        FinishedIsFinal(c, s, a);
      }
      forall i: nat | i < receivers
        ensures MergeFrom(MERGE_START, s.receivers[i].yielded, bucketSize) == Merged(MergeState(None, NonEmpty(ws)), None)
          <==> AllAligned(ws, bucketSize)
      {
        assert s.receivers[i] in s.receivers;
        YieldedIsPrefix(c, s, i);
        BucketsRebuildWeights(ws, bucketSize, s.receivers[i].yielded);
      }
    }
  }

  lemma FinishedIsFinal(c: Config, s: State, a: Action)
    requires c.Valid() && Inv(c, s) && NixlChain.Finished(s)
    ensures !Enabled(c, s, a)
  {
    hide SenderInv, RankInv;
    assert s.links[0] in s.links;
    SenderFacts(c, s.sender, s.mems[0], s.links[0]);
    if !a.Fill? && !a.SenderAck? && !a.ShipFull? && !a.ShipLast? && a.i < c.receivers {
      assert s.receivers[a.i] in s.receivers;
      RankFacts(c, s, a.i);
    }
  }
}
