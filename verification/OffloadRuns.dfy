/**
  Runs of the offload handler: any number of iterations, each made of L forward commits with
  arbitrary pushes before them and L backward commits, the tensors of a group being popped after
  the backward commit that reaches it.
*/
module OffloadRuns {
  import opened Wrappers
  import opened WindowMap
  import opened OffloadHandler

  /**
    The handler, the pushed tensors not popped yet, the direction, and the bulk operations of the
    current iteration in order.
  */
  datatype Machine = Machine(
    h: Handler, live: map<Tag, Tensor>, backward: bool, offloads: seq<nat>, reloads: seq<nat>)

  datatype Action =
    | PushTensor(tensor: Tensor)
    | ForwardCommit(m0: map<Key, Tensor>, m1: map<Key, Tensor>)
    | BackwardCommit
    | PopTensor(tag: Tag)
    | NextIteration

  const START := Machine(FRESH, map[], false, [], [])

  /** The assumption on callers: within a group, tensors with equal keys have equal contents. */
  ghost predicate KeyIsConsistent(m: Machine, t: Tensor) {
    t.WellFormed()
    && forall tag | tag in m.live && tag.group == m.h.currentGroup && m.live[tag].key == t.key ::
         m.live[tag].data == t.data
  }

  /** The run shape. Whether the handler copes is not part of it. */
  ghost predicate Enabled(p: Params, m: Machine, a: Action)
    requires p.Valid()
  {
    match a
    case PushTensor(t) => !m.backward && m.h.currentGroup < p.l && KeyIsConsistent(m, t)
    case ForwardCommit(m0, m1) => !m.backward && m.h.currentGroup < p.l && CopiesFor(p, m.h, m0, m1)
    case BackwardCommit =>
      m.backward && m.h.currentGroup > 0 && forall tag | tag in m.live :: tag.group < m.h.currentGroup
    case PopTensor(tag) => m.backward && tag in m.live && tag.group == m.h.currentGroup
    case NextIteration => m.backward && m.h.currentGroup == 0 && m.live == map[]
  }

  /** No assertion fails, no dict is indexed with a missing key, and a pop returns what was pushed. */
  ghost predicate Safe(p: Params, m: Machine, a: Action)
    requires p.Valid()
  {
    match a
    case PushTensor(_) => Tag(m.h.currentGroup, m.h.count) !in m.h.state
    case ForwardCommit(_, _) => CanCommitForward(p, m.h)
    case BackwardCommit => CanCommitBackward(p, m.h)
    case PopTensor(tag) => tag in m.live && tag in m.h.state && m.h.state[tag] == Device(m.live[tag])
    case NextIteration => true
  }

  /** The groups a forward commit bulk-offloads. */
  function Offloads(p: Params, h: Handler): seq<nat>
    requires p.Valid()
  {
    (if h.currentGroup == 0 then [0] else [])
    + (if WindowCloses(p, h) && h.offloaded < p.n - 1 then [h.offloaded + 1] else [])
  }

  function Reloads(p: Params, h: Handler): seq<nat>
    requires p.Valid()
  {
    if ReloadDue(p, h) then [h.offloaded - 1] else []
  }

  ghost function Apply(p: Params, m: Machine, a: Action): Machine
    requires p.Valid() && Enabled(p, m, a) && Safe(p, m, a)
  {
    match a
    case PushTensor(t) =>
      m.(h := Push(p, m.h, t), live := m.live[Tag(m.h.currentGroup, m.h.count) := t])
    case ForwardCommit(m0, m1) =>
      m.(h := CommitForward(p, m.h, m0, m1), backward := m.h.currentGroup + 1 == p.l,
         offloads := m.offloads + Offloads(p, m.h))
    case BackwardCommit =>
      m.(h := CommitBackward(p, m.h), reloads := m.reloads + Reloads(p, m.h))
    case PopTensor(tag) => m.(h := Drop(m.h, tag), live := m.live - {tag})
    case NextIteration => m.(backward := false, offloads := [], reloads := [])
  }

  // ----- invariant ---------------------------------------------------------------------------

  /** Groups 0 .. n - 1, and groups n - 1 down to r. */
  function Up(n: nat): seq<nat> {
    seq(n, i requires 0 <= i < n => i)
  }

  function Down(n: nat, r: nat): seq<nat>
    requires r <= n
  {
    seq(n - r, i requires 0 <= i < n - r => n - 1 - i)
  }

  /** How many groups have been bulk-offloaded in the forward pass so far. */
  function Started(p: Params, h: Handler): nat {
    if h.currentGroup == 0 then 0 else if h.offloaded < p.n then h.offloaded + 1 else p.n
  }

  /** The slot of a live tensor holds it, or its group's copies can restore it. */
  ghost predicate SlotOk(h: Handler, tag: Tag, t: Tensor) {
    && t.WellFormed() && tag in h.state
    && match h.state[tag]
       case Device(d) => d == t
       case Host(key, shape) =>
         key == t.key && shape == t.shape && tag.group in h.mapping
         && key in h.mapping[tag.group] && h.mapping[tag.group][key].data == t.data
  }

  ghost predicate SlotsOk(h: Handler, live: map<Tag, Tensor>) {
    h.state.Keys == live.Keys && forall tag | tag in live :: SlotOk(h, tag, live[tag])
  }

  ghost predicate Common(p: Params, m: Machine) {
    && m.h.currentGroup <= p.l && m.h.offloaded <= p.n
    && SlotsOk(m.h, m.live)
    && (forall tag :: tag in m.h.buf <==> tag in m.live && tag.group < p.n)
    && KeysConsistent(m.live)
  }

  ghost predicate KeysConsistent(live: map<Tag, Tensor>) {
    forall s, t | s in live && t in live && s.group == t.group && live[s].key == live[t].key ::
      live[s].data == live[t].data
  }

  /** `g` more groups than have been started hold only device tensors. */
  ghost predicate OnDeviceFrom(h: Handler, g: nat) {
    forall tag | tag in h.state && tag.group >= g :: h.state[tag].Device?
  }

  /** Of the windows, exactly the first c have ended before layer `cur`. */
  predicate Ended(p: Params, c: nat, cur: nat)
    requires p.Valid()
  {
    && c <= p.n
    && (c > 0 ==> Window(p.n, p.l, c - 1) < cur)
    && (c < p.n ==> Window(p.n, p.l, c) >= cur)
  }

  /** Groups whose window has not ended keep a device reference to every live tensor. */
  ghost predicate BuffersKept(h: Handler, live: map<Tag, Tensor>) {
    forall tag | tag in h.buf && tag.group >= h.offloaded :: tag in live && h.buf[tag] == Some(live[tag])
  }

  ghost predicate ForwardInv(p: Params, m: Machine)
    requires p.Valid()
  {
    var h := m.h;
    && h.currentGroup < p.l
    && (forall tag | tag in m.live ::
          tag.group < h.currentGroup || (tag.group == h.currentGroup && tag.index < h.count))
    && Ended(p, h.offloaded, h.currentGroup)
    && m.offloads == Up(Started(p, h)) && m.reloads == []
    && h.mapping.Keys == (set g | g in Up(Started(p, h)))
    && OnDeviceFrom(h, Started(p, h))
    && (forall tag | tag in h.buf && tag.group < h.offloaded :: h.buf[tag] == None)
    && BuffersKept(h, m.live)
    && (forall tag | tag in h.state :: h.state[tag].Host? <==> Offloadable(p, tag.group) && tag.group < Started(p, h))
  }

  /** Groups whose tensors are really moved: all below N if a layer is left over, else only the first. */
  predicate Offloadable(p: Params, g: nat) {
    g < p.n && (p.n < p.l || g == 0)
  }

  ghost predicate BackwardInv(p: Params, m: Machine, r: nat)
    requires p.Valid()
  {
    var h := m.h;
    && h.count == 0 && r <= p.n
    && (forall tag | tag in m.live :: tag.group <= h.currentGroup && tag.group < p.l)
    && Ended(p, r, h.currentGroup)
    && h.offloaded == (if h.currentGroup == 0 then 0 else if r > 0 then r else 1)
    && m.offloads == Up(p.n) && m.reloads == Down(p.n, r)
    && h.mapping.Keys == (set g | g in Up(r))
    && (forall tag | tag in h.buf :: h.buf[tag] == None)
    && (forall tag | tag in h.state :: h.state[tag].Host? <==> Offloadable(p, tag.group) && tag.group < r)
  }

  ghost predicate Inv(p: Params, m: Machine)
    requires p.Valid()
  {
    Common(p, m) && if m.backward then exists r :: BackwardInv(p, m, r) else ForwardInv(p, m)
  }

  lemma StartInv(p: Params)
    requires p.Valid()
    ensures Inv(p, START)
  {
    WindowNotEarly(p.n, p.l, 0);
  }

  /** Only groups up to the next one have been started; the current one only if none is spared. */
  lemma StartedBelow(p: Params, h: Handler)
    requires p.Valid() && h.currentGroup < p.l && Ended(p, h.offloaded, h.currentGroup)
    ensures Started(p, h) <= h.currentGroup || (p.n == p.l && Started(p, h) == h.currentGroup + 1 && h.currentGroup > 0)
    ensures h.offloaded < p.n
  {
    hide Window;
    var c := h.offloaded;
    WindowEnds(p.n, p.l);
    if c > 0 {
      WindowNotEarly(p.n, p.l, c - 1);
      if p.n < p.l && c < p.n {
        WindowLeavesRoom(p.n, p.l, c - 1);
      } else if p.n == p.l {
        WindowTight(p.n, c - 1);
      }
    }
  }

  lemma PushSlots(p: Params, h: Handler, live: map<Tag, Tensor>, t: Tensor)
    requires SlotsOk(h, live) && t.WellFormed()
    ensures SlotsOk(Push(p, h, t), live[Tag(h.currentGroup, h.count) := t])
  {
    var k, after := Push(p, h, t), live[Tag(h.currentGroup, h.count) := t];
    forall tag | tag in after ensures SlotOk(k, tag, after[tag]) {
      if tag in live { assert SlotOk(h, tag, live[tag]); }
    }
  }

  lemma PushKeys(live: map<Tag, Tensor>, tag: Tag, t: Tensor)
    requires KeysConsistent(live)
    requires forall s | s in live && s.group == tag.group && live[s].key == t.key :: live[s].data == t.data
    ensures KeysConsistent(live[tag := t])
  {
  }

  lemma PushCommon(p: Params, m: Machine, t: Tensor)
    requires p.Valid() && Common(p, m) && ForwardInv(p, m) && Enabled(p, m, PushTensor(t))
    ensures Tag(m.h.currentGroup, m.h.count) !in m.live
    ensures Common(p, m.(h := Push(p, m.h, t), live := m.live[Tag(m.h.currentGroup, m.h.count) := t]))
  {
    hide SlotsOk, KeysConsistent, Started, Window, Offloadable;
    PushSlots(p, m.h, m.live, t);
    PushKeys(m.live, Tag(m.h.currentGroup, m.h.count), t);
  }

  /** The group being pushed to has not been started, or is one that is started in vain. */
  lemma PushedStays(p: Params, m: Machine, t: Tensor)
    requires p.Valid() && ForwardInv(p, m)
    ensures var k := Push(p, m.h, t);
      && OnDeviceFrom(k, Started(p, k))
      && forall tag | tag in k.state :: k.state[tag].Host? <==> Offloadable(p, tag.group) && tag.group < Started(p, k)
  {
    hide Window, Up;
    StartedBelow(p, m.h);
    var k := Push(p, m.h, t);
    assert Started(p, k) == Started(p, m.h);
    forall tag | tag in k.state
      ensures k.state[tag].Host? <==> Offloadable(p, tag.group) && tag.group < Started(p, k)
    {
      if tag == Tag(m.h.currentGroup, m.h.count) {
        assert k.state[tag] == Device(t);
      } else {
        assert tag in m.h.state && k.state[tag] == m.h.state[tag];
      }
    }
  }

  lemma PushForward(p: Params, m: Machine, t: Tensor)
    requires p.Valid() && m.h.state.Keys == m.live.Keys && ForwardInv(p, m) && Enabled(p, m, PushTensor(t))
    ensures ForwardInv(p, m.(h := Push(p, m.h, t), live := m.live[Tag(m.h.currentGroup, m.h.count) := t]))
  {
    hide KeyIsConsistent, OnDeviceFrom, Ended, Up, Offloadable;
    PushedStays(p, m, t);
    var h, k := m.h, Push(p, m.h, t);
    assert Started(p, k) == Started(p, h);
    hide Started;
    forall tag | tag in k.buf && tag.group < k.offloaded ensures k.buf[tag] == None {
      EndedInTime(p, h);
      assert tag in h.buf;
    }
  }

  /** A group whose window has ended is an earlier one. */
  lemma EndedInTime(p: Params, h: Handler)
    requires p.Valid() && Ended(p, h.offloaded, h.currentGroup)
    ensures h.offloaded <= h.currentGroup
  {
    hide Window;
    if h.offloaded > 0 { WindowNotEarly(p.n, p.l, h.offloaded - 1); }
  }

  lemma PushKeeps(p: Params, m: Machine, t: Tensor)
    requires p.Valid() && Inv(p, m) && Enabled(p, m, PushTensor(t))
    ensures Safe(p, m, PushTensor(t)) && Inv(p, Apply(p, m, PushTensor(t)))
  {
    PushCommon(p, m, t);
    PushForward(p, m, t);
    hide ForwardInv, SlotOk, KeysConsistent;
  }

  // ----- forward commits ---------------------------------------------------------------------

  /** Offloading a group that is complete on the device keeps every slot restorable. */
  lemma OffloadSlots(h: Handler, g: nat, live: map<Tag, Tensor>, copies: map<Key, Tensor>)
    requires SlotsOk(h, live) && KeysConsistent(live) && AllOnDevice(h, g) && BacksUp(copies, h, g)
    ensures SlotsOk(BulkOffload(h, g, copies), live)
  {
    var off := BulkOffload(h, g, copies);
    forall tag | tag in live ensures SlotOk(off, tag, live[tag]) {
      assert SlotOk(h, tag, live[tag]);
      if tag.group == g {
        assert h.state[tag] == Device(live[tag]);
        var twin :| twin in h.state && twin.group == g && h.state[twin].Device?
          && h.state[twin].tensor.key == live[tag].key && copies[live[tag].key] == h.state[twin].tensor;
        assert SlotOk(h, twin, live[twin]);
      }
    }
  }

  lemma SlotsSame(h: Handler, k: Handler, live: map<Tag, Tensor>)
    requires SlotsOk(h, live) && k.state == h.state && k.mapping == h.mapping
    ensures SlotsOk(k, live)
  {
  }

  lemma ForwardIsSafe(p: Params, m: Machine, a: Action)
    requires p.Valid() && Inv(p, m) && a.ForwardCommit? && Enabled(p, m, a)
    ensures Safe(p, m, a)
  {
    hide Window;
    hide KeysConsistent, SlotOk;
    StartedBelow(p, m.h);
  }

  lemma ForwardSlots(p: Params, h: Handler, live: map<Tag, Tensor>, m0: map<Key, Tensor>, m1: map<Key, Tensor>)
    requires p.Valid() && SlotsOk(h, live) && KeysConsistent(live)
    requires CopiesFor(p, h, m0, m1) && CanCommitForward(p, h)
    ensures SlotsOk(CommitForward(p, h, m0, m1), live)
  {
    hide Window;
    hide SlotsOk, KeysConsistent, BacksUp, BulkOffload, AllOnDevice, FreeBuffers;
    var k := Kickstart(h, m0);
    if h.currentGroup == 0 { OffloadSlots(h, 0, live, m0); }
    var freed := FreeBuffers(k, h.offloaded);
    FreedSame(k, h.offloaded);
    SlotsSame(k, freed, live);
    OtherGroupsStay(h, m0, h.offloaded + 1);
    KickstartCounts(h, m0);
    if WindowCloses(p, k) && h.offloaded < p.n - 1 {
      BacksUpSame(m1, h, freed, h.offloaded + 1);
      OffloadSlots(freed, h.offloaded + 1, live, m1);
      SlotsSame(BulkOffload(freed, h.offloaded + 1, m1), CommitForward(p, h, m0, m1), live);
    } else {
      SlotsSame(freed, CommitForward(p, h, m0, m1), live);
    }
  }

  lemma FreedSame(h: Handler, g: nat)
    ensures FreeBuffers(h, g).state == h.state && FreeBuffers(h, g).mapping == h.mapping
  {
  }

  lemma OffloadEffect(h: Handler, g: nat, m: map<Key, Tensor>)
    ensures var k := BulkOffload(h, g, m);
      && k == h.(state := k.state, mapping := h.mapping[g := m]) && k.state.Keys == h.state.Keys
      && forall tag | tag in h.state :: k.state[tag] == (if tag.group == g then ToHost(h.state[tag]) else h.state[tag])
  {
  }

  lemma FreeEffect(h: Handler, g: nat)
    ensures var k := FreeBuffers(h, g);
      && k == h.(buf := k.buf) && k.buf.Keys == h.buf.Keys
      && forall tag | tag in h.buf :: k.buf[tag] == (if tag.group == g then None else h.buf[tag])
  {
  }

  /** The two offloads a commit may consist of, spelled out. */
  lemma ForwardEffects(p: Params, h: Handler, m0: map<Key, Tensor>, m1: map<Key, Tensor>)
    requires p.Valid()
    ensures var k := Kickstart(h, m0);
      && WindowCloses(p, k) == WindowCloses(p, h)
      && k == h.(state := k.state, mapping := if h.currentGroup == 0 then h.mapping[0 := m0] else h.mapping)
      && k.state.Keys == h.state.Keys
      && forall tag | tag in h.state ::
           k.state[tag] == (if h.currentGroup == 0 && tag.group == 0 then ToHost(h.state[tag]) else h.state[tag])
  {
    hide Window, BulkOffload;
    OffloadEffect(h, 0, m0);
  }

  lemma ForwardBuffers(p: Params, h: Handler, m0: map<Key, Tensor>, m1: map<Key, Tensor>)
    requires p.Valid()
    ensures var k := CommitForward(p, h, m0, m1);
      && k.buf.Keys == h.buf.Keys
      && k.offloaded == h.offloaded + (if WindowCloses(p, h) then 1 else 0)
      && (forall tag | tag in h.buf ::
            k.buf[tag] == (if WindowCloses(p, h) && tag.group == h.offloaded then None else h.buf[tag]))
  {
    hide WindowCloses, BulkOffload, Kickstart, FreeBuffers;
    ForwardEffects(p, h, m0, m1);
    FreeEffect(Kickstart(h, m0), h.offloaded);
    OffloadEffect(FreeBuffers(Kickstart(h, m0), h.offloaded), h.offloaded + 1, m1);
  }

  predicate OffloadedNow(p: Params, h: Handler, g: nat)
    requires p.Valid()
  {
    (h.currentGroup == 0 && g == 0) || (WindowCloses(p, h) && h.offloaded < p.n - 1 && g == h.offloaded + 1)
  }

  lemma ForwardSlot(p: Params, h: Handler, m0: map<Key, Tensor>, m1: map<Key, Tensor>, tag: Tag)
    requires p.Valid()
    ensures var k := CommitForward(p, h, m0, m1);
      && (tag in k.state <==> tag in h.state)
      && (tag in h.state ==>
            k.state[tag] == if OffloadedNow(p, h, tag.group) then ToHost(h.state[tag]) else h.state[tag])
  {
    hide WindowCloses, BulkOffload, Kickstart, FreeBuffers;
    ForwardEffects(p, h, m0, m1);
    FreeEffect(Kickstart(h, m0), h.offloaded);
    OffloadEffect(FreeBuffers(Kickstart(h, m0), h.offloaded), h.offloaded + 1, m1);
  }

  lemma ForwardCopies(p: Params, h: Handler, m0: map<Key, Tensor>, m1: map<Key, Tensor>, g: nat)
    requires p.Valid()
    ensures g in CommitForward(p, h, m0, m1).mapping <==> g in h.mapping || OffloadedNow(p, h, g)
  {
    hide WindowCloses, BulkOffload, Kickstart, FreeBuffers;
    ForwardEffects(p, h, m0, m1);
    FreeEffect(Kickstart(h, m0), h.offloaded);
    OffloadEffect(FreeBuffers(Kickstart(h, m0), h.offloaded), h.offloaded + 1, m1);
  }

  lemma UpMore(n: nat)
    ensures Up(0) == [] && Up(n) + [n] == Up(n + 1)
  {
  }

  /** The groups started grow by exactly the groups offloaded now. */
  lemma StartedGrows(p: Params, h: Handler, k: Handler)
    requires p.Valid() && h.currentGroup < p.l && Ended(p, h.offloaded, h.currentGroup)
    requires k.currentGroup == h.currentGroup + 1
    requires k.offloaded == h.offloaded + (if WindowCloses(p, h) then 1 else 0)
    ensures Up(Started(p, h)) + Offloads(p, h) == Up(Started(p, k))
    ensures forall g: nat :: g < Started(p, k) <==> g < Started(p, h) || OffloadedNow(p, h, g)
  {
    hide Window, Up;
    StartedBelow(p, h);
    if h.offloaded > 0 { WindowNotEarly(p.n, p.l, h.offloaded - 1); }
    UpMore(0);
    UpMore(1);
    UpMore(Started(p, h));
    assert Up(0) + [0, 1] == Up(0) + [0] + [1];
    assert Up(Started(p, h)) + [] == Up(Started(p, h));
  }

  /** A commit closes the window that is due, and the last commit closes the last window. */
  lemma EndedAfterCommit(p: Params, h: Handler)
    requires p.Valid() && h.currentGroup < p.l && Ended(p, h.offloaded, h.currentGroup)
    ensures var c := h.offloaded + (if WindowCloses(p, h) then 1 else 0);
      Ended(p, c, h.currentGroup + 1) && (h.currentGroup + 1 == p.l <==> c == p.n)
  {
    hide Window;
    var c := h.offloaded;
    WindowEnds(p.n, p.l);
    if c < p.n - 1 {
      WindowIncreases(p.n, p.l, c, c + 1);
      WindowIncreases(p.n, p.l, c, p.n - 1);
    }
  }

  lemma ForwardHosts(p: Params, m: Machine, m0: map<Key, Tensor>, m1: map<Key, Tensor>)
    requires p.Valid() && m.h.state.Keys == m.live.Keys && ForwardInv(p, m)
    ensures var k := CommitForward(p, m.h, m0, m1);
      forall tag | tag in k.state :: k.state[tag].Host? <==> Offloadable(p, tag.group) && tag.group < Started(p, k)
  {
    hide Window;
    var h, k := m.h, CommitForward(p, m.h, m0, m1);
    ForwardBuffers(p, h, m0, m1);
    StartedGrows(p, h, k);
    StartedBelow(p, m.h);
    hide CommitForward, Started, Offloads;
    forall tag | tag in k.state
      ensures k.state[tag].Host? <==> Offloadable(p, tag.group) && tag.group < Started(p, k)
    {
      ForwardSlot(p, h, m0, m1, tag);
      if OffloadedNow(p, h, tag.group) { NowIsOffloadable(p, m, tag.group); }
    }
  }

  /** Live tensors of a group offloaded now: the group is the first, or a layer is left over. */
  lemma NowIsOffloadable(p: Params, m: Machine, g: nat)
    requires p.Valid() && ForwardInv(p, m) && OffloadedNow(p, m.h, g) && exists tag :: tag in m.live && tag.group == g
    ensures Offloadable(p, g)
  {
    hide Window;
    if p.n == p.l { WindowTight(p.n, m.h.offloaded); }
  }

  lemma CopiesAfter(p: Params, h: Handler, m0: map<Key, Tensor>, m1: map<Key, Tensor>)
    requires p.Valid() && h.currentGroup < p.l && Ended(p, h.offloaded, h.currentGroup)
    requires h.mapping.Keys == (set g | g in Up(Started(p, h)))
    ensures var k := CommitForward(p, h, m0, m1); k.mapping.Keys == (set g | g in Up(Started(p, k)))
  {
    hide CommitForward, Started, Offloads, Window, Up;
    var k := CommitForward(p, h, m0, m1);
    ForwardBuffers(p, h, m0, m1);
    CommitCounts(p, h, m0, m1);
    StartedGrows(p, h, k);
    forall g: nat ensures g in k.mapping <==> g in Up(Started(p, k)) {
      ForwardCopies(p, h, m0, m1, g);
      UpHas(Started(p, h), g);
      UpHas(Started(p, k), g);
    }
  }

  ghost function Committed(p: Params, m: Machine, m0: map<Key, Tensor>, m1: map<Key, Tensor>): Machine
    requires p.Valid()
  {
    m.(h := CommitForward(p, m.h, m0, m1), backward := m.h.currentGroup + 1 == p.l,
       offloads := m.offloads + Offloads(p, m.h))
  }

  lemma ForwardStays(p: Params, m: Machine, m0: map<Key, Tensor>, m1: map<Key, Tensor>)
    requires p.Valid() && m.h.state.Keys == m.live.Keys && ForwardInv(p, m) && m.h.currentGroup + 1 < p.l
    ensures ForwardInv(p, Committed(p, m, m0, m1))
  {
    hide CommitForward, Started, Offloads, Window, Up, Offloadable;
    var h, k := m.h, CommitForward(p, m.h, m0, m1);
    ForwardBuffers(p, h, m0, m1);
    ForwardHosts(p, m, m0, m1);
    CommitCounts(p, h, m0, m1);
    StartedGrows(p, h, k);
    EndedAfterCommit(p, h);
    CopiesAfter(p, h, m0, m1);
    hide Ended;
  }

  lemma ForwardTurns(p: Params, m: Machine, m0: map<Key, Tensor>, m1: map<Key, Tensor>)
    requires p.Valid() && m.h.state.Keys == m.live.Keys && ForwardInv(p, m) && m.h.currentGroup + 1 == p.l
    requires forall tag | tag in m.h.buf :: tag.group < p.n
    ensures BackwardInv(p, Committed(p, m, m0, m1), p.n)
  {
    hide CommitForward, Started, Offloads, Window, Up, Offloadable;
    var h, k := m.h, CommitForward(p, m.h, m0, m1);
    ForwardBuffers(p, h, m0, m1);
    ForwardHosts(p, m, m0, m1);
    CommitCounts(p, h, m0, m1);
    StartedGrows(p, h, k);
    EndedAfterCommit(p, h);
    CopiesAfter(p, h, m0, m1);
    StartedAtEnd(p, k);
    assert Down(p.n, p.n) == [];
    hide Ended, Down;
  }

  lemma ForwardKeeps(p: Params, m: Machine, m0: map<Key, Tensor>, m1: map<Key, Tensor>)
    requires p.Valid() && Inv(p, m) && Enabled(p, m, ForwardCommit(m0, m1)) && Safe(p, m, ForwardCommit(m0, m1))
    ensures Inv(p, Apply(p, m, ForwardCommit(m0, m1)))
  {
    hide KeysConsistent, SlotsOk, CopiesFor, CanCommitForward, CommitForward, ForwardInv, BackwardInv;
    var t := Committed(p, m, m0, m1);
    SlotsKeys(m.h, m.live);
    ForwardSlots(p, m.h, m.live, m0, m1);
    ForwardBuffers(p, m.h, m0, m1);
    CommitCounts(p, m.h, m0, m1);
    if t.backward {
      ForwardTurns(p, m, m0, m1);
      assert BackwardInv(p, t, p.n);
    } else {
      ForwardStays(p, m, m0, m1);
    }
  }

  lemma StartedAtEnd(p: Params, h: Handler)
    ensures h.currentGroup > 0 && h.offloaded == p.n ==> Started(p, h) == p.n
  {
  }

  lemma SlotsKeys(h: Handler, live: map<Tag, Tensor>)
    requires SlotsOk(h, live)
    ensures h.state.Keys == live.Keys
  {
  }

  lemma UpHas(n: nat, g: nat)
    ensures g in Up(n) <==> g < n
  {
    if g < n { assert Up(n)[g] == g; }
  }

  lemma CommitCounts(p: Params, h: Handler, m0: map<Key, Tensor>, m1: map<Key, Tensor>)
    requires p.Valid()
    ensures var k := CommitForward(p, h, m0, m1); k.currentGroup == h.currentGroup + 1 && k.count == 0
  {
    hide Window;
  }

  // ----- backward commits and pops -----------------------------------------------------------

  lemma BackwardIsSafe(p: Params, m: Machine, r: nat)
    requires p.Valid() && Common(p, m) && BackwardInv(p, m, r) && m.backward && Enabled(p, m, BackwardCommit)
    ensures CanCommitBackward(p, m.h)
    ensures ReloadDue(p, m.h) <==> r > 0 && Window(p.n, p.l, r - 1) == m.h.currentGroup - 1
    ensures ReloadDue(p, m.h) ==> m.h.offloaded == r
  {
    hide Window;
    hide KeysConsistent;
    WindowNotEarly(p.n, p.l, 0);
    if r > 0 {
      UpHas(r, r - 1);
      forall tag | tag in m.h.state && tag.group == r - 1 ensures CanReload(m.h.mapping[r - 1], m.h.state[tag]) {
        assert SlotOk(m.h, tag, m.live[tag]);
      }
    }
  }

  lemma ReloadSlots(p: Params, h: Handler, g: nat, live: map<Tag, Tensor>)
    requires SlotsOk(h, live) && Reloadable(p, h, g)
    ensures SlotsOk(BulkReload(p, h, g), live)
  {
    var back := BulkReload(p, h, g);
    forall tag | tag in live ensures SlotOk(back, tag, live[tag]) {
      assert SlotOk(h, tag, live[tag]);
    }
  }

  lemma BackwardSlots(p: Params, h: Handler, live: map<Tag, Tensor>)
    requires p.Valid() && SlotsOk(h, live) && CanCommitBackward(p, h)
    ensures SlotsOk(CommitBackward(p, h), live)
  {
    hide Window;
    hide SlotsOk, Reloadable;
    if ReloadDue(p, h) {
      ReloadSlots(p, h, h.offloaded - 1, live);
      SlotsSame(BulkReload(p, h, h.offloaded - 1), CommitBackward(p, h), live);
    } else {
      SlotsSame(h, CommitBackward(p, h), live);
    }
  }

  lemma BackwardSlot(p: Params, h: Handler, tag: Tag)
    requires p.Valid() && CanCommitBackward(p, h) && tag in h.state
    ensures var k := CommitBackward(p, h);
      && tag in k.state
      && k.state[tag] == (if ReloadDue(p, h) && tag.group == h.offloaded - 1
                          then ToDevice(h.mapping[h.offloaded - 1], h.state[tag]) else h.state[tag])
      && (ReloadDue(p, h) && tag.group == h.offloaded - 1 ==> CanReload(h.mapping[h.offloaded - 1], h.state[tag]))
  {
    hide Window;
  }

  /** Going back one layer reaches at most one more window. */
  lemma EndedBefore(p: Params, cur: nat, r: nat)
    requires p.Valid() && cur > 0 && Ended(p, r, cur)
    ensures var q := if r > 0 && Window(p.n, p.l, r - 1) == cur - 1 then r - 1 else r;
      Ended(p, q, cur - 1) && (cur == 1 ==> q == 0)
  {
    hide Window;
    if r > 1 { WindowIncreases(p.n, p.l, r - 2, r - 1); }
    if r > 0 { WindowNotEarly(p.n, p.l, r - 1); }
  }

  lemma DownMore(n: nat, r: nat)
    requires 0 < r <= n
    ensures Down(n, r - 1) == Down(n, r) + [r - 1]
  {
  }

  lemma BackwardCounts(p: Params, h: Handler)
    requires p.Valid() && CanCommitBackward(p, h)
    ensures var k := CommitBackward(p, h);
      && k.currentGroup == h.currentGroup - 1 && k.count == h.count && k.buf == h.buf
      && k.state.Keys == h.state.Keys
      && k.mapping.Keys == h.mapping.Keys - (if ReloadDue(p, h) then {h.offloaded - 1} else {})
      && k.offloaded == (if h.currentGroup == 1 then 0
                         else if ReloadDue(p, h) && h.offloaded > 1 then h.offloaded - 1 else h.offloaded)
  {
    hide Window;
  }

  lemma BackwardKeeps(p: Params, m: Machine, r: nat)
    requires p.Valid() && Common(p, m) && BackwardInv(p, m, r) && m.backward && Enabled(p, m, BackwardCommit)
    requires Safe(p, m, BackwardCommit)
    ensures Inv(p, Apply(p, m, BackwardCommit))
  {
    hide KeysConsistent, SlotsOk, CommitBackward, Window, Up, Offloadable;
    var h, k := m.h, CommitBackward(p, m.h);
    BackwardIsSafe(p, m, r);
    SlotsKeys(h, m.live);
    BackwardSlots(p, h, m.live);
    BackwardCounts(p, h);
    EndedBefore(p, h.currentGroup, r);
    var q := if ReloadDue(p, h) then r - 1 else r;
    if q < r { DownMore(p.n, r); }
    forall g: nat ensures g in k.mapping <==> g in Up(q) {
      UpHas(r, g);
      UpHas(q, g);
    }
    forall tag | tag in k.state ensures k.state[tag].Host? <==> Offloadable(p, tag.group) && tag.group < q {
      BackwardSlot(p, h, tag);
    }
    assert BackwardInv(p, Apply(p, m, BackwardCommit), q);
  }

  lemma PopIsSafe(p: Params, m: Machine, r: nat, tag: Tag)
    requires p.Valid() && Common(p, m) && BackwardInv(p, m, r) && m.backward && Enabled(p, m, PopTensor(tag))
    ensures Safe(p, m, PopTensor(tag)) && (tag.group < p.n ==> tag.group in m.reloads)
  {
    hide KeysConsistent;
    assert SlotOk(m.h, tag, m.live[tag]);
    if r > 0 { WindowNotEarly(p.n, p.l, r - 1); }
    if tag.group < p.n { assert Down(p.n, r)[p.n - 1 - tag.group] == tag.group; }
  }

  lemma PopKeeps(p: Params, m: Machine, r: nat, tag: Tag)
    requires p.Valid() && Common(p, m) && BackwardInv(p, m, r) && m.backward && Enabled(p, m, PopTensor(tag))
    requires Safe(p, m, PopTensor(tag))
    ensures Inv(p, Apply(p, m, PopTensor(tag)))
  {
    assert BackwardInv(p, Apply(p, m, PopTensor(tag)), r);
  }

  /** After an iteration the handler is as good as new, and every group was moved once each way, in order. */
  lemma IterationEnds(p: Params, m: Machine, r: nat)
    requires p.Valid() && Common(p, m) && BackwardInv(p, m, r) && m.backward && Enabled(p, m, NextIteration)
    ensures m.h == FRESH && m.offloads == Up(p.n) && m.reloads == Down(p.n, 0)
  {
    if r > 0 { WindowNotEarly(p.n, p.l, r - 1); }
    assert m.h.state.Keys == {} && m.h.buf.Keys == {} && m.h.mapping.Keys == {};
  }

  lemma InvKept(p: Params, m: Machine, a: Action)
    requires p.Valid() && Inv(p, m) && Enabled(p, m, a)
    ensures Safe(p, m, a) && Inv(p, Apply(p, m, a))
  {
    hide Common, ForwardInv, BackwardInv;
    match a
    case PushTensor(t) => PushKeeps(p, m, t);
    case ForwardCommit(m0, m1) =>
      ForwardIsSafe(p, m, a);
      ForwardKeeps(p, m, m0, m1);
    case BackwardCommit =>
      var r :| BackwardInv(p, m, r);
      BackwardIsSafe(p, m, r);
      BackwardKeeps(p, m, r);
    case PopTensor(tag) =>
      var r :| BackwardInv(p, m, r);
      PopIsSafe(p, m, r, tag);
      PopKeeps(p, m, r, tag);
    case NextIteration =>
      var r :| BackwardInv(p, m, r);
      IterationEnds(p, m, r);
      StartInv(p);
      assert Apply(p, m, a) == START;
  }

  // ----- the theorems ------------------------------------------------------------------------

  /** A run that may be stopped by a failing assertion: `Fails` says where. */
  ghost predicate RunFrom(p: Params, m: Machine, acts: seq<Action>)
    requires p.Valid()
    decreases |acts|
  {
    acts == [] || (Enabled(p, m, acts[0]) && (Safe(p, m, acts[0]) ==> RunFrom(p, Apply(p, m, acts[0]), acts[1..])))
  }

  /** No action of the run fails, and it ends in `k`. */
  ghost predicate Reaches(p: Params, m: Machine, acts: seq<Action>, k: Machine)
    requires p.Valid()
    decreases |acts|
  {
    if acts == [] then m == k
    else Enabled(p, m, acts[0]) && Safe(p, m, acts[0]) && Reaches(p, Apply(p, m, acts[0]), acts[1..], k)
  }

  lemma {:induction false} RunSucceeds(p: Params, m: Machine, acts: seq<Action>) returns (k: Machine)
    requires p.Valid() && Inv(p, m) && RunFrom(p, m, acts)
    ensures Reaches(p, m, acts, k) && Inv(p, k)
    decreases |acts|
  {
    hide Inv, Safe, Enabled;
    if acts == [] {
      k := m;
    } else {
      InvKept(p, m, acts[0]);
      k := RunSucceeds(p, Apply(p, m, acts[0]), acts[1..]);
    }
  }

  /** Groups with a tensor on the device, counting the references kept in `tensor_tag_to_buf`. */
  ghost predicate OnDevice(m: Machine, tag: Tag) {
    (tag in m.h.state && m.h.state[tag].Device?) || (tag in m.h.buf && m.h.buf[tag].Some?)
  }

  /**
    Transparency: whatever is pushed and however many iterations are run, no assertion fails, no
    window or group is looked up that does not exist, every pop returns the pushed tensor, a
    group is reloaded before its first pop, and an iteration that ends leaves a fresh handler
    behind after offloading groups 0 .. N-1 and reloading groups N-1 .. 0, each exactly once.
  */
  lemma OffloadingIsTransparent(p: Params, acts: seq<Action>, a: Action) returns (k: Machine)
    requires p.Valid() && RunFrom(p, START, acts)
    ensures Reaches(p, START, acts, k)
    ensures Enabled(p, k, a) ==> Safe(p, k, a)
    ensures Enabled(p, k, a) && a.PopTensor? && a.tag.group < p.n ==> a.tag.group in k.reloads
    ensures Enabled(p, k, a) && a.NextIteration? ==>
      k.h == FRESH && k.offloads == Up(p.n) && k.reloads == Down(p.n, 0)
  {
    hide Common, ForwardInv, BackwardInv, Safe;
    StartInv(p);
    k := RunSucceeds(p, START, acts);
    if Enabled(p, k, a) {
      InvKept(p, k, a);
      if a.PopTensor? {
        var r :| BackwardInv(p, k, r);
        PopIsSafe(p, k, r, a.tag);
      } else if a.NextIteration? {
        var r :| BackwardInv(p, k, r);
        IterationEnds(p, k, r);
      }
    }
  }

  /**
    What the offloading achieves: when the backward pass starts, a tensor has left the device if
    and only if its group is below N and either a layer is left over or it is the first group.
    With N = L the other groups are offloaded before their tensors are pushed, so they stay.
  */
  lemma OffloadedExactly(p: Params, acts: seq<Action>) returns (k: Machine)
    requires p.Valid() && RunFrom(p, START, acts)
    ensures Reaches(p, START, acts, k)
    ensures k.backward && k.h.currentGroup == p.l ==>
      forall tag | tag in k.live :: tag in k.h.state && (k.h.state[tag].Host? <==> Offloadable(p, tag.group))
  {
    StartInv(p);
    k := RunSucceeds(p, START, acts);
    if k.backward && k.h.currentGroup == p.l {
      var r :| BackwardInv(p, k, r);
      AllStarted(p, k, r);
      hide KeysConsistent, SlotOk;
    }
  }

  lemma AllStarted(p: Params, m: Machine, r: nat)
    requires p.Valid() && BackwardInv(p, m, r) && m.h.currentGroup == p.l
    ensures r == p.n
  {
    WindowEnds(p.n, p.l);
    if r < p.n - 1 { WindowIncreases(p.n, p.l, r, p.n - 1); }
  }

  /**
    What is left on the device, counting the references kept in `tensor_tag_to_buf`: with a layer to spare, only groups
    from the first whose window has not ended up to the current one, which is not past the end of that window.
  */
  lemma DeviceGroupsBounded(p: Params, acts: seq<Action>) returns (k: Machine, c: nat)
    requires p.Valid() && p.n < p.l && RunFrom(p, START, acts)
    ensures Reaches(p, START, acts, k) && Ended(p, c, k.h.currentGroup) && k.h.currentGroup <= p.l
    ensures forall tag | OnDevice(k, tag) :: c <= tag.group <= k.h.currentGroup
  {
    StartInv(p);
    k := RunSucceeds(p, START, acts);
    if k.backward {
      c := BoundedInBackward(p, k);
    } else {
      c := k.h.offloaded;
      BoundedInForward(p, k);
    }
  }

  lemma BoundedInBackward(p: Params, k: Machine) returns (r: nat)
    requires p.Valid() && p.n < p.l && Inv(p, k) && k.backward
    ensures Ended(p, r, k.h.currentGroup)
    ensures forall tag | OnDevice(k, tag) :: r <= tag.group <= k.h.currentGroup
  {
    hide KeysConsistent, SlotOk, Up, Down, Window;
    r :| BackwardInv(p, k, r);
    forall tag | OnDevice(k, tag) ensures r <= tag.group <= k.h.currentGroup {
      assert tag in k.live;
    }
  }

  lemma BoundedInForward(p: Params, k: Machine)
    requires p.Valid() && p.n < p.l && Inv(p, k) && !k.backward
    ensures Ended(p, k.h.offloaded, k.h.currentGroup)
    ensures forall tag | OnDevice(k, tag) :: k.h.offloaded <= tag.group <= k.h.currentGroup
  {
    hide KeysConsistent, SlotOk, Up, Window;
    StartedBelow(p, k.h);
    if k.h.offloaded > 0 { WindowNotEarly(p.n, p.l, k.h.offloaded - 1); }
    forall tag | OnDevice(k, tag) ensures k.h.offloaded <= tag.group <= k.h.currentGroup {
      assert tag in k.live;
    }
  }

  /**
    In the forward pass the references in `tensor_tag_to_buf` are exactly the tensors of the groups below N whose window
    has not ended before the current layer: they keep the device memory while it is being copied, and no longer.
  */
  lemma BuffersExactly(p: Params, acts: seq<Action>) returns (k: Machine)
    requires p.Valid() && RunFrom(p, START, acts)
    ensures Reaches(p, START, acts, k)
    ensures !k.backward ==> forall tag | tag in k.live && tag.group < p.n ::
      && tag in k.h.buf
      && k.h.buf[tag] == if Window(p.n, p.l, tag.group) >= k.h.currentGroup then Some(k.live[tag]) else None
  {
    hide SlotsOk, KeysConsistent, Window, Up, Offloadable;
    StartInv(p);
    k := RunSucceeds(p, START, acts);
    if !k.backward {
      forall tag | tag in k.live && tag.group < p.n
        ensures tag in k.h.buf
        ensures k.h.buf[tag] == if Window(p.n, p.l, tag.group) >= k.h.currentGroup then Some(k.live[tag]) else None
      {
        EndedIff(p, k.h.offloaded, k.h.currentGroup, tag.group);
      }
    }
  }

  lemma EndedIff(p: Params, c: nat, cur: nat, g: nat)
    requires p.Valid() && Ended(p, c, cur) && g < p.n
    ensures Window(p.n, p.l, g) >= cur <==> g >= c
  {
    hide Window;
    if c < g {
      WindowIncreases(p.n, p.l, c, g);
    } else if g + 1 < c {
      WindowIncreases(p.n, p.l, g, c - 1);
    }
  }

  /** With the default N = L - 1 these are at most two neighbouring groups. */
  lemma TwoGroupsOnDevice(l: nat, acts: seq<Action>) returns (k: Machine, g: int)
    requires l >= 2 && RunFrom(Params(l - 1, l), START, acts)
    ensures Reaches(Params(l - 1, l), START, acts, k)
    ensures forall tag | OnDevice(k, tag) :: g <= tag.group <= g + 1
  {
    hide RunFrom, Reaches, OnDevice, Window;
    var c;
    k, c := DeviceGroupsBounded(Params(l - 1, l), acts);
    g := k.h.currentGroup - 1;
    if c < l - 1 { WindowOneSpare(l, c); }
  }
}
