/**
  AsyncDoubleBufferGroupOffloadHandler of verl/utils/activation_offload.py. The class updates its
  fields as the original does; every method is tied to a function on the handler's value.
*/
module OffloadHandler {
  import opened Sequences
  import opened Wrappers
  import opened WindowMap

  /** What `_get_unique_tensor_key` returns: an address and a dtype. */
  datatype Key = Key(address: nat, dtype: nat)

  datatype Tensor = Tensor(key: Key, shape: seq<nat>, data: seq<int>) {
    ghost predicate WellFormed() {
      |data| == Numel(shape)
    }
  }

  /** (current_group, tensor_count_current_group) */
  datatype Tag = Tag(group: nat, index: nat)

  /** A value of `tensor_tag_to_state`: a device tensor, or the tuple (key, shape) while offloaded. */
  datatype Slot = Device(tensor: Tensor) | Host(key: Key, shape: seq<nat>)

  datatype Params = Params(n: nat, l: nat) {
    predicate Valid() {
      1 <= n <= l
    }
  }

  /** The handler's fields; the CPU copies of a group are kept by key in `mapping`. */
  datatype Handler = Handler(
    currentGroup: nat, count: nat, state: map<Tag, Slot>, buf: map<Tag, Option<Tensor>>,
    offloaded: nat, mapping: map<nat, map<Key, Tensor>>)

  const FRESH := Handler(0, 0, map[], map[], 0, map[])

  datatype HandlerError =
    | TagInUse | UnknownTag | PoppedWhileOffloaded | OffloadedTwice
    | NoSuchWindow | NegativeGroup | NotOffloadable | NothingToReload | KeyNotBackedUp | ViewMismatch

  // ----- push and pop ------------------------------------------------------------------------

  /** What the caller keeps of a saved tensor: the tag, or the tensor itself if it is not offloaded. */
  datatype Saved = ByTag(tag: Tag) | Itself(tensor: Tensor)

  function Push(p: Params, h: Handler, t: Tensor): Handler {
    var tag := Tag(h.currentGroup, h.count);
    h.(count := h.count + 1, state := h.state[tag := Device(t)],
       buf := if h.currentGroup < p.n then h.buf[tag := Some(t)] else h.buf)
  }

  function Drop(h: Handler, tag: Tag): Handler {
    h.(state := h.state - {tag}, buf := h.buf - {tag})
  }

  // ----- bulk operations ---------------------------------------------------------------------

  predicate AllOnDevice(h: Handler, g: nat) {
    forall tag | tag in h.state && tag.group == g :: h.state[tag].Device?
  }

  /** CPU copies for group g: one per key, each the copy of some tensor of the group with that key. */
  ghost predicate BacksUp(m: map<Key, Tensor>, h: Handler, g: nat) {
    && (forall tag | tag in h.state && tag.group == g && h.state[tag].Device? :: h.state[tag].tensor.key in m)
    && forall k | k in m ::
         exists tag | tag in h.state && tag.group == g && h.state[tag].Device? ::
           h.state[tag].tensor.key == k && m[k] == h.state[tag].tensor
  }

  function ToHost(s: Slot): Slot {
    if s.Device? then Host(s.tensor.key, s.tensor.shape) else s
  }

  function BulkOffload(h: Handler, g: nat, m: map<Key, Tensor>): Handler {
    h.(state := map tag | tag in h.state :: if tag.group == g then ToHost(h.state[tag]) else h.state[tag],
       mapping := h.mapping[g := m])
  }

  /** `offload_mapping[key].view(shape)` is possible. */
  predicate CanReload(m: map<Key, Tensor>, s: Slot) {
    s.Host? ==> s.key in m && |m[s.key].data| == Numel(s.shape)
  }

  function ToDevice(m: map<Key, Tensor>, s: Slot): Slot {
    if s.Host? && s.key in m then Device(Tensor(s.key, s.shape, m[s.key].data)) else s
  }

  /** A slot can be reloaded exactly if what comes back is a well-formed tensor of the shape and key it was pushed with. */
  lemma CanReloadIff(m: map<Key, Tensor>, s: Slot)
    ensures s.Host? ==>
      (CanReload(m, s) <==>
        match ToDevice(m, s)
        case Device(t) => t.WellFormed() && t.key == s.key && t.shape == s.shape && t.data == m[s.key].data
        case Host(_, _) => false)
  {
  }

  predicate Reloadable(p: Params, h: Handler, g: int) {
    && 0 <= g < p.n && g in h.mapping
    && forall tag | tag in h.state && tag.group == g :: CanReload(h.mapping[g], h.state[tag])
  }

  function BulkReload(p: Params, h: Handler, g: nat): Handler
    requires Reloadable(p, h, g)
  {
    h.(state := map tag | tag in h.state ::
                  if tag.group == g then ToDevice(h.mapping[g], h.state[tag]) else h.state[tag],
       mapping := h.mapping - {g})
  }

  // ----- commits -----------------------------------------------------------------------------

  /** `tensor_tag_to_buf[tag] = None` for the group whose offload is complete. */
  function FreeBuffers(h: Handler, g: nat): Handler {
    h.(buf := map tag | tag in h.buf :: if tag.group == g then None else h.buf[tag])
  }

  /** The first half of a forward commit; `m0` are the copies made if this is the first group. */
  function Kickstart(h: Handler, m0: map<Key, Tensor>): Handler {
    if h.currentGroup == 0 then BulkOffload(h, 0, m0) else h
  }

  predicate WindowCloses(p: Params, h: Handler)
    requires p.Valid()
  {
    h.offloaded < p.n && Window(p.n, p.l, h.offloaded) == h.currentGroup
  }

  function CloseWindow(p: Params, h: Handler, m1: map<Key, Tensor>): Handler
    requires p.Valid()
  {
    var freed := FreeBuffers(h, h.offloaded);
    var next := if h.offloaded < p.n - 1 then BulkOffload(freed, h.offloaded + 1, m1) else freed;
    next.(offloaded := h.offloaded + 1)
  }

  function CommitForward(p: Params, h: Handler, m0: map<Key, Tensor>, m1: map<Key, Tensor>): Handler
    requires p.Valid()
  {
    var k := Kickstart(h, m0);
    var w := if WindowCloses(p, k) then CloseWindow(p, k, m1) else k;
    w.(currentGroup := h.currentGroup + 1, count := 0)
  }

  /** The copies a forward commit makes, whatever the order in which the dicts are iterated. */
  ghost predicate CopiesFor(p: Params, h: Handler, m0: map<Key, Tensor>, m1: map<Key, Tensor>)
    requires p.Valid()
  {
    && (h.currentGroup == 0 ==> BacksUp(m0, h, 0))
    && (WindowCloses(p, h) && h.offloaded < p.n - 1 ==> BacksUp(m1, h, h.offloaded + 1))
  }

  /** The copies of a group depend on nothing but that group's slots. */
  lemma BacksUpSame(m: map<Key, Tensor>, h: Handler, k: Handler, g: nat)
    requires BacksUp(m, h, g)
    requires forall tag: Tag | tag.group == g :: (tag in h.state <==> tag in k.state) && (tag in h.state ==> k.state[tag] == h.state[tag])
    ensures BacksUp(m, k, g)
  {
    forall key | key in m
      ensures exists tag | tag in k.state && tag.group == g && k.state[tag].Device? ::
        k.state[tag].tensor.key == key && m[key] == k.state[tag].tensor
    {
      var tag :| tag in h.state && tag.group == g && h.state[tag].Device?
        && h.state[tag].tensor.key == key && m[key] == h.state[tag].tensor;
      assert k.state[tag] == h.state[tag];
    }
  }

  /** A kickstart and freed buffers leave the other groups' slots alone. */
  lemma OtherGroupsStay(h: Handler, m0: map<Key, Tensor>, g: nat)
    requires g > 0
    ensures var k := FreeBuffers(Kickstart(h, m0), h.offloaded);
      && (forall tag: Tag | tag.group == g ::
            (tag in h.state <==> tag in k.state) && (tag in h.state ==> k.state[tag] == h.state[tag]))
      && (AllOnDevice(h, g) <==> AllOnDevice(k, g))
  {
  }

  lemma KickstartCounts(h: Handler, m0: map<Key, Tensor>)
    ensures Kickstart(h, m0).offloaded == h.offloaded && Kickstart(h, m0).currentGroup == h.currentGroup
  {
  }

  /** A forward commit raises nothing: the window exists and no group is offloaded twice. */
  predicate CanCommitForward(p: Params, h: Handler)
    requires p.Valid()
  {
    && (h.currentGroup == 0 ==> AllOnDevice(h, 0))
    && h.offloaded < p.n
    && (WindowCloses(p, h) && h.offloaded < p.n - 1 ==> AllOnDevice(h, h.offloaded + 1))
  }

  predicate ReloadDue(p: Params, h: Handler)
    requires p.Valid()
  {
    1 <= h.offloaded <= p.n && Window(p.n, p.l, h.offloaded - 1) == h.currentGroup - 1
  }

  function CommitBackward(p: Params, h: Handler): Handler
    requires p.Valid() && h.currentGroup > 0 && (ReloadDue(p, h) ==> Reloadable(p, h, h.offloaded - 1))
  {
    var r := if ReloadDue(p, h)
             then BulkReload(p, h, h.offloaded - 1).(offloaded := if h.offloaded > 1 then h.offloaded - 1 else h.offloaded)
             else h;
    r.(currentGroup := h.currentGroup - 1, offloaded := if h.currentGroup == 1 then 0 else r.offloaded)
  }

  predicate CanCommitBackward(p: Params, h: Handler)
    requires p.Valid()
  {
    h.currentGroup > 0 && 1 <= h.offloaded <= p.n && (ReloadDue(p, h) ==> Reloadable(p, h, h.offloaded - 1))
  }

  // ----- offloading and reloading a group is the identity exactly when keys identify contents ----

  /** Tensors of the group with equal keys have equal contents. */
  ghost predicate KeysAgree(h: Handler, g: nat) {
    forall s, t |
      && s in h.state && s.group == g && h.state[s].Device?
      && t in h.state && t.group == g && h.state[t].Device?
      && h.state[s].tensor.key == h.state[t].tensor.key ::
        h.state[s].tensor.data == h.state[t].tensor.data
  }

  /** Every tensor of the group has the contents of the copy kept under its key. */
  ghost predicate CopiesMatch(h: Handler, g: nat, m: map<Key, Tensor>) {
    forall tag | tag in h.state && tag.group == g && h.state[tag].Device? ::
      h.state[tag].tensor.key in m && m[h.state[tag].tensor.key].data == h.state[tag].tensor.data
  }

  /** Whichever tensor's copy was kept under a key, it serves all tensors with that key exactly when they agree. */
  lemma CopiesMatchIff(h: Handler, g: nat, m: map<Key, Tensor>)
    requires BacksUp(m, h, g)
    ensures CopiesMatch(h, g, m) <==> KeysAgree(h, g)
  {
    if KeysAgree(h, g) {
      forall tag | tag in h.state && tag.group == g && h.state[tag].Device?
        ensures m[h.state[tag].tensor.key].data == h.state[tag].tensor.data
      {
        var key := h.state[tag].tensor.key;
        assert key in m;
        var kept :| kept in h.state && kept.group == g && h.state[kept].Device?
          && h.state[kept].tensor.key == key && m[key] == h.state[kept].tensor;
      }
    }
  }

  lemma MatchingCopiesRestore(p: Params, h: Handler, g: nat, m: map<Key, Tensor>)
    requires g < p.n && AllOnDevice(h, g) && BacksUp(m, h, g)
    requires forall tag | tag in h.state && h.state[tag].Device? :: h.state[tag].tensor.WellFormed()
    ensures var off := BulkOffload(h, g, m);
      (Reloadable(p, off, g) && BulkReload(p, off, g).state == h.state) <==> CopiesMatch(h, g, m)
  {
    var off := BulkOffload(h, g, m);
    if CopiesMatch(h, g, m) {
      forall tag | tag in h.state && tag.group == g ensures CanReload(m, off.state[tag]) {}
      assert BulkReload(p, off, g).state == h.state;
    } else if Reloadable(p, off, g) {
      var back := BulkReload(p, off, g);
      var tag :| tag in h.state && tag.group == g && h.state[tag].Device?
        && !(h.state[tag].tensor.key in m && m[h.state[tag].tensor.key].data == h.state[tag].tensor.data);
      assert back.state[tag] == ToDevice(m, off.state[tag]);
    }
  }

  /**
    Bulk offload followed by bulk reload restores every tensor of the group, whichever copies were
    kept, if and only if tensors of the group with equal keys have equal contents. Two views of
    one storage that start at the same address but differ in length violate this.
  */
  lemma ReloadRestoresIff(p: Params, h: Handler, g: nat, m: map<Key, Tensor>)
    requires g < p.n && AllOnDevice(h, g) && BacksUp(m, h, g)
    requires forall tag | tag in h.state && h.state[tag].Device? :: h.state[tag].tensor.WellFormed()
    ensures var off := BulkOffload(h, g, m);
      (Reloadable(p, off, g) && BulkReload(p, off, g).state == h.state) <==> KeysAgree(h, g)
  {
    hide CopiesMatch, KeysAgree, Reloadable, BulkReload;
    MatchingCopiesRestore(p, h, g, m);
    CopiesMatchIff(h, g, m);
  }

  /** For instance a tensor and its first half: whichever copy is kept, the other cannot be restored. */
  lemma SharedKeyIsNotRestored(p: Params, m: map<Key, Tensor>)
    requires p.Valid()
    requires var whole, half := Tensor(Key(64, 0), [2], [5, 6]), Tensor(Key(64, 0), [1], [5]);
      BacksUp(m, Push(p, Push(p, FRESH, whole), half), 0)
    ensures var whole, half := Tensor(Key(64, 0), [2], [5, 6]), Tensor(Key(64, 0), [1], [5]);
      !Reloadable(p, BulkOffload(Push(p, Push(p, FRESH, whole), half), 0, m), 0)
  {
    var whole, half := Tensor(Key(64, 0), [2], [5, 6]), Tensor(Key(64, 0), [1], [5]);
    var h := Push(p, Push(p, FRESH, whole), half);
    assert Numel([2]) == 2 * Numel([]) && Numel([1]) == 1 * Numel([]);
    assert h.state[Tag(0, 0)] == Device(whole) && h.state[Tag(0, 1)] == Device(half);
    var off := BulkOffload(h, 0, m);
    assert off.state[Tag(0, 0)] == Host(Key(64, 0), [2]) && off.state[Tag(0, 1)] == Host(Key(64, 0), [1]);
  }

  // ----- the class ---------------------------------------------------------------------------

  class AsyncHandler {
    const p: Params
    const layerWindowMap: seq<int>
    var currentGroup: nat
    var tensorCountCurrentGroup: nat
    var tensorTagToState: map<Tag, Slot>
    var tensorTagToBuf: map<Tag, Option<Tensor>>
    var offloadedGroupCount: nat
    var groupOffloadMapping: map<nat, map<Key, Tensor>>

    ghost predicate Valid() {
      && p.Valid() && |layerWindowMap| == p.n
      && forall i | 0 <= i < p.n :: layerWindowMap[i] == Window(p.n, p.l, i)
    }

    ghost function Model(): Handler
      reads this
    {
      Handler(currentGroup, tensorCountCurrentGroup, tensorTagToState, tensorTagToBuf, offloadedGroupCount,
              groupOffloadMapping)
    }

    constructor (params: Params, windowMap: seq<int>)
      requires params.Valid() && |windowMap| == params.n
      requires forall i | 0 <= i < params.n :: windowMap[i] == Window(params.n, params.l, i)
      ensures Valid() && p == params && Model() == FRESH
    {
      p, layerWindowMap := params, windowMap;
      currentGroup, tensorCountCurrentGroup, offloadedGroupCount := 0, 0, 0;
      tensorTagToState, tensorTagToBuf, groupOffloadMapping := map[], map[], map[];
    }

    method TensorPush(t: Tensor, needOffload: bool) returns (saved: Saved, error: Option<HandlerError>)
      requires Valid()
      modifies this
      ensures !needOffload ==> error.None? && saved == Itself(t) && Model() == old(Model())
      ensures needOffload ==>
        && saved == ByTag(Tag(old(currentGroup), old(tensorCountCurrentGroup)))
        && (error.Some? <==> saved.tag in old(tensorTagToState))
        && (error.None? ==> Model() == Push(p, old(Model()), t))
    {
      error := None;
      if !needOffload {
        return Itself(t), None;
      }
      var tag := Tag(currentGroup, tensorCountCurrentGroup);
      tensorCountCurrentGroup := tensorCountCurrentGroup + 1;
      saved := ByTag(tag);
      if tag in tensorTagToState {
        return saved, Some(TagInUse);
      }
      tensorTagToState := tensorTagToState[tag := Device(t)];
      if currentGroup < p.n {
        tensorTagToBuf := tensorTagToBuf[tag := Some(t)];
      }
    }

    method TensorPop(saved: Saved) returns (r: Result<Tensor, HandlerError>)
      requires Valid()
      modifies this
      ensures saved.Itself? ==> r == Success(saved.tensor) && Model() == old(Model())
      ensures saved.ByTag? ==>
        && (r.Success? <==> saved.tag in old(tensorTagToState) && old(tensorTagToState)[saved.tag].Device?)
        && (r.Success? ==> old(tensorTagToState)[saved.tag] == Device(r.value) && Model() == Drop(old(Model()), saved.tag))
    {
      if saved.Itself? {
        return Success(saved.tensor);
      }
      if saved.tag !in tensorTagToState {
        return Failure(UnknownTag);
      }
      var slot := tensorTagToState[saved.tag];
      tensorTagToState := tensorTagToState - {saved.tag};
      tensorTagToBuf := tensorTagToBuf - {saved.tag};
      if slot.Host? {
        return Failure(PoppedWhileOffloaded);
      }
      return Success(slot.tensor);
    }

    /** The dict is walked in any order; the first tensor met with a key is the one copied. */
    method BulkOffloadGroup(g: nat) returns (copies: map<Key, Tensor>, error: Option<HandlerError>)
      requires Valid()
      modifies this`tensorTagToState, this`groupOffloadMapping
      ensures error.None? <==> AllOnDevice(old(Model()), g)
      ensures error.None? ==> BacksUp(copies, old(Model()), g) && Model() == BulkOffload(old(Model()), g, copies)
    {
      copies, error := map[], None;
      ghost var h := Model();
      var todo := tensorTagToState.Keys;
      while todo != {}
        invariant todo <= h.state.Keys == tensorTagToState.Keys
        invariant groupOffloadMapping == h.mapping
        invariant forall tag | tag in h.state ::
          tensorTagToState[tag] == (if tag !in todo && tag.group == g then ToHost(h.state[tag]) else h.state[tag])
        invariant forall tag | tag in h.state && tag !in todo && tag.group == g ::
          h.state[tag].Device? && h.state[tag].tensor.key in copies
        invariant forall k | k in copies ::
          exists tag | tag in h.state && tag.group == g && h.state[tag].Device? ::
            h.state[tag].tensor.key == k && copies[k] == h.state[tag].tensor
      {
        var tag :| tag in todo;
        todo := todo - {tag};
        if tag.group == g {
          var slot := tensorTagToState[tag];
          if slot.Host? {
            return copies, Some(OffloadedTwice);
          }
          if slot.tensor.key !in copies {
            copies := copies[slot.tensor.key := slot.tensor];
          }
          tensorTagToState := tensorTagToState[tag := Host(slot.tensor.key, slot.tensor.shape)];
        }
      }
      groupOffloadMapping := groupOffloadMapping[g := copies];
      assert tensorTagToState == BulkOffload(h, g, copies).state;
    }

    method FreeGroupBuffers(g: nat)
      requires Valid()
      modifies this`tensorTagToBuf
      ensures Model() == FreeBuffers(old(Model()), g)
    {
      var todo := tensorTagToBuf.Keys;
      while todo != {}
        invariant todo <= old(tensorTagToBuf).Keys == tensorTagToBuf.Keys
        invariant forall tag | tag in tensorTagToBuf ::
          tensorTagToBuf[tag] == (if tag !in todo && tag.group == g then None else old(tensorTagToBuf)[tag])
      {
        var tag :| tag in todo;
        todo := todo - {tag};
        if tag.group == g {
          tensorTagToBuf := tensorTagToBuf[tag := None];
        }
      }
      assert tensorTagToBuf == FreeBuffers(old(Model()), g).buf;
    }

    method OnGroupCommitForward()
      returns (ghost m0: map<Key, Tensor>, ghost m1: map<Key, Tensor>, error: Option<HandlerError>)
      requires Valid()
      modifies this
      ensures error.None? <==> CanCommitForward(p, old(Model()))
      ensures error.None? ==>
        && CopiesFor(p, old(Model()), m0, m1)
        && Model() == CommitForward(p, old(Model()), m0, m1)
    {
      hide AllOnDevice, BacksUp, BulkOffload, FreeBuffers;
      m0, m1, error := map[], map[], None;
      ghost var h := Model();
      var group := currentGroup;
      if group == 0 {
        m0, error := BulkOffloadGroup(0);
        if error.Some? { return; }
      }
      if offloadedGroupCount >= p.n {
        error := Some(NoSuchWindow);
        return;
      }
      KickstartCounts(h, m0);
      if layerWindowMap[offloadedGroupCount] == group {
        FreeGroupBuffers(offloadedGroupCount);
        if offloadedGroupCount < p.n - 1 {
          OtherGroupsStay(h, m0, offloadedGroupCount + 1);
          ghost var mid := Model();
          m1, error := BulkOffloadGroup(offloadedGroupCount + 1);
          if error.Some? { return; }
          BacksUpSame(m1, mid, h, offloadedGroupCount + 1);
        }
        offloadedGroupCount := offloadedGroupCount + 1;
      }
      currentGroup := currentGroup + 1;
      tensorCountCurrentGroup := 0;
    }

    method BulkReloadGroup(g: nat) returns (error: Option<HandlerError>)
      requires Valid()
      modifies this`tensorTagToState, this`groupOffloadMapping
      ensures error.None? <==> Reloadable(p, old(Model()), g)
      ensures error.None? ==> Model() == BulkReload(p, old(Model()), g)
    {
      error := None;
      ghost var h := Model();
      if g >= p.n { return Some(NotOffloadable); }
      if g !in groupOffloadMapping { return Some(NothingToReload); }
      var copies := groupOffloadMapping[g];
      groupOffloadMapping := groupOffloadMapping - {g};
      var todo := tensorTagToState.Keys;
      while todo != {}
        invariant todo <= h.state.Keys == tensorTagToState.Keys
        invariant groupOffloadMapping == h.mapping - {g}
        invariant forall tag | tag in h.state ::
          tensorTagToState[tag] == (if tag !in todo && tag.group == g then ToDevice(copies, h.state[tag]) else h.state[tag])
        invariant forall tag | tag in h.state && tag !in todo && tag.group == g :: CanReload(copies, h.state[tag])
      {
        var tag :| tag in todo;
        todo := todo - {tag};
        if tag.group == g && tensorTagToState[tag].Host? {
          var slot := tensorTagToState[tag];
          if slot.key !in copies { return Some(KeyNotBackedUp); }
          if |copies[slot.key].data| != Numel(slot.shape) { return Some(ViewMismatch); }
          tensorTagToState := tensorTagToState[tag := Device(Tensor(slot.key, slot.shape, copies[slot.key].data))];
        }
      }
      assert tensorTagToState == BulkReload(p, h, g).state;
    }

    method OnGroupCommitBackward() returns (error: Option<HandlerError>)
      requires Valid()
      modifies this
      ensures error.None? <==> CanCommitBackward(p, old(Model()))
      ensures error.None? ==> Model() == CommitBackward(p, old(Model()))
    {
      error := None;
      if currentGroup == 0 { return Some(NegativeGroup); }
      currentGroup := currentGroup - 1;
      if !(1 <= offloadedGroupCount <= p.n) { return Some(NoSuchWindow); }
      if layerWindowMap[offloadedGroupCount - 1] == currentGroup {
        error := BulkReloadGroup(offloadedGroupCount - 1);
        if error.Some? { return; }
        offloadedGroupCount := offloadedGroupCount - if offloadedGroupCount > 1 then 1 else 0;
      }
      if currentGroup == 0 {
        offloadedGroupCount := 0;
      }
    }
  }
}
