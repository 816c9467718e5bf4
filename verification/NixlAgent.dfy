/**
  The queues of verl/checkpoint_engine/nixl_checkpoint_engine.py's NixlAgent, and the ring of
  neighbours that build_topology lays out.
*/
module NixlAgent {
  import opened Sequences
  import opened Wrappers

  type Name = string

  function Get<T>(m: map<Name, seq<T>>, who: Name): seq<T> {
    if who in m then m[who] else []
  }

  /** The messages on the wire that come from `who`, in order. */
  function From<T>(wire: seq<(Name, T)>, who: Name): seq<T> {
    if wire == [] then []
    else (if wire[0].0 == who then [wire[0].1] else []) + From(wire[1..], who)
  }

  /** One answer of `get_new_notifs`: a dict in insertion order. */
  type Poll = seq<(Name, seq<nat>)>

  function Extend(m: map<Name, seq<nat>>, poll: Poll): map<Name, seq<nat>>
    decreases |poll|
  {
    if poll == [] then m else Extend(m[poll[0].0 := Get(m, poll[0].0) + poll[0].1], poll[1..])
  }

  /** Everything `polls` brings from `who`, in order. */
  function Brought(polls: seq<Poll>, who: Name): seq<nat>
    decreases |polls|
  {
    if polls == [] then [] else Concat<nat>(From(polls[0], who)) + Brought(polls[1..], who)
  }

  class Agent<M> {
    var messages: map<Name, seq<M>>
    var notifications: map<Name, seq<nat>>

    constructor ()
      ensures messages == map[] && notifications == map[]
    {
      messages, notifications := map[], map[];
    }

    /**
      `read_message`: `wire` is what the socket will deliver. The oldest message of `who` is
      returned, nobody's messages are lost or reordered, and it blocks only if there is none.
    */
    method ReadMessage(who: Name, wire: seq<(Name, M)>) returns (message: Option<M>, rest: seq<(Name, M)>)
      modifies this`messages
      ensures message.None? <==> Get(old(messages), who) + From(wire, who) == []
      ensures message.None? ==> rest == []
      ensures message.Some? ==>
        [message.value] + Get(messages, who) + From(rest, who) == Get(old(messages), who) + From(wire, who)
      ensures forall n | n != who :: Get(messages, n) + From(rest, n) == Get(old(messages), n) + From(wire, n)
    {
      rest := wire;
      while Get(messages, who) == []
        invariant forall n :: Get(messages, n) + From(rest, n) == Get(old(messages), n) + From(wire, n)
        decreases |rest|
      {
        if rest == [] {
          return None, [];
        }
        var (sender, m) := rest[0];
        messages := messages[sender := Get(messages, sender) + [m]];
        rest := rest[1..];
      }
      message := Some(messages[who][0]);
      messages := messages[who := messages[who][1..]];
    }

    /**
      `get_notification`: `polls` is what successive `get_new_notifs` calls will answer. The inner
      loop reuses the name `remote_name`, so the queue that is tested and popped is that of the
      last remote named so far. If only `remote` notifies, the oldest of its notifications comes out.
    */
    method GetNotification(remote: Name, polls: seq<Poll>)
      returns (from: Name, notification: Option<nat>, used: nat)
      modifies this`notifications
      ensures (from, notification) == Popped(old(notifications), remote, polls)
      ensures used <= |polls| && (notification.None? ==> used == |polls|)
      ensures Conserved(notifications, old(notifications), polls[..used], from, notification)
      ensures NamesOnly(polls, {remote}) ==> from == remote && notification == Oldest(old(notifications), remote, polls)
    {
      hide Popped, Extend, Brought, Oldest, Accounted, Conserved, NamesOnly;
      from, used := remote, 0;
      assert polls[0..] == polls;
      AccountedNothing(notifications);
      SinglePeerNamed(notifications, remote, polls);
      while Get(notifications, from) == []
        invariant used <= |polls| && Accounted(notifications, old(notifications), polls[..used])
        invariant Popped(notifications, from, polls[used..]) == Popped(old(notifications), remote, polls)
        decreases |polls| - used
      {
        if used == |polls| {
          assert polls[used..] == [];
          PoppedNone(notifications, from);
          ConservedNone(notifications, old(notifications), polls[..used], from);
          return from, None, used;
        }
        var poll := polls[used];
        AccountedMore(notifications, old(notifications), polls, used);
        PoppedLater(notifications, from, polls, used);
        notifications := Extend(notifications, poll);
        if poll != [] {
          from := poll[|poll| - 1].0;
        }
        used := used + 1;
      }
      PoppedNow(notifications, from, polls[used..]);
      ConservedPop(notifications, old(notifications), polls[..used], from);
      notification := Some(notifications[from][0]);
      notifications := notifications[from := notifications[from][1..]];
    }
  }

  /** Which queue is popped in the end, and what comes out; None if the polls run out first. */
  function Popped(q: map<Name, seq<nat>>, remote: Name, polls: seq<Poll>): (Name, Option<nat>)
    decreases |polls|
  {
    if Get(q, remote) != [] then (remote, Some(Get(q, remote)[0]))
    else if polls == [] then (remote, None)
    else Popped(Extend(q, polls[0]), if polls[0] != [] then polls[0][|polls[0]| - 1].0 else remote, polls[1..])
  }

  lemma PoppedNow(q: map<Name, seq<nat>>, remote: Name, polls: seq<Poll>)
    requires Get(q, remote) != []
    ensures Popped(q, remote, polls) == (remote, Some(Get(q, remote)[0]))
  {
  }

  lemma PoppedNone(q: map<Name, seq<nat>>, remote: Name)
    requires Get(q, remote) == []
    ensures Popped(q, remote, []) == (remote, None)
  {
  }

  lemma PoppedLater(q: map<Name, seq<nat>>, remote: Name, polls: seq<Poll>, used: nat)
    requires Get(q, remote) == [] && used < |polls|
    ensures var poll := polls[used];
      Popped(q, remote, polls[used..]) ==
        Popped(Extend(q, poll), if poll != [] then poll[|poll| - 1].0 else remote, polls[used + 1..])
  {
    assert polls[used..][1..] == polls[used + 1..];
  }

  /** The oldest notification of `remote`, queued already or still to come. */
  function Oldest(q: map<Name, seq<nat>>, remote: Name, polls: seq<Poll>): Option<nat> {
    var all := Get(q, remote) + Brought(polls, remote);
    if all == [] then None else Some(all[0])
  }

  /** Only members of `peers` notify. */
  ghost predicate NamesOnly(polls: seq<Poll>, peers: set<Name>) {
    forall p, e | p in polls && e in p :: e.0 in peers
  }

  lemma ConcatFirst(keys: seq<nat>, rest: seq<seq<nat>>)
    ensures Concat<nat>([keys] + rest) == keys + Concat<nat>(rest)
  {
    assert ([keys] + rest)[1..] == rest;
  }

  lemma {:induction false} ExtendAppends(m: map<Name, seq<nat>>, poll: Poll, n: Name)
    ensures Get(Extend(m, poll), n) == Get(m, n) + Concat<nat>(From(poll, n))
    decreases |poll|
  {
    hide Concat;
    if poll == [] {
      assert Concat<nat>([]) == [] by { ConcatNothing(); }
      assert Get(m, n) + [] == Get(m, n);
    } else {
      var who, keys, rest := poll[0].0, poll[0].1, From(poll[1..], n);
      ExtendAppends(m[who := Get(m, who) + keys], poll[1..], n);
      if who == n {
        ConcatFirst(keys, rest);
        assert Get(m, n) + keys + Concat<nat>(rest) == Get(m, n) + (keys + Concat<nat>(rest));
      } else {
        assert From(poll, n) == rest;
      }
    }
  }

  lemma ConcatNothing()
    ensures Concat<nat>([]) == []
  {
  }

  /** Every queue holds what it held plus what the polls brought for it. */
  ghost predicate Accounted(q: map<Name, seq<nat>>, q0: map<Name, seq<nat>>, polls: seq<Poll>) {
    forall n :: Get(q, n) == Get(q0, n) + Brought(polls, n)
  }

  /** Nobody's notifications are lost or reordered, the one popped from `from` aside. */
  ghost predicate Conserved(
    q: map<Name, seq<nat>>, q0: map<Name, seq<nat>>, polls: seq<Poll>, from: Name, popped: Option<nat>)
  {
    forall n ::
      (if n == from && popped.Some? then [popped.value] else []) + Get(q, n) == Get(q0, n) + Brought(polls, n)
  }

  lemma ConservedNone(q: map<Name, seq<nat>>, q0: map<Name, seq<nat>>, polls: seq<Poll>, from: Name)
    requires Accounted(q, q0, polls)
    ensures Conserved(q, q0, polls, from, None)
  {
    hide Brought;
    forall n ensures [] + Get(q, n) == Get(q0, n) + Brought(polls, n) {
    }
  }

  lemma ConservedPop(q: map<Name, seq<nat>>, q0: map<Name, seq<nat>>, polls: seq<Poll>, from: Name)
    requires Accounted(q, q0, polls) && Get(q, from) != []
    ensures Conserved(q[from := q[from][1..]], q0, polls, from, Some(q[from][0]))
  {
    hide Brought;
    var r := q[from := q[from][1..]];
    forall n ensures (if n == from then [q[from][0]] else []) + Get(r, n) == Get(q0, n) + Brought(polls, n) {
      assert [q[from][0]] + q[from][1..] == q[from];
      assert n != from ==> [] + Get(r, n) == Get(q, n);
    }
  }

  lemma AccountedNothing(q: map<Name, seq<nat>>)
    ensures Accounted(q, q, [])
  {
  }

  lemma AccountedOne(q: map<Name, seq<nat>>, q0: map<Name, seq<nat>>, polls: seq<Poll>, poll: Poll, n: Name)
    requires Get(q, n) == Get(q0, n) + Brought(polls, n)
    ensures Get(Extend(q, poll), n) == Get(q0, n) + Brought(polls + [poll], n)
  {
    hide Get, Extend, Brought, From;
    ExtendAppends(q, poll, n);
    BroughtMore(polls, poll, n);
    assert Get(q0, n) + Brought(polls, n) + Concat<nat>(From(poll, n)) == Get(q0, n) + (Brought(polls, n) + Concat<nat>(From(poll, n)));
  }

  lemma AccountedMore(q: map<Name, seq<nat>>, q0: map<Name, seq<nat>>, polls: seq<Poll>, used: nat)
    requires used < |polls| && Accounted(q, q0, polls[..used])
    ensures Accounted(Extend(q, polls[used]), q0, polls[..used + 1])
  {
    hide Get, Extend, Brought;
    assert polls[..used + 1] == polls[..used] + [polls[used]];
    forall n ensures Get(Extend(q, polls[used]), n) == Get(q0, n) + Brought(polls[..used + 1], n) {
      AccountedOne(q, q0, polls[..used], polls[used], n);
    }
  }

  lemma {:induction false} BroughtMore(polls: seq<Poll>, poll: Poll, n: Name)
    ensures Brought(polls + [poll], n) == Brought(polls, n) + Concat<nat>(From(poll, n))
  {
    if polls == [] {
      assert ([poll])[1..] == [];
    } else {
      assert (polls + [poll])[1..] == polls[1..] + [poll];
      BroughtMore(polls[1..], poll, n);
    }
  }

  lemma {:induction false} SinglePeerNamed(q: map<Name, seq<nat>>, remote: Name, polls: seq<Poll>)
    ensures NamesOnly(polls, {remote}) ==> Popped(q, remote, polls) == (remote, Oldest(q, remote, polls))
    decreases |polls|
  {
    if polls != [] && NamesOnly(polls, {remote}) && Get(q, remote) == [] {
      var p := polls[0];
      assert p in polls;
      if p != [] { assert p[|p| - 1] in p; }
      SinglePeerNamed(Extend(q, p), remote, polls[1..]);
      ExtendAppends(q, p, remote);
    }
  }

  /** The caller gets the oldest notification of the peer it asked for. */
  ghost predicate Served(q: map<Name, seq<nat>>, remote: Name, polls: seq<Poll>) {
    Popped(q, remote, polls) == (remote, Oldest(q, remote, polls))
  }

  /**
    The queue asked for is served, whatever was queued and whatever the polls bring from `peers`,
    if and only if nobody else is among them, as on every link of the chain. Otherwise another
    peer's key comes out, where `wait_for_complete` expects its own.
  */
  lemma NotificationServedIff(remote: Name, peers: set<Name>)
    ensures (forall q, polls | NamesOnly(polls, peers) :: Served(q, remote, polls)) <==> peers <= {remote}
  {
    if peers <= {remote} {
      forall q, polls | NamesOnly(polls, peers) ensures Served(q, remote, polls) {
        assert NamesOnly(polls, {remote});
        SinglePeerNamed(q, remote, polls);
      }
    } else {
      var other :| other in peers && other != remote;
      var polls: seq<Poll> := [[(other, [0])]];
      assert NamesOnly(polls, peers);
      WrongPeerNamed(map[], remote, other, 0);
      assert !Served(map[], remote, polls);
    }
  }

  /** A notification of another peer is popped in place of one that has not come yet. */
  lemma WrongPeerNamed(q: map<Name, seq<nat>>, remote: Name, other: Name, key: nat)
    requires other != remote && Get(q, remote) == Get(q, other) == []
    ensures var polls: seq<Poll> := [[(other, [key])]];
      Popped(q, remote, polls) == (other, Some(key)) && Oldest(q, remote, polls) == None
  {
    var poll: Poll := [(other, [key])];
    var polls: seq<Poll> := [poll];
    assert poll[1..] == [] && polls[1..] == [] && From(poll, remote) == [];
    assert Get(q, other) + [key] == [key];
    assert Extend(q, poll) == Extend(q[other := [key]], []) == q[other := [key]];
    ConcatNothing();
    assert Brought(polls, remote) == [];
  }

  // ----- build_topology ----------------------------------------------------------------------

  /** Python's `s[lo:hi]`, either bound possibly negative or left out. */
  function Slice<T>(s: seq<T>, lo: int, hi: Option<int>): seq<T> {
    var from := Clamp(lo, |s|);
    var to := if hi.Some? then Clamp(hi.value, |s|) else |s|;
    if from <= to then s[from..to] else []
  }

  function Clamp(i: int, n: nat): (r: nat)
    ensures r <= n
  {
    var k := if i < 0 then i + n else i;
    if k < 0 then 0 else if k > n then n else k
  }

  /** `prev_agent_metadata` and `next_agent_metadata` of the rollout ranks; `None` is a missing neighbour. */
  function RolloutPrev<T>(rollout: nat, metadata: seq<T>): seq<T>
    requires metadata != []
  {
    [metadata[0]] + Slice(metadata, 0 - rollout, Some(-1))
  }

  function Somes<T>(s: seq<T>): seq<Option<T>> {
    seq(|s|, i requires 0 <= i < |s| => Some(s[i]))
  }

  function RolloutNext<T>(rollout: nat, metadata: seq<T>): seq<Option<T>> {
    Somes(Slice(metadata, 1 - rollout, None)) + [None]
  }

  /** `next_agent_metadata` of the actors: actor 0 sends to the first rollout worker. */
  function ActorNext<T>(actors: nat, rollout: nat, metadata: seq<T>): seq<Option<T>>
    requires 0 < rollout <= |metadata| && actors > 0
  {
    [Some(metadata[|metadata| - rollout])] + seq(actors - 1, _ => None)
  }

  /** A chain: actor 0, then the rollout workers in order, the last one without a successor; the other actors apart. */
  ghost predicate IsChain<T>(
    actors: nat, rollout: nat, metadata: seq<T>, actorNext: seq<Option<T>>, prev: seq<T>, next: seq<Option<T>>)
    requires |metadata| == actors + rollout && actors > 0 && rollout > 0
  {
    && |actorNext| == actors && actorNext[0] == Some(metadata[actors])
    && (forall i | 0 < i < actors :: actorNext[i] == None)
    && |prev| == rollout && |next| == rollout
    && forall i | 0 <= i < rollout ::
         && prev[i] == (if i == 0 then metadata[0] else metadata[actors + i - 1])
         && next[i] == (if i + 1 < rollout then Some(metadata[actors + i + 1]) else None)
  }

  /**
    build_topology lays out the chain exactly when there are at least two rollout workers: with
    one, `metadata[-1 + 1:]` is the whole list and the lengths no longer match.
  */
  lemma TopologyIsChainIff<T>(actors: nat, rollout: nat, metadata: seq<T>)
    requires actors > 0 && rollout > 0 && |metadata| == actors + rollout
    ensures IsChain(actors, rollout, metadata, ActorNext(actors, rollout, metadata), RolloutPrev(rollout, metadata),
                    RolloutNext(rollout, metadata))
            <==> rollout >= 2
  {
    if rollout >= 2 {
      assert Slice(metadata, 0 - rollout, Some(-1)) == metadata[actors..actors + rollout - 1];
      assert Slice(metadata, 1 - rollout, None) == metadata[actors + 1..];
    } else {
      assert Slice(metadata, 1 - rollout, None) == metadata;
    }
  }
}
