/** internal/session/manager.go: one live session, its subscribers and their channels.
    Go channels are reference cells, so a channel is named by its position in `chans`. */
module LiveSession {
  import opened Basics

  const SUB_BUFFER: nat := 1024

  type Chunk = seq<byte>

  /** Event{Data, StateRunning} or Event{StateClosed, Stopped: true}. */
  datatype Event = Data(bytes: Chunk) | Stopped

  datatype Channel = Channel(cap: nat, queue: seq<Event>, closed: bool)

  /** The fields guarded by ls.mu, and the channels they lead to. A send on a closed channel and a
      second close panic in Go; here they set `panicked`. */
  datatype Live = Live(
    subs: map<nat, nat>,
    nextSub: nat,
    closed: bool,
    intentional: bool,
    chans: seq<Channel>,
    panicked: bool)

  const NEW_LIVE: Live := Live(map[], 0, false, false, [], false)

  function Push(l: Live, ch: nat, ev: Event): Live
    requires ch < |l.chans|
  {
    var c := l.chans[ch];
    if c.closed then l.(panicked := true)
    else l.(chans := l.chans[ch := c.(queue := c.queue + [ev])])
  }

  predicate HasRoom(l: Live, ch: nat)
    requires ch < |l.chans|
  {
    |l.chans[ch].queue| < l.chans[ch].cap
  }

  /** A send that gives up when the channel is full. */
  function TrySend(l: Live, ch: nat, ev: Event): Live
    requires ch < |l.chans|
  {
    if l.chans[ch].closed || HasRoom(l, ch) then Push(l, ch, ev) else l
  }

  function CloseChannel(l: Live, ch: nat): Live
    requires ch < |l.chans|
  {
    var c := l.chans[ch];
    if c.closed then l.(panicked := true)
    else l.(chans := l.chans[ch := c.(closed := true)])
  }

  function Receive(l: Live, ch: nat): Live
    requires ch < |l.chans| && l.chans[ch].queue != []
  {
    var c := l.chans[ch];
    l.(chans := l.chans[ch := c.(queue := c.queue[1..])])
  }

  /** A channel that already holds the Stopped event and is closed. */
  const ENDED: Channel := Channel(1, [Stopped], true)

  function AddEnded(l: Live): Live {
    l.(chans := l.chans + [ENDED])
  }

  function Subscribe(l: Live): Live {
    if l.closed then AddEnded(l)
    else l.(subs := l.subs[l.nextSub := |l.chans|], nextSub := l.nextSub + 1,
            chans := l.chans + [Channel(SUB_BUFFER, [], false)])
  }

  function Cancel(l: Live, sub: nat): Live
    requires sub in l.subs ==> l.subs[sub] < |l.chans|
  {
    if sub in l.subs then CloseChannel(l.(subs := l.subs - {sub}), l.subs[sub]) else l
  }

  /** The critical section of finalize that runs once: close the session, take the subscribers away. */
  function Detach(l: Live): Live {
    l.(closed := true, subs := map[])
  }

  /** Distinct subscribers, each with an open channel of its own. */
  ghost predicate WellFormed(l: Live) {
    && (forall k :: k in l.subs ==> k < l.nextSub && l.subs[k] < |l.chans| && !l.chans[l.subs[k]].closed)
    && (forall j, k :: j in l.subs && k in l.subs && l.subs[j] == l.subs[k] ==> j == k)
    && (l.closed ==> l.subs == map[])
  }

  /** Every channel in `who` that has room gets the event; no other channel changes. */
  function GiveTo(l: Live, who: set<nat>, ev: Event): Live {
    l.(chans := seq(|l.chans|, i requires 0 <= i < |l.chans| =>
      if i in who && HasRoom(l, i) then l.chans[i].(queue := l.chans[i].queue + [ev]) else l.chans[i]))
  }

  /** What a broadcast leaves behind. */
  function Broadcast(l: Live, ev: Event): Live {
    GiveTo(l, l.subs.Values, ev)
  }

  /** A broadcast appends the event to the queue of each subscriber that has room, and does nothing else. */
  lemma BroadcastMeans(l: Live, ev: Event)
    ensures var r := Broadcast(l, ev);
      && r.(chans := l.chans) == l && |r.chans| == |l.chans|
      && forall i :: 0 <= i < |l.chans| ==>
           r.chans[i] == if i in l.subs.Values && |l.chans[i].queue| < l.chans[i].cap
                         then l.chans[i].(queue := l.chans[i].queue + [ev]) else l.chans[i]
  {
  }

  /** The fan-out loop, visiting the subscribers in the given order. */
  function OfferAll(l: Live, order: seq<nat>, ev: Event): (r: Live)
    requires forall k :: k in order ==> k in l.subs && l.subs[k] < |l.chans|
    ensures |r.chans| == |l.chans|
  {
    if order == [] then l
    else TrySend(OfferAll(l, order[..|order| - 1], ev), l.subs[order[|order| - 1]], ev)
  }

  function Targets(l: Live, order: seq<nat>): set<nat>
    requires forall k :: k in order ==> k in l.subs
  {
    set k | k in order :: l.subs[k]
  }

  lemma GiveToOneMore(l: Live, who: set<nat>, ch: nat, ev: Event)
    requires ch < |l.chans| && !l.chans[ch].closed && ch !in who
    ensures TrySend(GiveTo(l, who, ev), ch, ev) == GiveTo(l, who + {ch}, ev)
  {
    assert TrySend(GiveTo(l, who, ev), ch, ev).chans == GiveTo(l, who + {ch}, ev).chans;
  }

  lemma {:induction false} OfferAllGivesToTargets(l: Live, order: seq<nat>, ev: Event)
    requires WellFormed(l) && NoRepeats(order)
    requires forall k :: k in order ==> k in l.subs
    ensures OfferAll(l, order, ev) == GiveTo(l, Targets(l, order), ev)
    decreases |order|
  {
    if order == [] {
      assert GiveTo(l, {}, ev).chans == l.chans;
    } else {
      var front, k := order[..|order| - 1], order[|order| - 1];
      assert order == front + [k] && k !in front;
      OfferAllGivesToTargets(l, front, ev);
      hide TrySend, GiveTo, HasRoom;
      assert l.subs[k] !in Targets(l, front);
      GiveToOneMore(l, Targets(l, front), l.subs[k], ev);
      assert Targets(l, order) == Targets(l, front) + {l.subs[k]};
    }
  }

  /** Go visits the map in an arbitrary order; the outcome does not depend on it. */
  lemma BroadcastIgnoresOrder(l: Live, order: seq<nat>, ev: Event)
    requires WellFormed(l) && NoRepeats(order)
    requires forall k :: k in order <==> k in l.subs
    ensures OfferAll(l, order, ev) == Broadcast(l, ev)
  {
    OfferAllGivesToTargets(l, order, ev);
    assert Targets(l, order) == l.subs.Values;
  }

  class Session {
    var subs: map<nat, nat>
    var nextSub: nat
    var closed: bool
    var intentional: bool
    var chans: seq<Channel>

    ghost function View(): Live
      reads this
    {
      Live(subs, nextSub, closed, intentional, chans, false)
    }

    ghost predicate Valid()
      reads this
    {
      WellFormed(View())
    }

    constructor ()
      ensures Valid() && View() == NEW_LIVE
    {
      subs, nextSub, closed, intentional, chans := map[], 0, false, false, [];
    }

    method SubscribeTo() returns (ch: nat, sub: Option<nat>)
      requires Valid()
      modifies this
      ensures Valid() && View() == Subscribe(old(View()))
      ensures ch == |old(chans)| && ch < |chans|
      ensures sub == if old(closed) then None else Some(old(nextSub))
      ensures sub.Some? ==> sub.value !in old(subs) && subs == old(subs)[sub.value := ch]
      ensures sub.None? ==> subs == old(subs)
      ensures chans == old(chans) + [if sub.Some? then Channel(1024, [], false) else Channel(1, [Stopped], true)]
    {
      ch := |chans|;
      if closed {
        chans := chans + [Channel(1, [Stopped], true)];
        return ch, None;
      }
      sub := Some(nextSub);
      chans := chans + [Channel(SUB_BUFFER, [], false)];
      subs := subs[nextSub := ch];
      nextSub := nextSub + 1;
    }

    /** The cancel closure handed out with subscription `sub`; calling it again does nothing. */
    method CancelSub(sub: nat)
      requires Valid()
      modifies this
      ensures Valid() && View() == Cancel(old(View()), sub)
      ensures sub !in old(subs) ==> View() == old(View())
      ensures sub in old(subs) ==>
        subs == old(subs) - {sub} && chans == old(chans)[old(subs)[sub] := old(chans)[old(subs)[sub]].(closed := true)]
    {
      if sub in subs {
        var ch := subs[sub];
        subs := subs - {sub};
        chans := chans[ch := chans[ch].(closed := true)];
      } else {
        assert subs - {sub} == subs;
      }
    }

    /** The fan-out loop under ls.mu, when no consumer receives in between. */
    method BroadcastEvent(ev: Event)
      requires Valid()
      modifies this
      ensures Valid() && View() == Broadcast(old(View()), ev)
    {
      hide Broadcast, GiveTo;
      ghost var was := View();
      ghost var order: seq<nat> := [];
      var pending := subs.Keys;
      while pending != {}
        invariant NoRepeats(order) && pending <= was.subs.Keys
        invariant forall k :: k in order <==> k in was.subs && k !in pending
        invariant View() == OfferAll(was, order, ev)
        invariant View() == was.(chans := chans) && |chans| == |was.chans|
        invariant forall i :: 0 <= i < |chans| ==> chans[i].closed == was.chans[i].closed
        decreases pending
      {
        var k :| k in pending;
        var ch := subs[k];
        if |chans[ch].queue| < chans[ch].cap {
          chans := chans[ch := chans[ch].(queue := chans[ch].queue + [ev])];
        }
        pending := pending - {k};
        assert (order + [k])[..|order|] == order;
        order := order + [k];
      }
      BroadcastIgnoresOrder(was, order, ev);
    }

    method MarkIntentional()
      requires Valid()
      modifies this`intentional
      ensures Valid() && View() == old(View()).(intentional := true)
    {
      intentional := true;
    }

    /** finalize, first critical section. The second caller is turned away. */
    method BeginFinalize() returns (first: bool, detached: set<nat>)
      requires Valid()
      modifies this`closed, this`subs
      ensures Valid() && first == !old(closed)
      ensures first ==> View() == Detach(old(View())) && detached == old(subs).Values
      ensures closed && (first ==> subs == map[])
      ensures !first ==> View() == old(View()) && detached == {}
    {
      if closed {
        return false, {};
      }
      closed := true;
      detached := set k | k in subs :: subs[k];
      subs := map[];
      first := true;
    }

    /** finalize, one turn of the loop over detached channels, once the send can proceed. */
    method StopChannel(ch: nat)
      requires Valid() && ch < |chans|
      requires ch !in subs.Values && !chans[ch].closed && HasRoom(View(), ch)
      modifies this`chans
      ensures Valid() && View() == CloseChannel(Push(old(View()), ch, Stopped), ch)
      ensures chans == old(chans)[ch := Channel(old(chans)[ch].cap, old(chans)[ch].queue + [Stopped], true)]
    {
      chans := chans[ch := chans[ch].(queue := chans[ch].queue + [Stopped])];
      chans := chans[ch := chans[ch].(closed := true)];
    }
  }
}
