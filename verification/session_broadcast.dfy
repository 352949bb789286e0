/** The protocol's step-by-step broadcast and the fan-out loop of LiveSession are the same thing. */
module SessionBroadcast {
  import opened Basics
  import opened LiveSession
  import opened SessionProtocol
  import opened SessionInvariant

  function Offers(order: seq<nat>): seq<Action> {
    seq(|order|, i requires 0 <= i < |order| => Offer(order[i]))
  }

  function Visited(order: seq<nat>): set<nat> { set k | k in order }

  lemma InvIsWellFormed(s: State)
    requires Inv(s)
    ensures WellFormed(s.live)
  {
    forall k | k in s.live.subs
      ensures k < s.live.nextSub && s.live.subs[k] < |s.live.chans| && !s.live.chans[s.live.subs[k]].closed
    {
      assert ChannelAt(s, s.live.subs[k]);
    }
  }

  lemma OneOffer(s: State, sub: nat)
    requires Inv(s) && s.reader.Sending? && sub in s.reader.pending
    ensures Enabled(s, Offer(sub)) && Inv(Next(s, Offer(sub)))
    ensures var t := Next(s, Offer(sub));
      && t.written == s.written && t.sent == s.sent && t.live.subs == s.live.subs
      && t.live == TrySend(s.live, s.live.subs[sub], Data(Current(s)))
      && t.reader == Sending(s.reader.pending - {sub}, s.reader.err)
  {
    StepKeepsInv(s, Offer(sub));
    assert ChannelAt(s, s.live.subs[sub]);
  }

  /** While ls.mu is held and nobody receives, the offers do what the loop does. */
  lemma {:induction false} OffersAreTheLoop(s: State, order: seq<nat>) returns (t: State)
    requires Inv(s) && s.reader.Sending? && NoRepeats(order) && forall k :: k in order ==> k in s.reader.pending
    ensures Runs(s, Offers(order), t) && Inv(t) && t.written == s.written && t.sent == s.sent
    ensures t.live.subs == s.live.subs && t.reader == Sending(s.reader.pending - Visited(order), s.reader.err)
    ensures (forall k :: k in order ==> k in s.live.subs && s.live.subs[k] < |s.live.chans|)
      && t.live == OfferAll(s.live, order, Data(Current(s)))
    decreases |order|
  {
    hide Inv, Next;
    SendingFacts(s);
    if order == [] {
      t := s;
      assert s.reader.pending - Visited(order) == s.reader.pending;
    } else {
      var front, k := order[..|order| - 1], order[|order| - 1];
      assert order == front + [k] && k !in front;
      var u := OffersAreTheLoop(s, front);
      SendingFacts(u);
      OneOffer(u, k);
      t := Next(u, Offer(k));
      assert Offers(order) == Offers(front) + [Offer(k)];
      RunsThen(s, Offers(front), u, Offer(k));
      assert Visited(order) == Visited(front) + {k};
      assert s.reader.pending - Visited(front) - {k} == s.reader.pending - Visited(order);
    }
  }

  lemma SendingFacts(s: State)
    requires Inv(s) && s.reader.Sending?
    ensures s.sent < |s.written| && s.reader.pending <= s.live.subs.Keys && |s.live.chans| == |s.hist|
    ensures forall k :: k in s.live.subs ==> s.live.subs[k] < |s.live.chans|
  {
  }

  lemma LockFacts(s: State)
    requires Inv(s) && s.reader.Wrote?
    ensures Enabled(s, LockForBroadcast) && Inv(Next(s, LockForBroadcast)) && s.sent < |s.written|
    ensures Next(s, LockForBroadcast) == s.(reader := Sending(s.live.subs.Keys, s.reader.err))
  {
    StepKeepsInv(s, LockForBroadcast);
  }

  lemma UnlockFacts(s: State)
    requires s.reader.Sending? && s.reader.pending == {}
    ensures Enabled(s, UnlockBroadcast)
    ensures Next(s, UnlockBroadcast).live == s.live && Next(s, UnlockBroadcast).sent == s.sent + 1
  {
  }

  lemma RunsFirst(s: State, a: Action, rest: seq<Action>, t: State)
    requires Enabled(s, a) && Runs(Next(s, a), rest, t)
    ensures Runs(s, [a] + rest, t)
  {
    assert ([a] + rest)[1..] == rest;
  }

  /** A broadcast during which no consumer receives leaves what Session.BroadcastEvent leaves, in whatever
      order the subscribers are visited. */
  lemma UninterruptedBroadcast(s: State, order: seq<nat>) returns (trace: seq<Action>, t: State)
    requires Inv(s) && s.reader.Wrote? && NoRepeats(order) && forall k :: k in order <==> k in s.live.subs
    ensures s.sent < |s.written| && Runs(s, trace, t) && t.sent == s.sent + 1
    ensures t.live == Broadcast(s.live, Data(s.written[s.sent]))
    ensures trace == [LockForBroadcast] + (Offers(order) + [UnlockBroadcast])
  {
    InvIsWellFormed(s);
    LockFacts(s);
    hide Inv, Next, Enabled, WellFormed, OfferAll, Broadcast, Runs;
    var u := Next(s, LockForBroadcast);
    var v := OffersAreTheLoop(u, order);
    BroadcastIgnoresOrder(s.live, order, Data(Current(u)));
    assert v.reader.pending == {} by {
      assert Visited(order) == s.live.subs.Keys;
    }
    UnlockFacts(v);
    t := Next(v, UnlockBroadcast);
    RunsThen(u, Offers(order), v, UnlockBroadcast);
    RunsFirst(s, LockForBroadcast, Offers(order) + [UnlockBroadcast], t);
    trace := [LockForBroadcast] + (Offers(order) + [UnlockBroadcast]);
  }
}
