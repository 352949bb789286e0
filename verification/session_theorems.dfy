/** What the session protocol promises its subscribers and its host, over every run. */
module SessionTheorems {
  import opened Basics
  import opened LiveSession
  import opened SessionProtocol
  import opened SessionInvariant
  import opened SessionReader

  function Messages(s: State, ch: nat): seq<Event>
    requires ch < |s.live.chans| == |s.hist|
  {
    Received(s.live.chans[ch], s.hist[ch])
  }

  // ----- The channel protocol

  lemma {:induction false} KeptIsData(chunks: seq<Chunk>, a: nat, b: nat, missed: set<nat>)
    requires b <= |chunks|
    ensures forall i :: 0 <= i < |Kept(chunks, a, b, missed)| ==> Kept(chunks, a, b, missed)[i].Data?
    decreases b
  {
    if b <= a {
    } else {
      KeptIsData(chunks, a, b - 1, missed);
    }
  }

  /** In every run: nothing is sent on or closed a second time after a close; Stopped comes at most once
      and last; a closed channel ends in Stopped exactly when it was not cancel that closed it. */
  lemma ChannelProtocol(cap: nat, trace: seq<Action>, t: State, ch: nat)
    requires Runs(Init(cap), trace, t) && ch < |t.live.chans|
    ensures !t.live.panicked && |t.hist| == |t.live.chans|
    ensures |t.live.chans[ch].queue| <= 1024
    ensures var msgs := Messages(t, ch);
      && (forall i :: 0 <= i < |msgs| - 1 ==> msgs[i].Data?)
      && (t.live.chans[ch].closed ==>
            (msgs != [] && msgs[|msgs| - 1].Stopped? <==> !t.hist[ch].phase.Cancelled?))
      && (msgs != [] && msgs[|msgs| - 1].Stopped? ==> t.live.closed)
  {
    EveryRunKeepsInv(cap, trace, t);
    assert ChannelAt(t, ch);
    var h := t.hist[ch];
    if !h.phase.Late? {
      KeptIsData(t.written, h.start, UptoOf(t, h.phase), h.missed);
    }
  }

  /** What can happen to a channel that exists: only its own subscription's cancel and finalize end it. */
  lemma PhaseMoves(s: State, a: Action, ch: nat)
    requires Inv(s) && Enabled(s, a) && ch < |s.hist|
    ensures var p, q := s.hist[ch].phase, Next(s, a).hist[ch].phase;
      || q == p
      || (a.CancelNow? && p == Registered(a.sub) && q == Cancelled(s.sent))
      || (a.EnterFinalize? && p.Registered? && q == Detached(s.sent))
      || (a == SendStopped(ch) && p.Detached? && q == StopSent(p.upto))
      || (a.CloseStopped? && p.StopSent? && q == Finalized(p.upto))
  {
    if a.EnterFinalize? {
      RegisteredMeansSubscribed(s, ch);
    }
  }

  /** Cancel takes its own subscription out and closes that channel, at once and for good; a second cancel, or one
      after finalize, does nothing. */
  lemma CancelEndsOne(s: State, sub: nat)
    requires Inv(s) && Enabled(s, CancelNow(sub))
    ensures var t := Next(s, CancelNow(sub));
      if sub !in s.live.subs then t == s
      else
        var ch := s.live.subs[sub];
        && t.live.subs == s.live.subs - {sub} && ch < |s.hist| == |s.live.chans|
        && t.live.chans == s.live.chans[ch := s.live.chans[ch].(closed := true)]
        && t.hist == s.hist[ch := s.hist[ch].(phase := Cancelled(s.sent))]
  {
    if sub in s.live.subs {
      assert ChannelAt(s, s.live.subs[sub]);
    }
  }

  /** Subscribing adds a channel: open, empty and registered, owed every chunk from the one whose broadcast comes
      next; or, on a closed session, one that holds Stopped and is closed. */
  lemma SubscribeAddsOne(s: State)
    requires Inv(s) && Enabled(s, SubscribeNow)
    ensures var t, ch := Next(s, SubscribeNow), |s.hist|;
      && |t.hist| == |t.live.chans| == ch + 1
      && t.live.chans[..ch] == s.live.chans && t.hist[..ch] == s.hist
      && t.hist[ch].start == s.sent && t.hist[ch].got == [] && t.hist[ch].missed == {} && t.hist[ch].snap.None?
      && (s.live.closed ==>
            t.live.subs == s.live.subs && t.hist[ch].phase.Late? && t.live.chans[ch] == Channel(1, [Stopped], true))
      && (!s.live.closed ==>
            && s.live.nextSub !in s.live.subs && t.live.subs == s.live.subs[s.live.nextSub := ch]
            && t.hist[ch].phase == Registered(s.live.nextSub) && t.live.chans[ch] == Channel(1024, [], false))
  {
  }

  /** Once a channel is closed, what its subscriber gets in all is settled. */
  lemma {:induction false} ClosedIsFinal(s: State, trace: seq<Action>, t: State, ch: nat)
    requires Inv(s) && Runs(s, trace, t) && ch < |s.hist| && s.live.chans[ch].closed
    ensures |t.hist| == |t.live.chans| > ch
    ensures t.live.chans[ch].closed && Messages(t, ch) == Messages(s, ch) && t.hist[ch].missed == s.hist[ch].missed
    decreases |trace|
  {
    if trace == [] {
    } else {
      var u := Next(s, trace[0]);
      StepKeepsInv(s, trace[0]);
      ClosedStep(s, trace[0], ch);
      ClosedIsFinal(u, trace[1..], t, ch);
    }
  }

  lemma ClosedIsNoTarget(s: State, a: Action, ch: nat)
    requires Inv(s) && Enabled(s, a) && ch < |s.hist| && s.live.chans[ch].closed
    ensures Target(s, a) == Some(ch) ==> a == Consume(ch) || a == SnapshotFor(ch)
  {
    assert ChannelAt(s, ch);
  }

  lemma ClosedUntouched(s: State, a: Action, ch: nat)
    requires Inv(s) && Enabled(s, a) && ch < |s.hist| && a != Consume(ch)
    requires Target(s, a) == Some(ch) ==> a == SnapshotFor(ch)
    ensures |Next(s, a).hist| == |Next(s, a).live.chans| > ch && Next(s, a).live.chans[ch] == s.live.chans[ch]
    ensures Next(s, a).hist[ch].got == s.hist[ch].got && Next(s, a).hist[ch].missed == s.hist[ch].missed
  {
    if a.EnterFinalize? {
    } else if a == SnapshotFor(ch) {
    } else {
      hide Next, Enabled, Target;
      Untouched(s, a, ch);
    }
  }

  lemma ClosedStep(s: State, a: Action, ch: nat)
    requires Inv(s) && Enabled(s, a) && ch < |s.hist| && s.live.chans[ch].closed
    ensures |Next(s, a).hist| == |Next(s, a).live.chans| > ch
    ensures Next(s, a).live.chans[ch].closed && Messages(Next(s, a), ch) == Messages(s, ch)
    ensures Next(s, a).hist[ch].missed == s.hist[ch].missed
  {
    StepKeepsInv(s, a);
    if a == Consume(ch) {
      var c := s.live.chans[ch];
      assert s.hist[ch].got + [c.queue[0]] + c.queue[1..] == s.hist[ch].got + c.queue;
    } else {
      ClosedIsNoTarget(s, a, ch);
      hide Next, Enabled, Target;
      ClosedUntouched(s, a, ch);
    }
  }

  // ----- Fan-out: order, losses, conservation

  /** A chunk is missed only by a subscriber whose own queue is full at that moment. */
  lemma MissOnlyWhenFull(s: State, a: Action, ch: nat)
    requires Inv(s) && Enabled(s, a) && ch < |s.hist| && Next(s, a).hist[ch].missed != s.hist[ch].missed
    ensures a.Offer? && s.live.subs[a.sub] == ch
    ensures |s.live.chans[ch].queue| == 1024
    ensures Next(s, a).hist[ch].missed == s.hist[ch].missed + {s.sent}
  {
    assert ChannelAt(s, ch);
    if a.EnterFinalize? {
      RegisteredMeansSubscribed(s, ch);
    }
  }

  lemma {:induction false} KeptLength(chunks: seq<Chunk>, a: nat, b: nat, missed: set<nat>)
    requires a <= b <= |chunks| && forall i :: i in missed ==> a <= i < b
    ensures |Kept(chunks, a, b, missed)| == b - a - |missed|
    decreases b
  {
    if b == a {
      assert missed == {};
    } else {
      KeptLength(chunks, a, b - 1, missed - {b - 1});
      KeptIgnoresLaterMisses(chunks, a, b - 1, missed - {b - 1}, b - 1);
      if b - 1 in missed {
        assert missed - {b - 1} + {b - 1} == missed;
      } else {
        assert missed - {b - 1} == missed;
      }
    }
  }

  lemma {:induction false} KeptHas(chunks: seq<Chunk>, a: nat, b: nat, missed: set<nat>, i: nat)
    requires b <= |chunks| && a <= i < b && i !in missed
    ensures Data(chunks[i]) in Kept(chunks, a, b, missed)
    decreases b
  {
    if i < b - 1 {
      KeptHas(chunks, a, b - 1, missed, i);
    }
  }

  function DataOf(msgs: seq<Event>): seq<Event> {
    if msgs != [] && msgs[|msgs| - 1].Stopped? then msgs[..|msgs| - 1] else msgs
  }

  /** The places from a up to b that are not missed, in order. */
  function Places(a: nat, b: nat, missed: set<nat>): seq<nat>
    decreases b
  {
    if b <= a then [] else Places(a, b - 1, missed) + (if b - 1 in missed then [] else [b - 1])
  }

  lemma {:induction false} PlacesInOrder(a: nat, b: nat, missed: set<nat>)
    ensures forall i :: i in Places(a, b, missed) ==> a <= i < b && i !in missed
    ensures forall j, k :: 0 <= j < k < |Places(a, b, missed)| ==> Places(a, b, missed)[j] < Places(a, b, missed)[k]
    decreases b
  {
    if b <= a {
    } else {
      PlacesInOrder(a, b - 1, missed);
      var front := Places(a, b - 1, missed);
      assert Places(a, b, missed) == if b - 1 in missed then front else front + [b - 1];
      assert forall k :: 0 <= k < |front| ==> front[k] in front;
    }
  }

  lemma {:induction false} PlacesAll(a: nat, b: nat, missed: set<nat>, i: nat)
    requires a <= i < b && i !in missed
    ensures i in Places(a, b, missed)
    decreases b
  {
    if i == b - 1 {
      assert Places(a, b, missed)[|Places(a, b, missed)| - 1] == i;
    } else {
      PlacesAll(a, b - 1, missed, i);
    }
  }

  lemma {:induction false} KeptAtPlaces(chunks: seq<Chunk>, a: nat, b: nat, missed: set<nat>)
    requires b <= |chunks|
    ensures |Places(a, b, missed)| == |Kept(chunks, a, b, missed)|
    ensures forall k :: 0 <= k < |Places(a, b, missed)| ==>
      Places(a, b, missed)[k] < b && Kept(chunks, a, b, missed)[k] == Data(chunks[Places(a, b, missed)[k]])
    decreases b
  {
    if b <= a {
    } else {
      KeptAtPlaces(chunks, a, b - 1, missed);
    }
  }

  /** In every run a subscriber's data is the chunks read from the PTY, from the first one broadcast after it
      subscribed to the last one before it was detached, whole and in order, less the missed ones; and every
      chunk offered is either among them or among the misses. */
  lemma FanOut(cap: nat, trace: seq<Action>, t: State, ch: nat) returns (at: seq<nat>)
    requires Runs(Init(cap), trace, t) && ch < |t.live.chans|
    ensures |t.hist| == |t.live.chans|
    ensures var h, data := t.hist[ch], DataOf(Messages(t, ch)); var upto := UptoOf(t, h.phase);
      !h.phase.Late? ==>
        && h.start <= upto <= |Reads(trace)|
        && |at| == |data| && |data| + |h.missed| == upto - h.start
        && (forall k :: 0 <= k < |at| ==> h.start <= at[k] < upto && at[k] !in h.missed && data[k] == Data(Reads(trace)[at[k]]))
        && (forall j, k :: 0 <= j < k < |at| ==> at[j] < at[k])
        && (forall i :: h.start <= i < upto && i !in h.missed ==> i in at)
  {
    EveryRunKeepsInv(cap, trace, t);
    WrittenIsWhatWasRead(cap, trace, t);
    at := [];
    var h := t.hist[ch];
    if !h.phase.Late? {
      var upto := UptoOf(t, h.phase);
      DataIsKept(t, ch);
      hide Inv, Runs, Kept, UptoOf, Messages, DataOf, Reads;
      at := KeptOfReads(t.written, Reads(trace), h.start, upto, h.missed);
    }
  }

  lemma KeptOfReads(written: seq<Chunk>, all: seq<Chunk>, a: nat, b: nat, missed: set<nat>) returns (at: seq<nat>)
    requires a <= b <= |written| <= |all| && written == all[..|written|] && forall i :: i in missed ==> a <= i < b
    ensures |at| == |Kept(written, a, b, missed)| == b - a - |missed|
    ensures forall k :: 0 <= k < |at| ==> a <= at[k] < b && at[k] !in missed && Kept(written, a, b, missed)[k] == Data(all[at[k]])
    ensures forall j, k :: 0 <= j < k < |at| ==> at[j] < at[k]
    ensures forall i :: a <= i < b && i !in missed ==> i in at
  {
    KeptLength(written, a, b, missed);
    at := Places(a, b, missed);
    KeptAtPlaces(written, a, b, missed);
    PlacesInOrder(a, b, missed);
    assert forall k :: 0 <= k < |at| ==> at[k] in at;
    forall i | a <= i < b && i !in missed
      ensures i in at
    {
      PlacesAll(a, b, missed, i);
    }
  }

  lemma DataIsKept(t: State, ch: nat)
    requires Inv(t) && ch < |t.hist| && !t.hist[ch].phase.Late?
    ensures |t.hist| == |t.live.chans|
    ensures var h := t.hist[ch]; var upto := UptoOf(t, h.phase);
      && h.start <= upto <= |t.written| && (forall i :: i in h.missed ==> h.start <= i < upto)
      && DataOf(Messages(t, ch)) == Kept(t.written, h.start, upto, h.missed)
  {
    assert ChannelAt(t, ch);
    var h := t.hist[ch];
    KeptIsData(t.written, h.start, UptoOf(t, h.phase), h.missed);
  }

  // ----- Replay: Subscribe first, Snapshot second

  /** Every chunk broadcast before the subscription ended is in the snapshot's source, or in the stream,
      or was missed because the queue was full. */
  lemma ReplayHasNoGap(cap: nat, trace: seq<Action>, t: State, ch: nat, i: nat)
    requires Runs(Init(cap), trace, t) && ch < |t.live.chans| && ch < |t.hist|
    requires t.hist[ch].snap.Some? && !t.hist[ch].phase.Late?
    requires i < UptoOf(t, t.hist[ch].phase)
    ensures |t.hist| == |t.live.chans|
    ensures var h := t.hist[ch]; var at := h.snap.value.at;
      && h.start <= at <= |Reads(trace)| && i < |Reads(trace)|
      && h.snap.value.bytes == Last(Flatten(Reads(trace)[..at]), cap)
      && (i < at || i in h.missed || Data(Reads(trace)[i]) in Messages(t, ch))
  {
    EveryRunKeepsInv(cap, trace, t);
    WrittenIsWhatWasRead(cap, trace, t);
    assert t.hist[ch].snap.value.at <= |t.written| ==>
      Reads(trace)[..t.hist[ch].snap.value.at] == t.written[..t.hist[ch].snap.value.at];
    CapIsFixed(Init(cap), trace, t);
    assert ChannelAt(t, ch);
    var h := t.hist[ch];
    if i >= h.snap.value.at && i !in h.missed {
      KeptHas(t.written, h.start, UptoOf(t, h.phase), h.missed, i);
    }
  }

  lemma {:induction false} CapIsFixed(s: State, trace: seq<Action>, t: State)
    requires Runs(s, trace, t)
    ensures t.cap == s.cap
    decreases |trace|
  {
    if trace == [] {
    } else {
      CapIsFixed(Next(s, trace[0]), trace[1..], t);
    }
  }

  function BytesOf(msgs: seq<Event>): seq<byte> {
    if msgs == [] then []
    else BytesOf(msgs[..|msgs| - 1]) + (if msgs[|msgs| - 1].Data? then msgs[|msgs| - 1].bytes else [])
  }

  /** What switchView feeds the pane: the snapshot, then the stream. */
  function PaneBytes(s: State, ch: nat): seq<byte>
    requires ch < |s.live.chans| == |s.hist| && s.hist[ch].snap.Some?
  {
    s.hist[ch].snap.value.bytes + BytesOf(Messages(s, ch))
  }

  lemma {:induction false} BytesOfKept(chunks: seq<Chunk>, a: nat, b: nat)
    requires a <= b <= |chunks|
    ensures BytesOf(Kept(chunks, a, b, {})) == Flatten(chunks[a..b])
    decreases b
  {
    if b <= a {
    } else {
      BytesOfKept(chunks, a, b - 1);
      var k := Kept(chunks, a, b, {});
      assert k[..|k| - 1] == Kept(chunks, a, b - 1, {});
      assert chunks[a..b] == chunks[a..b - 1] + [chunks[b - 1]];
      FlattenSnoc(chunks[a..b - 1], chunks[b - 1]);
    }
  }

  lemma BytesOfStopped(msgs: seq<Event>)
    ensures BytesOf(msgs + [Stopped]) == BytesOf(msgs)
  {
    assert (msgs + [Stopped])[..|msgs|] == msgs;
  }

  lemma FlattenNonEmpty(chunks: seq<Chunk>)
    requires forall i :: 0 <= i < |chunks| ==> chunks[i] != []
    ensures Flatten(chunks) == [] <==> chunks == []
  {
  }

  lemma FlattenRange(chunks: seq<Chunk>, a: nat, m: nat, b: nat)
    requires a <= m <= b <= |chunks|
    ensures Flatten(chunks[a..b]) == Flatten(chunks[a..m]) + Flatten(chunks[m..b])
  {
    FlattenSplit(chunks[a..b], m - a);
    assert chunks[a..b][..m - a] == chunks[a..m] && chunks[a..b][m - a..] == chunks[m..b];
  }

  /** How many chunks these steps write to scrollback. */
  function Writes(trace: seq<Action>): nat {
    if trace == [] then 0
    else (if trace[0].WriteScrollback? then 1 else 0) + Writes(trace[1..])
  }

  lemma {:induction false} WritesGrow(s: State, q: seq<Action>, t: State)
    requires Runs(s, q, t)
    ensures |t.written| == |s.written| + Writes(q)
    decreases |q|
  {
    if q == [] {
    } else {
      WritesGrow(Next(s, q[0]), q[1..], t);
    }
  }

  /** What a channel's record says of its start and its snapshot is settled. */
  lemma RecordStep(s: State, a: Action, ch: nat)
    requires Inv(s) && Enabled(s, a) && ch < |s.hist|
    ensures |Next(s, a).hist| > ch && Next(s, a).hist[ch].start == s.hist[ch].start
    ensures s.hist[ch].phase.Late? <==> Next(s, a).hist[ch].phase.Late?
    ensures s.hist[ch].snap.Some? ==> Next(s, a).hist[ch].snap == s.hist[ch].snap
  {
    PhaseMoves(s, a, ch);
    hide Inv;
    match a
    case EnterFinalize =>
    case SubscribeNow =>
    case SubscribeGone =>
    case _ =>
  }

  lemma {:induction false} RecordKept(s: State, trace: seq<Action>, t: State, ch: nat)
    requires Inv(s) && Runs(s, trace, t) && ch < |s.hist|
    ensures |t.hist| > ch && t.hist[ch].start == s.hist[ch].start
    ensures s.hist[ch].phase.Late? <==> t.hist[ch].phase.Late?
    ensures s.hist[ch].snap.Some? ==> t.hist[ch].snap == s.hist[ch].snap
    decreases |trace|
  {
    if trace == [] {
    } else {
      hide Inv;
      RecordStep(s, trace[0], ch);
      StepKeepsInv(s, trace[0]);
      RecordKept(Next(s, trace[0]), trace[1..], t, ch);
    }
  }

  /** The pane gets the snapshot, then every chunk written after it that was broadcast, and nothing else. */
  ghost predicate FedOnce(t: State, ch: nat)
    requires ch < |t.live.chans| == |t.hist| && t.hist[ch].snap.Some?
    requires t.hist[ch].snap.value.at <= |t.written| && UptoOf(t, t.hist[ch].phase) <= |t.written|
  {
    var at, upto := t.hist[ch].snap.value.at, UptoOf(t, t.hist[ch].phase);
    PaneBytes(t, ch) == Last(Flatten(t.written[..at]), t.cap) + (if at <= upto then Flatten(t.written[at..upto]) else [])
  }

  /** At any moment of any run: with nothing missed, each byte was fed once unless some chunk of the snapshot
      has been broadcast to the subscriber as well. */
  lemma FedOnceIffNoOverlap(t: State, ch: nat)
    requires Inv(t) && ch < |t.hist| && t.hist[ch].snap.Some? && !t.hist[ch].phase.Late? && t.hist[ch].missed == {}
    ensures |t.hist| == |t.live.chans| && t.hist[ch].snap.value.at <= |t.written| && UptoOf(t, t.hist[ch].phase) <= |t.written|
    ensures FedOnce(t, ch) <==> t.hist[ch].start == Min(t.hist[ch].snap.value.at, UptoOf(t, t.hist[ch].phase))
  {
    StreamBytes(t, ch);
    hide Inv, UptoOf, Messages, Kept;
    var w, start, at, upto := t.written, t.hist[ch].start, t.hist[ch].snap.value.at, UptoOf(t, t.hist[ch].phase);
    OverlapIff(w, start, at, upto);
    SameTail(Last(Flatten(w[..at]), t.cap), Flatten(w[start..upto]), if at <= upto then Flatten(w[at..upto]) else []);
  }

  lemma SameTail<T>(a: seq<T>, x: seq<T>, y: seq<T>)
    ensures a + x == a + y <==> x == y
  {
    assert x == (a + x)[|a|..] && y == (a + y)[|a|..];
  }

  lemma StreamBytes(t: State, ch: nat)
    requires Inv(t) && ch < |t.hist| && t.hist[ch].snap.Some? && !t.hist[ch].phase.Late? && t.hist[ch].missed == {}
    ensures |t.hist| == |t.live.chans|
    ensures var h := t.hist[ch]; var at, upto := h.snap.value.at, UptoOf(t, h.phase);
      && h.start <= at <= |t.written| && h.start <= upto <= |t.written|
      && PaneBytes(t, ch) == Last(Flatten(t.written[..at]), t.cap) + Flatten(t.written[h.start..upto])
      && (forall i :: 0 <= i < |t.written| ==> t.written[i] != [])
  {
    assert ChannelAt(t, ch);
    var h := t.hist[ch];
    var kept := Kept(t.written, h.start, UptoOf(t, h.phase), {});
    BytesOfKept(t.written, h.start, UptoOf(t, h.phase));
    BytesOfStopped(kept);
    assert kept + [] == kept;
  }

  lemma OverlapIff(w: seq<Chunk>, start: nat, at: nat, upto: nat)
    requires start <= at <= |w| && start <= upto <= |w|
    requires forall i :: 0 <= i < |w| ==> w[i] != []
    ensures Flatten(w[start..upto]) == (if at <= upto then Flatten(w[at..upto]) else []) <==> start == Min(at, upto)
  {
    var low := Min(at, upto);
    FlattenRange(w, start, low, upto);
    FlattenNonEmpty(w[start..low]);
    assert low == upto ==> w[low..upto] == [];
  }

  /** switchView's two steps, with the steps q of all goroutines between them, and r after them. Once the chunks
      of the snapshot have been broadcast, each byte was fed once exactly when, at Subscribe, the reader was not
      between its write and its broadcast, and q writes nothing to scrollback. Before, exactly while nothing has
      been broadcast to the subscriber. */
  lemma ReplayIsExactlyOnceIff(s: State, q: seq<Action>, u: State, r: seq<Action>, t: State)
    requires Inv(s) && MuFree(s) && !s.live.closed && Runs(Next(s, SubscribeNow), q, u)
    requires Enabled(u, SnapshotFor(|s.hist|)) && Runs(Next(u, SnapshotFor(|s.hist|)), r, t)
    requires |s.hist| < |t.hist| && t.hist[|s.hist|].missed == {}
    ensures var ch := |s.hist|;
      && ch < |t.live.chans| == |t.hist| && t.hist[ch].snap == Some(Snap(u.sb, |u.written|))
      && |u.written| <= |t.written| && UptoOf(t, t.hist[ch].phase) <= |t.written|
      && (UptoOf(t, t.hist[ch].phase) >= |u.written| ==>
            (FedOnce(t, ch) <==> !s.reader.Wrote? && Writes(q) == 0))
      && (UptoOf(t, t.hist[ch].phase) < |u.written| ==>
            (FedOnce(t, ch) <==> UptoOf(t, t.hist[ch].phase) == s.sent))
  {
    var ch := |s.hist|;
    SubscribedAt(s);
    var s', u' := Next(s, SubscribeNow), Next(u, SnapshotFor(ch));
    SwitchRecord(s', q, u, r, t, ch);
    WritesGrow(s', q, u);
    hide Inv, Runs, UptoOf, Next, FedOnce;
    FedOnceIffNoOverlap(t, ch);
    StreamBytes(t, ch);
  }

  lemma SubscribedAt(s: State)
    requires Inv(s) && Enabled(s, SubscribeNow) && !s.live.closed
    ensures var t := Next(s, SubscribeNow); var ch := |s.hist|;
      && Inv(t) && ch < |t.hist| && t.hist[ch].start == s.sent && !t.hist[ch].phase.Late? && t.written == s.written
    ensures |s.written| == s.sent + (if s.reader.Wrote? then 1 else 0)
  {
    StepKeepsInv(s, SubscribeNow);
  }

  lemma SwitchRecord(s: State, q: seq<Action>, u: State, r: seq<Action>, t: State, ch: nat)
    requires Inv(s) && ch < |s.hist| && Runs(s, q, u)
    requires Enabled(u, SnapshotFor(ch)) && Runs(Next(u, SnapshotFor(ch)), r, t)
    ensures Inv(t) && ch < |t.hist| && t.hist[ch].start == s.hist[ch].start
    ensures t.hist[ch].snap == Some(Snap(u.sb, |u.written|)) && |u.written| <= |t.written|
    ensures s.hist[ch].phase.Late? <==> t.hist[ch].phase.Late?
  {
    var u' := Next(u, SnapshotFor(ch));
    RunKeepsInv(s, q, u);
    StepKeepsInv(u, SnapshotFor(ch));
    RunKeepsInv(u', r, t);
    RecordKept(s, q, u, ch);
    hide Inv, Runs;
    RecordKept(u', r, t, ch);
    WritesGrow(u', r, t);
  }

  const OVERLAP_LIVE: Live := Live(map[0 := 0], 1, false, false, [Channel(SUB_BUFFER, [], false)], false)

  /** One subscriber, one byte read and perhaps written and not yet broadcast, and perhaps a snapshot of it. */
  function Overlap(sb: seq<byte>, reader: Reader, written: seq<Chunk>, snap: Option<Snap>): State {
    State(OVERLAP_LIVE, 256, sb, reader, Waiting, false, false, 0, written, 0, [History(0, Registered(0), {}, [], snap)])
  }

  const OVERLAP: State := Overlap([7], Wrote(false), [[7]], Some(Snap([7], 1)))

  lemma OverlapStarts()
    ensures Enabled(Init(256), SubscribeNow) && Next(Init(256), SubscribeNow) == Overlap([], Reading, [], None)
  {
  }

  lemma OverlapReads()
    ensures var s, t := Overlap([], Reading, [], None), Overlap([], Got([7], false), [], None);
      Enabled(s, ReadPty([7], false)) && Next(s, ReadPty([7], false)) == t
  {
  }

  lemma OverlapWrites()
    ensures var s, t := Overlap([], Got([7], false), [], None), Overlap([7], Wrote(false), [[7]], None);
      Enabled(s, WriteScrollback) && Next(s, WriteScrollback) == t
  {
  }

  lemma OverlapSnaps()
    ensures var s := Overlap([7], Wrote(false), [[7]], None);
      Enabled(s, SnapshotFor(0)) && Next(s, SnapshotFor(0)) == OVERLAP
  {
  }

  lemma OverlapIsReachable() returns (trace: seq<Action>)
    ensures Runs(Init(256), trace, OVERLAP)
  {
    OverlapStarts();
    OverlapReads();
    OverlapWrites();
    OverlapSnaps();
    hide Init, Overlap, Next, Enabled;
    trace := [];
    RunsThen(Init(256), trace, Init(256), SubscribeNow);
    trace := trace + [SubscribeNow];
    RunsThen(Init(256), trace, Overlap([], Reading, [], None), ReadPty([7], false));
    trace := trace + [ReadPty([7], false)];
    RunsThen(Init(256), trace, Overlap([], Got([7], false), [], None), WriteScrollback);
    trace := trace + [WriteScrollback];
    RunsThen(Init(256), trace, Overlap([7], Wrote(false), [[7]], None), SnapshotFor(0));
    trace := trace + [SnapshotFor(0)];
  }

  /** The overlap happens: broadcasting that byte shows it to the viewer a second time. */
  lemma ReplayCanRepeat() returns (trace: seq<Action>, t: State)
    ensures Runs(Init(256), trace, t) && |t.live.chans| == |t.hist| == 1 && t.hist[0].snap.Some?
    ensures Flatten(t.written) == [7] && PaneBytes(t, 0) == [7, 7]
  {
    trace := OverlapIsReachable();
    OverlapLocks();
    OverlapOffers();
    hide Init, Next, Enabled, Runs, OverlapSending, Messages, PaneBytes, Flatten;
    RunsThen(Init(256), trace, OVERLAP, LockForBroadcast);
    trace := trace + [LockForBroadcast];
    RunsThen(Init(256), trace, OverlapSending(), Offer(0));
    trace, t := trace + [Offer(0)], Next(OverlapSending(), Offer(0));
    FedTwice(t);
  }

  lemma FedTwice(t: State)
    requires t.written == [[7]] && |t.live.chans| == |t.hist| == 1 && t.hist[0].snap == Some(Snap([7], 1))
    requires Messages(t, 0) == [Data([7])]
    ensures Flatten(t.written) == [7] && PaneBytes(t, 0) == [7, 7]
  {
    FlattenSnoc([], [7]);
    assert t.written == [] + [[7]];
    assert BytesOf([]) == [] && BytesOf([Data([7])]) == [7];
  }

  function OverlapSending(): State { OVERLAP.(reader := Sending({0}, false)) }

  lemma OverlapLocks()
    ensures Enabled(OVERLAP, LockForBroadcast) && Next(OVERLAP, LockForBroadcast) == OverlapSending()
  {
    assert OVERLAP_LIVE.subs.Keys == {0};
  }

  lemma OverlapOffers()
    ensures Enabled(OverlapSending(), Offer(0))
    ensures var t := Next(OverlapSending(), Offer(0));
      && t.written == [[7]] && |t.live.chans| == |t.hist| == 1 && t.hist[0].snap == Some(Snap([7], 1))
      && Messages(t, 0) == [Data([7])]
  {
  }
}
