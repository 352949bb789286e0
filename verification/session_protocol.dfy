/** internal/session/manager.go as a transition system: one session, its reader goroutine, its pump,
    and any number of subscribers, cancels, snapshots and teardown requests. Each step is one critical
    section, one channel operation, or one PTY operation; every interleaving of them is a run. */
module SessionProtocol {
  import opened Basics
  import opened LiveSession

  /** pump's inner goroutine: Read, sb.write, then broadcast, which holds ls.mu while it visits the
      subscribers; an error closes readErr and ends it. */
  datatype Reader =
    | Reading
    | Got(data: Chunk, err: bool)
    | Wrote(err: bool)
    | Sending(pending: set<nat>, err: bool)
    | Failed
    | Exited

  /** pump and finalize. `todo` are the detached channels finalize has not reached yet. */
  datatype Pump =
    | Waiting
    | Woken
    | Flagged(intentional: bool)
    | Stopping(todo: set<nat>, intentional: bool)
    | Closing(ch: nat, todo: set<nat>, intentional: bool)
    | Forgetting(intentional: bool)
    | Hooking(intentional: bool)
    | Finished(intentional: bool)

  datatype Snap = Snap(bytes: seq<byte>, at: nat)

  /** How a channel's life has gone; `upto` counts the chunks broadcast before it was detached. */
  datatype Phase =
    | Registered(sub: nat)
    | Detached(upto: nat)
    | StopSent(upto: nat)
    | Finalized(upto: nat)
    | Cancelled(upto: nat)
    | Late

  /** History of one channel. It is written by the steps and never read by them. */
  datatype History = History(start: nat, phase: Phase, missed: set<nat>, got: seq<Event>, snap: Option<Snap>)

  datatype State = State(
    live: Live,
    cap: nat,
    sb: seq<byte>,
    reader: Reader,
    pump: Pump,
    done: bool,            // the PTY's Done latch
    removed: bool,         // no longer in the manager's maps
    hooks: nat,            // host-down callbacks fired for this session
    // history
    written: seq<Chunk>,   // chunks written to scrollback
    sent: nat,             // chunks whose broadcast is complete
    hist: seq<History>)

  function Init(cap: nat): State {
    State(NEW_LIVE, cap, [], Reading, Waiting, false, false, 0, [], 0, [])
  }

  datatype Action =
    | ReadPty(data: Chunk, err: bool)
    | WriteScrollback
    | LockForBroadcast
    | Offer(sub: nat)
    | UnlockBroadcast
    | CloseReadErr
    | DropPty
    | WakePump
    | ReadIntentional
    | EnterFinalize
    | SendStopped(ch: nat)
    | CloseStopped
    | ClosePty
    | Forget
    | Hook(installed: bool)
    | SubscribeNow
    | SubscribeGone
    | CancelNow(sub: nat)
    | SnapshotFor(ch: nat)
    | Consume(ch: nat)
    | Mark

  /** ls.mu is held across steps only by the broadcast loop. */
  predicate MuFree(s: State) { !s.reader.Sending? }

  predicate Enabled(s: State, a: Action) {
    match a
    case ReadPty(_, _) => s.reader.Reading?
    case WriteScrollback => s.reader.Got?
    case LockForBroadcast => s.reader.Wrote?
    case Offer(sub) =>
      s.reader.Sending? && sub in s.reader.pending && sub in s.live.subs && s.live.subs[sub] < |s.live.chans|
      && |s.live.chans| == |s.hist| && s.sent < |s.written|
    case UnlockBroadcast => s.reader.Sending? && s.reader.pending == {}
    case CloseReadErr => s.reader.Failed?
    case DropPty => true
    case WakePump => s.pump.Waiting? && (s.done || s.reader.Exited?)
    case ReadIntentional => s.pump.Woken? && MuFree(s)
    case EnterFinalize => s.pump.Flagged? && MuFree(s)
    case SendStopped(ch) =>
      // A send on a full channel blocks; on a closed one it panics.
      s.pump.Stopping? && ch in s.pump.todo && ch < |s.live.chans| == |s.hist|
      && (s.live.chans[ch].closed || HasRoom(s.live, ch))
    case CloseStopped => s.pump.Closing? && s.pump.ch < |s.live.chans| == |s.hist|
    case ClosePty => s.pump.Stopping? && s.pump.todo == {}
    case Forget => s.pump.Forgetting?
    case Hook(_) => s.pump.Hooking?
    case SubscribeNow => MuFree(s)
    case SubscribeGone => s.removed
    case CancelNow(sub) =>
      MuFree(s) && sub < s.live.nextSub && |s.live.chans| == |s.hist|
      && (sub in s.live.subs ==> s.live.subs[sub] < |s.live.chans|)
    case SnapshotFor(ch) => ch < |s.hist| && s.hist[ch].snap.None?
    case Consume(ch) => ch < |s.live.chans| == |s.hist| && s.live.chans[ch].queue != []
    case Mark => MuFree(s)
  }

  function SetPhase(hist: seq<History>, ch: nat, p: Phase): seq<History>
    requires ch < |hist|
  {
    hist[ch := hist[ch].(phase := p)]
  }

  /** The chunk being broadcast. */
  function Current(s: State): Chunk
    requires s.sent < |s.written|
  {
    s.written[s.sent]
  }

  function NextOffer(s: State, sub: nat): State
    requires Enabled(s, Offer(sub))
  {
    var ch := s.live.subs[sub];
    var missed := if HasRoom(s.live, ch) then s.hist[ch].missed else s.hist[ch].missed + {s.sent};
    s.(live := TrySend(s.live, ch, Data(Current(s))),
       reader := s.reader.(pending := s.reader.pending - {sub}),
       hist := s.hist[ch := s.hist[ch].(missed := missed)])
  }

  function NextDetach(s: State): State
    requires Enabled(s, EnterFinalize)
  {
    if s.live.closed then s.(pump := Finished(s.pump.intentional))
    else
      s.(live := Detach(s.live),
         pump := Stopping(s.live.subs.Values, s.pump.intentional),
         hist := seq(|s.hist|, i requires 0 <= i < |s.hist| =>
           if i in s.live.subs.Values then s.hist[i].(phase := Detached(s.sent)) else s.hist[i]))
  }

  function NextSubscribe(s: State): State {
    s.(live := Subscribe(s.live),
       hist := s.hist + [History(s.sent, if s.live.closed then Late else Registered(s.live.nextSub), {}, [], None)])
  }

  function NextCancel(s: State, sub: nat): State
    requires Enabled(s, CancelNow(sub))
  {
    s.(live := Cancel(s.live, sub),
       hist := if sub in s.live.subs then SetPhase(s.hist, s.live.subs[sub], Cancelled(s.sent)) else s.hist)
  }

  function NextConsume(s: State, ch: nat): State
    requires Enabled(s, Consume(ch))
  {
    s.(live := Receive(s.live, ch),
       hist := s.hist[ch := s.hist[ch].(got := s.hist[ch].got + [s.live.chans[ch].queue[0]])])
  }

  function Next(s: State, a: Action): State
    requires Enabled(s, a)
  {
    match a
    case ReadPty(data, err) =>
      s.(reader := if data != [] then Got(data, err) else if err then Failed else Reading)
    case WriteScrollback =>
      s.(sb := Last(s.sb + s.reader.data, s.cap), written := s.written + [s.reader.data], reader := Wrote(s.reader.err))
    case LockForBroadcast => s.(reader := Sending(s.live.subs.Keys, s.reader.err))
    case Offer(sub) => NextOffer(s, sub)
    case UnlockBroadcast => s.(reader := if s.reader.err then Failed else Reading, sent := s.sent + 1)
    case CloseReadErr => s.(reader := Exited)
    case DropPty => s.(done := true)
    case WakePump => s.(pump := Woken)
    case ReadIntentional => s.(pump := Flagged(s.live.intentional))
    case EnterFinalize => NextDetach(s)
    case SendStopped(ch) =>
      s.(live := Push(s.live, ch, Stopped), pump := Closing(ch, s.pump.todo - {ch}, s.pump.intentional),
         hist := SetPhase(s.hist, ch, StopSent(PhaseUpto(s.hist[ch].phase))))
    case CloseStopped =>
      s.(live := CloseChannel(s.live, s.pump.ch), pump := Stopping(s.pump.todo, s.pump.intentional),
         hist := SetPhase(s.hist, s.pump.ch, Finalized(PhaseUpto(s.hist[s.pump.ch].phase))))
    case ClosePty => s.(done := true, pump := Forgetting(s.pump.intentional))
    case Forget => s.(removed := true, pump := Hooking(s.pump.intentional))
    case Hook(installed) =>
      s.(hooks := s.hooks + (if installed && !s.pump.intentional then 1 else 0), pump := Finished(s.pump.intentional))
    case SubscribeNow => NextSubscribe(s)
    case SubscribeGone =>
      s.(live := AddEnded(s.live), hist := s.hist + [History(s.sent, Late, {}, [], None)])
    case CancelNow(sub) => NextCancel(s, sub)
    case SnapshotFor(ch) =>
      s.(hist := s.hist[ch := s.hist[ch].(snap := Some(Snap(s.sb, |s.written|)))])
    case Consume(ch) => NextConsume(s, ch)
    case Mark => s.(live := s.live.(intentional := true))
  }

  function PhaseUpto(p: Phase): nat {
    match p
    case Registered(_) => 0
    case Late => 0
    case _ => p.upto
  }

  /** The trace takes s to t, every step enabled when it is taken. */
  ghost predicate Runs(s: State, trace: seq<Action>, t: State)
    decreases |trace|
  {
    if trace == [] then s == t
    else Enabled(s, trace[0]) && Runs(Next(s, trace[0]), trace[1..], t)
  }

  lemma {:induction false} RunsJoin(s: State, p: seq<Action>, t: State, q: seq<Action>, u: State)
    requires Runs(s, p, t) && Runs(t, q, u)
    ensures Runs(s, p + q, u)
    decreases |p|
  {
    if p == [] {
      assert p + q == q;
    } else {
      RunsJoin(Next(s, p[0]), p[1..], t, q, u);
      assert (p + q)[1..] == p[1..] + q;
    }
  }

  lemma RunsThen(s: State, p: seq<Action>, t: State, a: Action)
    requires Runs(s, p, t) && Enabled(t, a)
    ensures Runs(s, p + [a], Next(t, a))
  {
    assert [a][1..] == [];
    RunsJoin(s, p, t, [a], Next(t, a));
  }

  // ----- What a subscriber should have been given

  /** The data events for chunks a .. b, leaving out the missed ones. */
  function Kept(chunks: seq<Chunk>, a: nat, b: nat, missed: set<nat>): seq<Event>
    requires b <= |chunks|
    decreases b
  {
    if b <= a then []
    else Kept(chunks, a, b - 1, missed) + (if b - 1 in missed then [] else [Data(chunks[b - 1])])
  }

  lemma {:induction false} KeptOfPrefix(chunks: seq<Chunk>, more: seq<Chunk>, a: nat, b: nat, missed: set<nat>)
    requires b <= |chunks|
    ensures Kept(chunks + more, a, b, missed) == Kept(chunks, a, b, missed)
    decreases b
  {
    if b <= a {
    } else {
      KeptOfPrefix(chunks, more, a, b - 1, missed);
    }
  }

  lemma {:induction false} KeptIgnoresLaterMisses(chunks: seq<Chunk>, a: nat, b: nat, missed: set<nat>, i: nat)
    requires b <= |chunks| && b <= i
    ensures Kept(chunks, a, b, missed + {i}) == Kept(chunks, a, b, missed)
    decreases b
  {
    if b <= a {
    } else {
      KeptIgnoresLaterMisses(chunks, a, b - 1, missed, i);
    }
  }

  // ----- The invariant

  /** How many chunks the current registration of `sub` has been offered. */
  function Offered(s: State, sub: nat): nat {
    s.sent + (if s.reader.Sending? && sub !in s.reader.pending then 1 else 0)
  }

  function UptoOf(s: State, p: Phase): nat {
    if p.Registered? then Offered(s, p.sub) else PhaseUpto(p)
  }

  function Received(c: Channel, h: History): seq<Event> { h.got + c.queue }

  ghost predicate SnapOk(h: History, written: seq<Chunk>, cap: nat) {
    h.snap.Some? ==>
      h.start <= h.snap.value.at <= |written|
      && h.snap.value.bytes == Last(Flatten(written[..h.snap.value.at]), cap)
  }

  ghost predicate ChannelOk(c: Channel, h: History, written: seq<Chunk>, upto: nat) {
    && (c.closed <==> h.phase.Finalized? || h.phase.Cancelled? || h.phase.Late?)
    && |c.queue| <= c.cap
    && h.start <= |written|
    && (h.phase.Late? ==> c.cap == 1 && h.missed == {} && Received(c, h) == [Stopped])
    && (!h.phase.Late? ==>
         && c.cap == SUB_BUFFER
         && h.start <= upto <= |written|
         && (forall i :: i in h.missed ==> h.start <= i < upto)
         && Received(c, h) == Kept(written, h.start, upto, h.missed)
              + (if h.phase.StopSent? || h.phase.Finalized? then [Stopped] else []))
  }

  ghost predicate CountsOk(s: State) {
    && |s.written| == s.sent + (if s.reader.Wrote? || s.reader.Sending? then 1 else 0)
    && (s.reader.Sending? ==> s.reader.pending <= s.live.subs.Keys)
    && s.sb == Last(Flatten(s.written), s.cap)
    && (s.reader.Got? ==> s.reader.data != [])
    && (forall i :: 0 <= i < |s.written| ==> s.written[i] != [])
  }

  ghost predicate SubsOk(s: State) {
    && |s.hist| == |s.live.chans|
    && (forall k :: k in s.live.subs ==>
         k < s.live.nextSub && s.live.subs[k] < |s.hist| && s.hist[s.live.subs[k]].phase == Registered(k))
    && (forall i :: 0 <= i < |s.hist| && s.hist[i].phase.Registered? ==>
         s.hist[i].phase.sub in s.live.subs && s.live.subs[s.hist[i].phase.sub] == i)
  }

  /** The channels finalize has yet to send Stopped on, and the one it has yet to close. */
  function Todo(p: Pump): set<nat> { if p.Stopping? || p.Closing? then p.todo else {} }

  predicate BeforeDetach(p: Pump) { p.Waiting? || p.Woken? || p.Flagged? }

  ghost predicate PumpOk(s: State) {
    && (s.live.closed <==> !BeforeDetach(s.pump))
    && (s.live.closed ==> s.live.subs == map[])
    && (s.removed <==> s.pump.Hooking? || s.pump.Finished?)
    && (s.pump.Forgetting? || s.removed ==> s.done)
    && s.hooks <= 1
    && (s.hooks == 1 ==> s.pump == Finished(false))
    && (forall i :: i in Todo(s.pump) ==> i < |s.hist|)
    && (s.pump.Closing? ==> s.pump.ch < |s.hist|)
    && (forall i :: 0 <= i < |s.hist| && (s.hist[i].phase.Late? || s.hist[i].phase.Finalized?) ==> s.live.closed)
    && (forall i :: 0 <= i < |s.hist| ==> (s.hist[i].phase.Detached? <==> i in Todo(s.pump)))
    && (forall i :: 0 <= i < |s.hist| ==> (s.hist[i].phase.StopSent? <==> s.pump.Closing? && s.pump.ch == i))
  }

  /** Channel i has been given exactly what it should have been. */
  ghost predicate ChannelAt(s: State, i: nat)
    requires i < |s.hist| == |s.live.chans|
  {
    && ChannelOk(s.live.chans[i], s.hist[i], s.written, UptoOf(s, s.hist[i].phase))
    && SnapOk(s.hist[i], s.written, s.cap)
  }

  /** Which goroutine holds what: everything but the contents of the channels. */
  ghost predicate Shape(s: State) {
    !s.live.panicked && CountsOk(s) && SubsOk(s) && PumpOk(s)
  }

  ghost predicate Inv(s: State) {
    Shape(s) && forall i :: 0 <= i < |s.hist| ==> ChannelAt(s, i)
  }
}
