/** What every step of the session protocol keeps. */
module SessionInvariant {
  import opened Basics
  import opened LiveSession
  import opened SessionProtocol
  import Scrollback

  // ----- The contents of one channel across a step

  lemma ChannelUntouched(s: State, t: State, i: nat)
    requires i < |s.hist| == |s.live.chans| && i < |t.hist| == |t.live.chans|
    requires ChannelAt(s, i)
    requires t.live.chans[i] == s.live.chans[i] && t.hist[i] == s.hist[i] && t.written == s.written && t.cap == s.cap
    requires UptoOf(t, t.hist[i].phase) == UptoOf(s, s.hist[i].phase)
    ensures ChannelAt(t, i)
  {
  }

  lemma ChannelAtWrite(s: State, i: nat)
    requires Shape(s) && Enabled(s, WriteScrollback) && i < |s.hist| && ChannelAt(s, i)
    ensures ChannelAt(Next(s, WriteScrollback), i)
  {
    var h, data := s.hist[i], s.reader.data;
    if !h.phase.Late? {
      KeptOfPrefix(s.written, [data], h.start, UptoOf(s, h.phase), h.missed);
    }
    if h.snap.Some? {
      assert (s.written + [data])[..h.snap.value.at] == s.written[..h.snap.value.at];
    }
  }

  /** A channel offered chunk `at` gains it, or records the miss when its queue is full. */
  lemma OfferedChannelOk(c: Channel, h: History, written: seq<Chunk>, at: nat)
    requires ChannelOk(c, h, written, at) && h.phase.Registered? && at < |written|
    ensures |c.queue| < c.cap ==> ChannelOk(c.(queue := c.queue + [Data(written[at])]), h, written, at + 1)
    ensures |c.queue| == c.cap ==> ChannelOk(c, h.(missed := h.missed + {at}), written, at + 1)
  {
    KeptIgnoresLaterMisses(written, h.start, at, h.missed, at);
    assert at !in h.missed;
    assert h.got + (c.queue + [Data(written[at])]) == h.got + c.queue + [Data(written[at])];
  }

  lemma ChannelAtOffer(s: State, sub: nat)
    requires Shape(s) && Enabled(s, Offer(sub)) && ChannelAt(s, s.live.subs[sub])
    ensures ChannelAt(Next(s, Offer(sub)), s.live.subs[sub])
  {
    var i := s.live.subs[sub];
    OfferedChannelOk(s.live.chans[i], s.hist[i], s.written, s.sent);
    hide Kept;
  }

  lemma ConsumedChannelOk(c: Channel, h: History, written: seq<Chunk>, upto: nat)
    requires ChannelOk(c, h, written, upto) && c.queue != []
    ensures ChannelOk(c.(queue := c.queue[1..]), h.(got := h.got + [c.queue[0]]), written, upto)
  {
    assert h.got + [c.queue[0]] + c.queue[1..] == h.got + c.queue;
  }

  lemma ChannelAtConsume(s: State, i: nat)
    requires Shape(s) && Enabled(s, Consume(i)) && ChannelAt(s, i)
    ensures ChannelAt(Next(s, Consume(i)), i)
  {
    ConsumedChannelOk(s.live.chans[i], s.hist[i], s.written, UptoOf(s, s.hist[i].phase));
  }

  lemma ChannelAtCancel(s: State, sub: nat)
    requires Shape(s) && Enabled(s, CancelNow(sub)) && sub in s.live.subs && ChannelAt(s, s.live.subs[sub])
    ensures ChannelAt(Next(s, CancelNow(sub)), s.live.subs[sub])
  {
    var t, i := Next(s, CancelNow(sub)), s.live.subs[sub];
    assert Received(t.live.chans[i], t.hist[i]) == Received(s.live.chans[i], s.hist[i]);
  }

  lemma ChannelAtSendStopped(s: State, i: nat)
    requires Shape(s) && Enabled(s, SendStopped(i)) && ChannelAt(s, i)
    ensures ChannelAt(Next(s, SendStopped(i)), i)
  {
    var t := Next(s, SendStopped(i));
    assert Received(t.live.chans[i], t.hist[i]) == Received(s.live.chans[i], s.hist[i]) + [Stopped];
  }

  lemma ChannelAtCloseStopped(s: State)
    requires Shape(s) && Enabled(s, CloseStopped) && ChannelAt(s, s.pump.ch)
    ensures ChannelAt(Next(s, CloseStopped), s.pump.ch)
  {
    var t, i := Next(s, CloseStopped), s.pump.ch;
    assert Received(t.live.chans[i], t.hist[i]) == Received(s.live.chans[i], s.hist[i]);
  }

  lemma ChannelAtDetach(s: State, i: nat)
    requires Shape(s) && Enabled(s, EnterFinalize) && i < |s.hist| && ChannelAt(s, i)
    ensures ChannelAt(Next(s, EnterFinalize), i)
  {
    var t := Next(s, EnterFinalize);
    RegisteredMeansSubscribed(s, i);
    assert t.live.chans[i] == s.live.chans[i];
    assert Received(t.live.chans[i], t.hist[i]) == Received(s.live.chans[i], s.hist[i]);
  }

  lemma ChannelAtSnapshot(s: State, i: nat)
    requires Shape(s) && Enabled(s, SnapshotFor(i)) && ChannelAt(s, i)
    ensures ChannelAt(Next(s, SnapshotFor(i)), i)
  {
    var t := Next(s, SnapshotFor(i));
    assert s.written[..|s.written|] == s.written;
    assert Received(t.live.chans[i], t.hist[i]) == Received(s.live.chans[i], s.hist[i]);
  }

  /** A new subscriber starts with nothing owed to it, a late one with the Stopped event. */
  lemma ChannelAtNew(s: State, a: Action)
    requires Shape(s) && Enabled(s, a) && (a.SubscribeNow? || a.SubscribeGone?)
    ensures ChannelAt(Next(s, a), |s.hist|)
  {
    var t := Next(s, a);
    var c, h := t.live.chans[|s.hist|], t.hist[|s.hist|];
    assert Received(c, h) == c.queue;
  }

  // ----- Who holds what across a step

  lemma RegisteredMeansSubscribed(s: State, i: nat)
    requires SubsOk(s) && i < |s.hist|
    ensures s.hist[i].phase.Registered? <==> i in s.live.subs.Values
  {
    if i in s.live.subs.Values {
      var k :| k in s.live.subs && s.live.subs[k] == i;
    }
  }

  lemma ShapeAtWrite(s: State)
    requires Shape(s) && Enabled(s, WriteScrollback)
    ensures Shape(Next(s, WriteScrollback))
  {
    FlattenSnoc(s.written, s.reader.data);
    Scrollback.LastOfLast(Flatten(s.written), s.reader.data, s.cap);
  }

  lemma ShapeAtOffer(s: State, sub: nat)
    requires Inv(s) && Enabled(s, Offer(sub))
    ensures Shape(Next(s, Offer(sub)))
  {
    var t, ch := Next(s, Offer(sub)), s.live.subs[sub];
    assert ChannelAt(s, ch);
    assert forall i :: 0 <= i < |s.hist| ==> t.hist[i].phase == s.hist[i].phase;
  }

  lemma ShapeAtDetach(s: State)
    requires Shape(s) && Enabled(s, EnterFinalize)
    ensures Shape(Next(s, EnterFinalize))
  {
    forall i | 0 <= i < |s.hist|
      ensures s.hist[i].phase.Registered? <==> i in s.live.subs.Values
    {
      RegisteredMeansSubscribed(s, i);
    }
  }

  lemma ShapeAtSubscribe(s: State)
    requires Shape(s) && Enabled(s, SubscribeNow)
    ensures Shape(Next(s, SubscribeNow))
  {
    var t := Next(s, SubscribeNow);
    assert forall i :: 0 <= i < |s.hist| ==> t.hist[i] == s.hist[i];
  }

  lemma ShapeAtSubscribeGone(s: State)
    requires Shape(s) && Enabled(s, SubscribeGone)
    ensures Shape(Next(s, SubscribeGone))
  {
    var t := Next(s, SubscribeGone);
    assert forall i :: 0 <= i < |s.hist| ==> t.hist[i] == s.hist[i];
  }

  lemma ShapeAtCancel(s: State, sub: nat)
    requires Inv(s) && Enabled(s, CancelNow(sub))
    ensures Shape(Next(s, CancelNow(sub)))
  {
    if sub in s.live.subs {
      assert ChannelAt(s, s.live.subs[sub]);
    }
  }

  lemma ShapeAtStop(s: State, a: Action)
    requires Inv(s) && Enabled(s, a) && (a.SendStopped? || a.CloseStopped?)
    ensures Shape(Next(s, a))
  {
    assert ChannelAt(s, if a.SendStopped? then a.ch else s.pump.ch);
  }

  lemma ShapeAtReceiverSteps(s: State, a: Action)
    requires Shape(s) && Enabled(s, a) && (a.Consume? || a.SnapshotFor?)
    ensures Shape(Next(s, a))
  {
    var t := Next(s, a);
    assert forall i :: 0 <= i < |s.hist| ==> t.hist[i].phase == s.hist[i].phase;
  }

  predicate ReaderOnly(a: Action) {
    a.ReadPty? || a.LockForBroadcast? || a.UnlockBroadcast? || a.CloseReadErr?
  }

  predicate PumpOnly(a: Action) {
    a.WakePump? || a.ReadIntentional? || a.ClosePty? || a.Forget? || a.Hook?
  }

  lemma ShapeAtReaderSteps(s: State, a: Action)
    requires Shape(s) && Enabled(s, a) && ReaderOnly(a)
    ensures Shape(Next(s, a))
  {
  }

  lemma ShapeAtPumpSteps(s: State, a: Action)
    requires Shape(s) && Enabled(s, a) && PumpOnly(a)
    ensures Shape(Next(s, a))
  {
  }

  lemma ShapeAtOutsideSteps(s: State, a: Action)
    requires Shape(s) && Enabled(s, a) && (a.DropPty? || a.Mark?)
    ensures Shape(Next(s, a))
  {
  }

  // ----- The invariant

  lemma ShapeKept(s: State, a: Action)
    requires Inv(s) && Enabled(s, a)
    ensures Shape(Next(s, a))
  {
    match a
    case WriteScrollback => ShapeAtWrite(s);
    case Offer(sub) => ShapeAtOffer(s, sub);
    case EnterFinalize => ShapeAtDetach(s);
    case SendStopped(_) => ShapeAtStop(s, a);
    case CloseStopped => ShapeAtStop(s, a);
    case SubscribeNow => ShapeAtSubscribe(s);
    case SubscribeGone => ShapeAtSubscribeGone(s);
    case CancelNow(sub) => ShapeAtCancel(s, sub);
    case SnapshotFor(_) => ShapeAtReceiverSteps(s, a);
    case Consume(_) => ShapeAtReceiverSteps(s, a);
    case DropPty => ShapeAtOutsideSteps(s, a);
    case Mark => ShapeAtOutsideSteps(s, a);
    case _ =>
      if ReaderOnly(a) {
        ShapeAtReaderSteps(s, a);
      } else {
        ShapeAtPumpSteps(s, a);
      }
  }

  /** The channel a step acts on, when it acts on one that already exists. */
  function Target(s: State, a: Action): Option<nat> {
    match a
    case Offer(sub) => if sub in s.live.subs then Some(s.live.subs[sub]) else None
    case CancelNow(sub) => if sub in s.live.subs then Some(s.live.subs[sub]) else None
    case SendStopped(ch) => Some(ch)
    case CloseStopped => if s.pump.Closing? then Some(s.pump.ch) else None
    case SnapshotFor(ch) => Some(ch)
    case Consume(ch) => Some(ch)
    case _ => None
  }

  lemma ChannelKeptAtTarget(s: State, a: Action)
    requires Inv(s) && Enabled(s, a) && Target(s, a).Some? && Target(s, a).value < |s.hist|
    ensures ChannelAt(Next(s, a), Target(s, a).value)
  {
    assert ChannelAt(s, Target(s, a).value);
    match a
    case Offer(sub) => ChannelAtOffer(s, sub);
    case CancelNow(sub) => ChannelAtCancel(s, sub);
    case SendStopped(ch) => ChannelAtSendStopped(s, ch);
    case CloseStopped => ChannelAtCloseStopped(s);
    case SnapshotFor(ch) => ChannelAtSnapshot(s, ch);
    case Consume(ch) => ChannelAtConsume(s, ch);
  }

  /** Steps that reach no channel. */
  predicate Quiet(a: Action) {
    ReaderOnly(a) || PumpOnly(a) || a.DropPty? || a.Mark? || a.WriteScrollback?
  }

  lemma QuietStep(s: State, a: Action)
    requires Enabled(s, a) && Quiet(a)
    ensures Next(s, a).hist == s.hist && Next(s, a).live.(intentional := s.live.intentional) == s.live
  {
  }

  lemma LoudStep(s: State, a: Action, i: nat)
    requires Enabled(s, a) && !Quiet(a) && !a.EnterFinalize? && i < |s.hist| == |s.live.chans| && Target(s, a) != Some(i)
    ensures |Next(s, a).hist| == |Next(s, a).live.chans| > i
    ensures Next(s, a).hist[i] == s.hist[i] && Next(s, a).live.chans[i] == s.live.chans[i]
  {
    match a
    case Offer(_) =>
    case SendStopped(_) =>
    case CloseStopped =>
    case CancelNow(_) =>
    case SubscribeNow =>
    case SubscribeGone =>
    case _ =>
  }

  /** A step with another target, or none, leaves a channel and its record alone. */
  lemma Untouched(s: State, a: Action, i: nat)
    requires Enabled(s, a) && !a.EnterFinalize? && i < |s.hist| == |s.live.chans| && Target(s, a) != Some(i)
    ensures |Next(s, a).hist| == |Next(s, a).live.chans| > i
    ensures Next(s, a).hist[i] == s.hist[i] && Next(s, a).live.chans[i] == s.live.chans[i]
  {
    hide Next, Enabled, Target;
    if Quiet(a) {
      QuietStep(s, a);
    } else {
      LoudStep(s, a, i);
    }
  }

  /** What the subscriber of an untouched channel has been offered stays the same. */
  lemma UptoKept(s: State, a: Action, i: nat)
    requires CountsOk(s) && SubsOk(s) && Enabled(s, a) && !a.EnterFinalize? && i < |s.hist| && Target(s, a) != Some(i)
    ensures UptoOf(Next(s, a), s.hist[i].phase) == UptoOf(s, s.hist[i].phase)
  {
    match a
    case Offer(_) =>
    case LockForBroadcast =>
    case UnlockBroadcast =>
    case ReadPty(_, _) =>
    case WriteScrollback =>
    case CloseReadErr =>
    case _ => SameOffers(s, a);
  }

  lemma SameOffers(s: State, a: Action)
    requires Enabled(s, a) && !ReaderOnly(a) && !a.WriteScrollback? && !a.Offer?
    ensures Next(s, a).reader == s.reader && Next(s, a).sent == s.sent
  {
  }

  lemma WrittenKept(s: State, a: Action)
    requires Enabled(s, a) && !a.WriteScrollback?
    ensures Next(s, a).written == s.written && Next(s, a).cap == s.cap
  {
  }

  lemma ChannelKeptElsewhere(s: State, a: Action, i: nat)
    requires Shape(s) && Enabled(s, a) && i < |s.hist| && ChannelAt(s, i) && Target(s, a) != Some(i)
    requires !a.WriteScrollback? && !a.EnterFinalize?
    ensures |Next(s, a).hist| == |Next(s, a).live.chans| > i && ChannelAt(Next(s, a), i)
  {
    hide Next, Enabled, Target, PumpOk, CountsOk, ChannelAt, UptoOf;
    Untouched(s, a, i);
    UptoKept(s, a, i);
    WrittenKept(s, a);
    ChannelUntouched(s, Next(s, a), i);
  }

  /** Every step keeps the invariant. */
  lemma StepKeepsInv(s: State, a: Action)
    requires Inv(s) && Enabled(s, a)
    ensures Inv(Next(s, a))
  {
    var t := Next(s, a);
    ShapeKept(s, a);
    forall i | 0 <= i < |t.hist|
      ensures ChannelAt(t, i)
    {
      if i == |s.hist| {
        ChannelAtNew(s, a);
      } else if a.WriteScrollback? {
        ChannelAtWrite(s, i);
      } else if a.EnterFinalize? {
        ChannelAtDetach(s, i);
      } else if Target(s, a) == Some(i) {
        ChannelKeptAtTarget(s, a);
      } else {
        ChannelKeptElsewhere(s, a, i);
      }
    }
  }

  lemma {:induction false} RunKeepsInv(s: State, trace: seq<Action>, t: State)
    requires Inv(s) && Runs(s, trace, t)
    ensures Inv(t)
    decreases |trace|
  {
    if trace == [] {
    } else {
      StepKeepsInv(s, trace[0]);
      RunKeepsInv(Next(s, trace[0]), trace[1..], t);
    }
  }

  lemma EveryRunKeepsInv(cap: nat, trace: seq<Action>, t: State)
    requires Runs(Init(cap), trace, t)
    ensures Inv(t)
  {
    RunKeepsInv(Init(cap), trace, t);
  }
}
