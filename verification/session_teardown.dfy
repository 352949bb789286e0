/** Teardown: when the host-down hook fires, and why finalize gets to its end. */
module SessionTeardown {
  import opened Basics
  import opened LiveSession
  import opened SessionProtocol
  import opened SessionInvariant

  // ----- The intentional flag decides

  /** The flag value the pump has read, once it has read it. */
  function FlagRead(p: Pump): Option<bool> {
    if p.Waiting? || p.Woken? then None else Some(p.intentional)
  }

  predicate HookInstalled(trace: seq<Action>) {
    forall a :: a in trace && a.Hook? ==> a.installed
  }

  lemma FlagStep(s: State, a: Action)
    requires Inv(s) && Enabled(s, a) && FlagRead(s.pump).Some?
    ensures FlagRead(Next(s, a).pump) == FlagRead(s.pump)
    ensures (a.Hook? ==> a.installed) && (s.pump.Finished? ==> s.hooks == if s.pump.intentional then 0 else 1) ==>
      (Next(s, a).pump.Finished? ==> Next(s, a).hooks == if s.pump.intentional then 0 else 1)
  {
  }

  lemma {:induction false} FlagIsFinal(s: State, trace: seq<Action>, t: State)
    requires Inv(s) && Runs(s, trace, t) && FlagRead(s.pump).Some? && HookInstalled(trace)
    requires s.pump.Finished? ==> s.hooks == if s.pump.intentional then 0 else 1
    ensures FlagRead(t.pump) == FlagRead(s.pump)
    ensures t.pump.Finished? ==> t.hooks == if s.pump.intentional then 0 else 1
    decreases |trace|
  {
    if trace == [] {
    } else {
      StepKeepsInv(s, trace[0]);
      FlagStep(s, trace[0]);
      assert HookInstalled(trace[1..]);
      FlagIsFinal(Next(s, trace[0]), trace[1..], t);
    }
  }

  /** With a hook installed, a finished session has fired it exactly once if it was not marked intentional
      at the moment its pump read the flag, and never otherwise; later marks change nothing. */
  lemma HookFiresIffUnmarkedAtRead(s: State, trace: seq<Action>, t: State)
    requires Inv(s) && Enabled(s, ReadIntentional) && Runs(Next(s, ReadIntentional), trace, t)
    requires HookInstalled(trace) && t.pump.Finished?
    ensures t.hooks <= 1
    ensures t.hooks == 1 <==> !s.live.intentional
  {
    StepKeepsInv(s, ReadIntentional);
    FlagIsFinal(Next(s, ReadIntentional), trace, t);
  }

  /** Marked before the read: no run from here fires the hook. */
  lemma {:induction false} MarkedInTimeNeverFires(s: State, trace: seq<Action>, t: State)
    requires Inv(s) && Runs(s, trace, t)
    requires if FlagRead(s.pump).Some? then FlagRead(s.pump).value else s.live.intentional
    ensures t.hooks == 0
    decreases |trace|
  {
    if trace == [] {
    } else {
      StepKeepsInv(s, trace[0]);
      MarkedInTimeNeverFires(Next(s, trace[0]), trace[1..], t);
    }
  }

  // ----- finalize completes when its subscribers drain

  predicate TeardownStep(a: Action) {
    a.Offer? || a.UnlockBroadcast? || a.Consume? || a.WakePump? || a.ReadIntentional? || a.EnterFinalize?
    || a.SendStopped? || a.CloseStopped? || a.ClosePty? || a.Forget? || a.Hook?
  }

  function Rank(p: Pump): nat {
    match p
    case Waiting => 7
    case Woken => 6
    case Flagged(_) => 5
    case Stopping(_, _) => 4
    case Closing(_, _, _) => 4
    case Forgetting(_) => 3
    case Hooking(_) => 2
    case Finished(_) => 1
  }

  function Work(p: Pump): nat {
    2 * |Todo(p)| + (if p.Closing? then 1 else 0)
  }

  function LockWork(r: Reader): nat {
    if r.Sending? then 1 + |r.pending| else 0
  }

  /** Closer to the end: the pump further on, or fewer channels to stop, or less of a broadcast to go. */
  ghost predicate Nearer(s: State, t: State) {
    (Rank(s.pump), Work(s.pump), LockWork(s.reader) decreases to Rank(t.pump), Work(t.pump), LockWork(t.reader))
  }

  lemma BroadcastStep(s: State) returns (a: Action)
    requires Inv(s) && s.reader.Sending?
    ensures Enabled(s, a) && (a.Offer? || a.UnlockBroadcast?) && Nearer(s, Next(s, a))
  {
    if s.reader.pending == {} {
      a := UnlockBroadcast;
    } else {
      var k :| k in s.reader.pending;
      a := Offer(k);
      assert |s.reader.pending - {k}| < |s.reader.pending|;
    }
  }

  lemma PumpStep(s: State) returns (a: Action)
    requires Inv(s) && MuFree(s) && !s.pump.Finished? && (s.pump.Stopping? ==> s.pump.todo == {})
    requires s.pump.Waiting? ==> s.done || s.reader.Exited?
    ensures Enabled(s, a) && TeardownStep(a) && Nearer(s, Next(s, a)) && !Next(s, a).pump.Waiting?
  {
    match s.pump
    case Waiting => a := WakePump;
    case Woken => a := ReadIntentional;
    case Flagged(_) => a := EnterFinalize;
    case Stopping(_, _) => a := ClosePty;
    case Closing(_, _, _) => a := CloseStopped;
    case Forgetting(_) => a := Forget;
    case Hooking(_) => a := Hook(true);
  }

  lemma StopFacts(s: State, ch: nat)
    requires Inv(s) && s.pump.Stopping? && ch in s.pump.todo && HasRoomAt(s, ch)
    ensures Enabled(s, SendStopped(ch)) && Nearer(s, Next(s, SendStopped(ch))) && !Next(s, SendStopped(ch)).pump.Waiting?
  {
    assert ch in Todo(s.pump);
    assert |s.pump.todo - {ch}| < |s.pump.todo|;
  }

  predicate HasRoomAt(s: State, ch: nat) {
    ch < |s.live.chans| && HasRoom(s.live, ch)
  }

  /** A full queue needs one receive before Stopped fits. */
  lemma DrainFacts(s: State, ch: nat)
    requires Inv(s) && s.pump.Stopping? && ch in s.pump.todo && !HasRoomAt(s, ch)
    ensures Enabled(s, Consume(ch)) && HasRoomAt(Next(s, Consume(ch)), ch)
    ensures Next(s, Consume(ch)).pump == s.pump && Next(s, Consume(ch)).reader == s.reader
  {
    assert ch in Todo(s.pump);
    assert ChannelAt(s, ch);
  }

  lemma StopSteps(s: State) returns (steps: seq<Action>, t: State)
    requires Inv(s) && s.pump.Stopping? && s.pump.todo != {}
    ensures Runs(s, steps, t) && Nearer(s, t) && !t.pump.Waiting?
    ensures forall a :: a in steps ==> a.Consume? || a.SendStopped?
  {
    var ch :| ch in s.pump.todo;
    if HasRoomAt(s, ch) {
      StopFacts(s, ch);
      steps, t := [SendStopped(ch)], Next(s, SendStopped(ch));
      assert steps[1..] == [];
    } else {
      DrainFacts(s, ch);
      StepKeepsInv(s, Consume(ch));
      var u := Next(s, Consume(ch));
      hide Inv, Next, Enabled;
      StopFacts(u, ch);
      steps, t := [Consume(ch), SendStopped(ch)], Next(u, SendStopped(ch));
      assert steps[1..] == [SendStopped(ch)] && [SendStopped(ch)][1..] == [];
      assert Runs(u, [SendStopped(ch)], t);
    }
  }

  lemma NextTeardownSteps(s: State) returns (steps: seq<Action>, t: State)
    requires Inv(s) && !s.pump.Finished? && (s.pump.Waiting? ==> s.done || s.reader.Exited?)
    ensures Runs(s, steps, t) && Nearer(s, t) && (t.pump.Waiting? ==> t.done || t.reader.Exited?)
    ensures forall a :: a in steps ==> TeardownStep(a)
  {
    if MuFree(s) && s.pump.Stopping? && s.pump.todo != {} {
      steps, t := StopSteps(s);
    } else {
      var a;
      if MuFree(s) {
        a := PumpStep(s);
      } else {
        a := BroadcastStep(s);
      }
      steps, t := [a], Next(s, a);
      assert steps[1..] == [];
    }
  }

  /** From every reachable state of a session whose PTY is done (or whose reader is), finalize can run to
      its end by steps of the pump, of a broadcast in progress, and of subscribers receiving. */
  lemma {:induction false} FinalizeCompletesWhenDrained(s: State) returns (trace: seq<Action>, t: State)
    requires Inv(s) && (s.pump.Waiting? ==> s.done || s.reader.Exited?)
    ensures Runs(s, trace, t) && t.pump.Finished? && t.removed
    ensures forall a :: a in trace ==> TeardownStep(a)
    ensures |t.hist| == |t.live.chans| && forall i :: 0 <= i < |t.live.chans| ==> t.live.chans[i].closed
    decreases Rank(s.pump), Work(s.pump), LockWork(s.reader)
  {
    if s.pump.Finished? {
      trace, t := [], s;
      forall i | 0 <= i < |t.live.chans|
        ensures t.live.chans[i].closed
      {
        assert ChannelAt(t, i);
      }
    } else {
      var steps, u := NextTeardownSteps(s);
      RunKeepsInv(s, steps, u);
      var rest;
      rest, t := FinalizeCompletesWhenDrained(u);
      RunsJoin(s, steps, u, rest, t);
      trace := steps + rest;
    }
  }

  // ----- Every schedule

  predicate PumpAction(a: Action) {
    a.WakePump? || a.ReadIntentional? || a.EnterFinalize? || a.SendStopped? || a.CloseStopped? || a.ClosePty?
    || a.Forget? || a.Hook?
  }

  function PumpSteps(trace: seq<Action>): nat {
    if trace == [] then 0 else (if PumpAction(trace[0]) then 1 else 0) + PumpSteps(trace[1..])
  }

  /** Steps the pump may still take, if nobody else subscribes. */
  function PumpLeft(s: State): nat {
    match s.pump
    case Waiting => 6 + 2 * |s.live.chans|
    case Woken => 5 + 2 * |s.live.chans|
    case Flagged(_) => 4 + 2 * |s.live.chans|
    case Stopping(todo, _) => 3 + 2 * |todo|
    case Closing(_, todo, _) => 4 + 2 * |todo|
    case Forgetting(_) => 2
    case Hooking(_) => 1
    case Finished(_) => 0
  }

  lemma {:induction false} SmallNumbers(s: set<nat>, n: nat)
    requires forall i :: i in s ==> i < n
    ensures |s| <= n
    decreases n
  {
    if n == 0 {
      assert s == {};
    } else {
      SmallNumbers(s - {n - 1}, n - 1);
      assert |s| <= |s - {n - 1}| + 1;
    }
  }

  lemma DetachLeft(s: State)
    requires Inv(s) && Enabled(s, EnterFinalize)
    ensures PumpLeft(Next(s, EnterFinalize)) < PumpLeft(s) && |Next(s, EnterFinalize).live.chans| == |s.live.chans|
  {
    SmallNumbers(s.live.subs.Values, |s.live.chans|);
  }

  lemma StopLeft(s: State, a: Action)
    requires Inv(s) && Enabled(s, a) && (a.SendStopped? || a.CloseStopped?)
    ensures PumpLeft(Next(s, a)) < PumpLeft(s) && |Next(s, a).live.chans| == |s.live.chans|
  {
    hide Inv;
    if a.SendStopped? {
      assert |s.pump.todo - {a.ch}| == |s.pump.todo| - 1;
    }
  }

  lemma OtherPumpLeft(s: State, a: Action)
    requires Enabled(s, a) && PumpOnly(a)
    ensures PumpLeft(Next(s, a)) < PumpLeft(s) && |Next(s, a).live.chans| == |s.live.chans|
  {
  }

  lemma PumpLeftAtPump(s: State, a: Action)
    requires Inv(s) && Enabled(s, a) && PumpAction(a)
    ensures PumpLeft(Next(s, a)) < PumpLeft(s) && |Next(s, a).live.chans| == |s.live.chans|
  {
    hide PumpLeft, Inv;
    match a
    case EnterFinalize => DetachLeft(s);
    case SendStopped(_) => StopLeft(s, a);
    case CloseStopped => StopLeft(s, a);
    case _ => OtherPumpLeft(s, a);
  }

  lemma PumpLeftElsewhere(s: State, a: Action)
    requires Enabled(s, a) && !PumpAction(a)
    ensures Next(s, a).pump == s.pump && |Next(s, a).live.chans| >= |s.live.chans|
  {
  }

  lemma PumpUsesUpSteps(s: State, a: Action)
    requires Inv(s) && Enabled(s, a)
    ensures PumpAction(a) ==> PumpLeft(Next(s, a)) < PumpLeft(s)
    ensures |Next(s, a).live.chans| >= |s.live.chans|
    ensures !PumpAction(a) ==> PumpLeft(Next(s, a)) <= PumpLeft(s) + 2 * (|Next(s, a).live.chans| - |s.live.chans|)
  {
    hide Inv, Next, Enabled, PumpAction;
    if PumpAction(a) {
      PumpLeftAtPump(s, a);
    } else {
      PumpLeftElsewhere(s, a);
    }
  }

  lemma {:induction false} PumpStepsAreBounded(s: State, trace: seq<Action>, t: State)
    requires Inv(s) && Runs(s, trace, t)
    ensures |t.live.chans| >= |s.live.chans|
    ensures PumpSteps(trace) + PumpLeft(t) <= PumpLeft(s) + 2 * (|t.live.chans| - |s.live.chans|)
    decreases |trace|
  {
    if trace == [] {
    } else {
      hide Inv, PumpLeft, PumpAction;
      PumpUsesUpSteps(s, trace[0]);
      StepKeepsInv(s, trace[0]);
      PumpStepsAreBounded(Next(s, trace[0]), trace[1..], t);
    }
  }

  /** No schedule takes more than two steps of the pump for each subscription there ever was, and six. */
  lemma TeardownIsShort(cap: nat, trace: seq<Action>, t: State)
    requires Runs(Init(cap), trace, t)
    ensures PumpSteps(trace) <= 6 + 2 * |t.live.chans|
  {
    PumpStepsAreBounded(Init(cap), trace, t);
  }

  /** And it never gets stuck: once the PTY is done, and until the pump has finished, it can take a step, or a
      broadcast in progress can, or one receive makes room on the channel it is to send on. */
  lemma TeardownIsNeverStuck(s: State) returns (a: Action)
    requires Inv(s) && !s.pump.Finished? && (s.pump.Waiting? ==> s.done || s.reader.Exited?)
    ensures Enabled(s, a)
    ensures || PumpAction(a)
            || (s.reader.Sending? && (a.Offer? || a.UnlockBroadcast?) && LockWork(Next(s, a).reader) < LockWork(s.reader))
            || (a.Consume? && s.pump.Stopping? && a.ch in s.pump.todo && Enabled(Next(s, a), SendStopped(a.ch)))
  {
    if s.reader.Sending? {
      if s.reader.pending == {} {
        a := UnlockBroadcast;
      } else {
        var k :| k in s.reader.pending;
        a := Offer(k);
        assert |s.reader.pending - {k}| < |s.reader.pending|;
      }
    } else if s.pump.Stopping? && s.pump.todo != {} {
      var ch :| ch in s.pump.todo;
      if HasRoomAt(s, ch) {
        StopFacts(s, ch);
        a := SendStopped(ch);
      } else {
        DrainFacts(s, ch);
        StepKeepsInv(s, Consume(ch));
        hide Inv, Next;
        StopFacts(Next(s, Consume(ch)), ch);
        a := Consume(ch);
      }
    } else {
      a := PumpStep(s);
    }
  }
}
