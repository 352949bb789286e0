/** internal/tui/tui.go and render.go: the coalescing redraw token between the pumps and the main loop. */
module Redraw {

  /** The main loop: waiting in select, handling a key or a resize, about to look at the mode, about to
      read the pane, or painting an overlay instead. */
  datatype Loop = InSelect | HandlingEvent | ChoosingFrame | PaintingPane | PaintingOverlay | Detached

  /** A stream pump: at rest, or between a change it made and its signalRedraw. */
  datatype Pump = AtRest | Unsignalled

  datatype State = State(
    version: nat,          // bumped by every feed, reset and change of view
    painted: nat,          // the version the last pane frame showed
    token: bool,           // the one-place redraw channel
    overlayUp: bool,       // mode == modeOverlay
    loop: Loop,
    pumps: map<nat, Pump>)

  /** Handle renders once before its first select; autoAttach may have started a pump by then. */
  function Init(version: nat, token: bool, pumps: map<nat, Pump>): State {
    State(version, 0, token, false, ChoosingFrame, pumps)
  }

  datatype Action =
    | TakeKey
    | TakeResize
    | TakeToken
    | LoopFeeds                 // switchView run from a click or an overlay entry
    | LoopSignals
    | LoopSetsOverlay(up: bool)
    | LoopStartsPump(p: nat)
    | EventDone
    | LoopQuits
    | LookAtMode
    | PaintPane
    | OverlayPainted
    | PumpFeeds(p: nat)         // feed, reset, or a new view
    | PumpLeavesOverlay(p: nat) // switchView from onViewStopped sets modeStream
    | PumpStartsPump(p: nat, q: nat)
    | PumpSignals(p: nat)
    | PumpEnds(p: nat)

  predicate Enabled(s: State, a: Action) {
    match a
    case TakeKey => s.loop.InSelect?
    case TakeResize => s.loop.InSelect?
    case TakeToken => s.loop.InSelect? && s.token
    case LoopFeeds => s.loop.HandlingEvent?
    case LoopSignals => s.loop.HandlingEvent?
    case LoopSetsOverlay(_) => s.loop.HandlingEvent?
    case LoopStartsPump(p) => s.loop.HandlingEvent? && p !in s.pumps
    case EventDone => s.loop.HandlingEvent?
    case LoopQuits => s.loop.HandlingEvent?
    case LookAtMode => s.loop.ChoosingFrame?
    case PaintPane => s.loop.PaintingPane?
    case OverlayPainted => s.loop.PaintingOverlay?
    case PumpFeeds(p) => p in s.pumps
    case PumpLeavesOverlay(p) => p in s.pumps
    case PumpStartsPump(p, q) => p in s.pumps && s.pumps[p].Unsignalled? && q !in s.pumps
    case PumpSignals(p) => p in s.pumps && s.pumps[p].Unsignalled?
    case PumpEnds(p) => p in s.pumps && s.pumps[p].AtRest?
  }

  function Next(s: State, a: Action): State
    requires Enabled(s, a)
  {
    match a
    case TakeKey => s.(loop := HandlingEvent)
    case TakeResize => s.(loop := HandlingEvent)
    case TakeToken => s.(token := false, loop := ChoosingFrame)
    case LoopFeeds => s.(version := s.version + 1)
    case LoopSignals => s.(token := true)
    case LoopSetsOverlay(up) => s.(overlayUp := up)
    case LoopStartsPump(p) => s.(pumps := s.pumps[p := AtRest])
    case EventDone => s.(loop := ChoosingFrame)
    case LoopQuits => s.(loop := Detached)
    case LookAtMode => s.(loop := if s.overlayUp then PaintingOverlay else PaintingPane)
    case PaintPane => s.(painted := s.version, loop := InSelect)
    case OverlayPainted => s.(loop := InSelect)
    case PumpFeeds(p) => s.(version := s.version + 1, pumps := s.pumps[p := Unsignalled])
    case PumpLeavesOverlay(p) => s.(overlayUp := false, pumps := s.pumps[p := Unsignalled])
    case PumpStartsPump(_, q) => s.(pumps := s.pumps[q := AtRest])
    case PumpSignals(p) => s.(token := true, pumps := s.pumps[p := AtRest])
    case PumpEnds(p) => s.(pumps := s.pumps - {p})
  }

  ghost predicate Runs(s: State, trace: seq<Action>, t: State)
    decreases |trace|
  {
    if trace == [] then s == t
    else Enabled(s, trace[0]) && Runs(Next(s, trace[0]), trace[1..], t)
  }

  ghost predicate SomeoneWillSignal(s: State) {
    exists p :: p in s.pumps && s.pumps[p].Unsignalled?
  }

  /** Output newer than the last frame is on its way to the screen, or an overlay has the screen. */
  ghost predicate NothingLost(s: State) {
    s.version != s.painted && !s.overlayUp && !s.loop.Detached? ==>
      s.token || SomeoneWillSignal(s) || s.loop.HandlingEvent? || s.loop.ChoosingFrame? || s.loop.PaintingPane?
  }

  lemma StepLosesNothing(s: State, a: Action)
    requires NothingLost(s) && Enabled(s, a)
    ensures NothingLost(Next(s, a))
  {
    var t := Next(s, a);
    if a.PumpFeeds? || a.PumpLeavesOverlay? {
      assert t.pumps[a.p].Unsignalled?;
    } else if SomeoneWillSignal(s) {
      var p :| p in s.pumps && s.pumps[p].Unsignalled?;
      if !(a.PumpSignals? && a.p == p) {
        assert p in t.pumps && t.pumps[p].Unsignalled?;
      }
    }
  }

  lemma {:induction false} RunsLoseNothing(s: State, trace: seq<Action>, t: State)
    requires NothingLost(s) && Runs(s, trace, t)
    ensures NothingLost(t)
    decreases |trace|
  {
    if trace == [] {
    } else {
      StepLosesNothing(s, trace[0]);
      RunsLoseNothing(Next(s, trace[0]), trace[1..], t);
    }
  }

  /** In every interleaving: once the pumps are at rest, the loop is back in select, no token is pending and
      no overlay is up, the screen shows the pane as it is. */
  lemma NoRepaintIsLost(version: nat, token: bool, pumps: map<nat, Pump>, trace: seq<Action>, t: State)
    requires Runs(Init(version, token, pumps), trace, t)
    requires t.loop.InSelect? && !t.token && !t.overlayUp
    requires forall p :: p in t.pumps ==> t.pumps[p].AtRest?
    ensures t.painted == t.version
  {
    RunsLoseNothing(Init(version, token, pumps), trace, t);
  }

  /** From any reachable state, unless the interface has detached or an overlay is up, a few steps of the
      loop and of pumps that were about to signal put the current pane on the screen. */
  lemma RepaintIsWithinReach(s: State) returns (trace: seq<Action>, t: State)
    requires NothingLost(s) && !s.overlayUp && !s.loop.Detached?
    ensures Runs(s, trace, t) && t.painted == t.version == s.version && |trace| <= 5
    ensures forall a :: a in trace ==>
      a.TakeToken? || a.EventDone? || a.LookAtMode? || a.PaintPane? || a.OverlayPainted? || a.PumpSignals?
  {
    match s.loop
    case PaintingPane =>
      trace, t := [PaintPane], Next(s, PaintPane);
      assert trace[1..] == [];
    case ChoosingFrame => trace, t := FromChoosing(s);
    case HandlingEvent =>
      var rest;
      rest, t := FromChoosing(Next(s, EventDone));
      trace := [EventDone] + rest;
      assert trace[1..] == rest;
    case InSelect => trace, t := FromSelect(s);
    case PaintingOverlay =>
      var rest;
      rest, t := FromSelect(Next(s, OverlayPainted));
      trace := [OverlayPainted] + rest;
      assert trace[1..] == rest;
  }

  lemma FromChoosing(s: State) returns (trace: seq<Action>, t: State)
    requires s.loop.ChoosingFrame? && !s.overlayUp
    ensures Runs(s, trace, t) && t.painted == t.version == s.version && trace == [LookAtMode, PaintPane]
  {
    var u := Next(s, LookAtMode);
    trace, t := [LookAtMode, PaintPane], Next(u, PaintPane);
    assert trace[1..] == [PaintPane] && [PaintPane][1..] == [];
    assert Runs(u, [PaintPane], t);
  }

  lemma FromToken(s: State) returns (trace: seq<Action>, t: State)
    requires s.loop.InSelect? && s.token && !s.overlayUp
    ensures Runs(s, trace, t) && t.painted == t.version == s.version && trace == [TakeToken, LookAtMode, PaintPane]
  {
    var rest;
    rest, t := FromChoosing(Next(s, TakeToken));
    trace := [TakeToken] + rest;
    assert trace[1..] == rest;
  }

  lemma FromSelect(s: State) returns (trace: seq<Action>, t: State)
    requires NothingLost(s) && s.loop.InSelect? && !s.overlayUp
    ensures Runs(s, trace, t) && t.painted == t.version == s.version && |trace| <= 4
    ensures forall a :: a in trace ==> a.TakeToken? || a.LookAtMode? || a.PaintPane? || a.PumpSignals?
  {
    if s.token {
      trace, t := FromToken(s);
    } else if s.version == s.painted {
      trace, t := [], s;
    } else {
      var p :| p in s.pumps && s.pumps[p].Unsignalled?;
      var rest;
      rest, t := FromToken(Next(s, PumpSignals(p)));
      trace := [PumpSignals(p)] + rest;
      assert trace[1..] == rest;
    }
  }

  /** An overlay goes up only while the loop handles a key, so never between the look at the mode and the paint. */
  lemma {:induction false} PaintsUnderNoOverlay(s: State, trace: seq<Action>, t: State)
    requires Runs(s, trace, t) && (s.loop.PaintingPane? ==> !s.overlayUp)
    ensures t.loop.PaintingPane? ==> !t.overlayUp
    decreases |trace|
  {
    if trace == [] {
    } else {
      PaintsUnderNoOverlay(Next(s, trace[0]), trace[1..], t);
    }
  }

  /** In every interleaving: the pane is never painted over an overlay that is up. */
  lemma OverlayIsNotPaintedOver(version: nat, token: bool, pumps: map<nat, Pump>, trace: seq<Action>, t: State)
    requires Runs(Init(version, token, pumps), trace, t) && Enabled(t, PaintPane)
    ensures !t.overlayUp
  {
    PaintsUnderNoOverlay(Init(version, token, pumps), trace, t);
  }
}
