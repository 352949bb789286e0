/** internal/tui/render.go: the automaton that routes one interface's keys, and what it writes to the
    session. */
module InputRouting {
  import opened Basics
  import opened Identity
  import opened OverlayList

  datatype Kind =
    | Rune | Enter | Backspace | Tab | Escape | CtrlC
    | ArrowUp | ArrowDown | ArrowRight | ArrowLeft | Home | End | PageUp | PageDown | Delete
    | Paste | Other

  datatype KeyEvent = KeyEvent(kind: Kind, ch: int, ctrl: bool, mouse: bool, text: seq<byte>)

  /** Go's string(rune): UTF-8, with U+FFFD for anything that is not a code point. */
  function Utf8(ch: int): (b: seq<byte>)
    ensures 1 <= |b| <= 4
  {
    if ch < 0 || ch > 0x10FFFF || 0xD800 <= ch <= 0xDFFF then [0xEF, 0xBF, 0xBD]
    else if ch < 0x80 then [ch]
    else if ch < 0x800 then [0xC0 + ch / 64, 0x80 + ch % 64]
    else if ch < 0x1_0000 then [0xE0 + ch / 4096, 0x80 + ch / 64 % 64, 0x80 + ch % 64]
    else [0xF0 + ch / 262144, 0x80 + ch / 4096 % 64, 0x80 + ch / 64 % 64, 0x80 + ch % 64]
  }

  function Above(b: byte, marker: int): int { b as int - marker }

  /** The code point at the start of well-formed UTF-8, and its length. */
  function FirstRune(b: seq<byte>): Option<(int, nat)> {
    if |b| >= 1 && b[0] < 0x80 then Some((b[0], 1))
    else if |b| >= 2 && 0xC0 <= b[0] < 0xE0 then Some((Above(b[0], 0xC0) * 64 + Above(b[1], 0x80), 2))
    else if |b| >= 3 && 0xE0 <= b[0] < 0xF0 then
      Some((Above(b[0], 0xE0) * 4096 + Above(b[1], 0x80) * 64 + Above(b[2], 0x80), 3))
    else if |b| >= 4 && 0xF0 <= b[0] then
      Some((Above(b[0], 0xF0) * 262144 + Above(b[1], 0x80) * 4096 + Above(b[2], 0x80) * 64 + Above(b[3], 0x80), 4))
    else None
  }

  lemma Digits64(ch: int)
    ensures ch == ch / 64 * 64 + ch % 64
    ensures ch / 64 == ch / 4096 * 64 + ch / 64 % 64
    ensures ch / 4096 == ch / 262144 * 64 + ch / 4096 % 64
  {
    assert ch / 4096 == ch / 64 / 64;
    assert ch / 262144 == ch / 4096 / 64;
  }

  lemma FirstRuneIgnoresTheRest(b: seq<byte>, rest: seq<byte>)
    requires FirstRune(b).Some?
    ensures FirstRune(b + rest) == FirstRune(b)
  {
  }

  /** A typed character reaches the shell as itself, whatever follows it. */
  lemma Utf8ReadsBack(ch: int, rest: seq<byte>)
    requires 0 <= ch <= 0x10FFFF && !(0xD800 <= ch <= 0xDFFF)
    ensures FirstRune(Utf8(ch) + rest) == Some((ch, |Utf8(ch)|))
  {
    Digits64(ch);
    FirstRuneIgnoresTheRest(Utf8(ch), rest);
  }

  const ESC: byte := 0x1b

  /** The bytes an event stands for. A control byte was parsed as its letter, 0x40 higher, and byte
      arithmetic wraps. */
  function Encode(ev: KeyEvent): seq<byte> {
    match ev.kind
    case Rune => if ev.ctrl then [(ev.ch - 0x40) % 256] else Utf8(ev.ch)
    case Enter => [13]
    case Backspace => [127]
    case Tab => [9]
    case Escape => [ESC]
    case CtrlC => [3]
    case ArrowUp => [ESC, 0x5b, 0x41]
    case ArrowDown => [ESC, 0x5b, 0x42]
    case ArrowRight => [ESC, 0x5b, 0x43]
    case ArrowLeft => [ESC, 0x5b, 0x44]
    case Home => [ESC, 0x5b, 0x48]
    case End => [ESC, 0x5b, 0x46]
    case PageUp => [ESC, 0x5b, 0x35, 0x7e]
    case PageDown => [ESC, 0x5b, 0x36, 0x7e]
    case Delete => [ESC, 0x5b, 0x33, 0x7e]
    case Paste => ev.text
    case Other => []
  }

  // ----- Reading a terminal's bytes back

  /** What a program behind a terminal makes of the bytes it reads: a character, a control letter, or a key. */
  datatype Reading = Typed(ch: int) | Control(letter: int) | Pressed(key: Kind)

  /** The last byte of ESC [ x. */
  function CursorKey(b: byte): Option<Kind> {
    if b == 0x41 then Some(ArrowUp)
    else if b == 0x42 then Some(ArrowDown)
    else if b == 0x43 then Some(ArrowRight)
    else if b == 0x44 then Some(ArrowLeft)
    else if b == 0x48 then Some(Home)
    else if b == 0x46 then Some(End)
    else None
  }

  /** The digit of ESC [ d ~. */
  function EditingKey(b: byte): Option<Kind> {
    if b == 0x33 then Some(Delete)
    else if b == 0x35 then Some(PageUp)
    else if b == 0x36 then Some(PageDown)
    else None
  }

  /** A key sequence after ESC, and how long it is. */
  function AfterEscape(b: seq<byte>): Option<(Kind, nat)> {
    if |b| >= 2 && b[0] == 0x5b && CursorKey(b[1]).Some? then Some((CursorKey(b[1]).value, 2))
    else if |b| >= 3 && b[0] == 0x5b && EditingKey(b[1]).Some? && b[2] == 0x7e then Some((EditingKey(b[1]).value, 3))
    else None
  }

  /** The first thing in the input, and how many bytes it takes. */
  function ReadKey(b: seq<byte>): Option<(Reading, nat)> {
    if b == [] then None
    else if b[0] == 0x1b then
      match AfterEscape(b[1..])
      case Some((key, n)) => Some((Pressed(key), 1 + n))
      case None => Some((Pressed(Escape), 1))
    else if b[0] == 0x0d then Some((Pressed(Enter), 1))
    else if b[0] == 0x7f then Some((Pressed(Backspace), 1))
    else if b[0] == 0x09 then Some((Pressed(Tab), 1))
    else if b[0] == 0x03 then Some((Pressed(CtrlC), 1))
    else if b[0] < 0x20 then Some((Control(b[0] as int + 0x40), 1))
    else
      match FirstRune(b)
      case Some((ch, n)) => Some((Typed(ch), n))
      case None => None
  }

  predicate IsCodePoint(ch: int) {
    0 <= ch <= 0x10FFFF && !(0xD800 <= ch <= 0xDFFF)
  }

  /** What the interface's own parser can produce: a character, or the letter of a control byte that is no key
      of its own. */
  predicate Parsed(ev: KeyEvent) {
    ev.kind.Rune? ==>
      if ev.ctrl then 0x40 <= ev.ch < 0x60 && ev.ch !in {0x43, 0x49, 0x4d, 0x5b} else ev.ch >= 0x20 && ev.ch != 0x7f
  }

  function Meaning(ev: KeyEvent): Reading {
    if !ev.kind.Rune? then Pressed(ev.kind)
    else if ev.ctrl then Control(ev.ch)
    else Typed(if IsCodePoint(ev.ch) then ev.ch else 0xFFFD)
  }

  lemma ByteAndRest(b: seq<byte>, rest: seq<byte>)
    requires b != []
    ensures (b + rest)[0] == b[0] && (b + rest)[1..] == b[1..] + rest
  {
  }

  lemma RuneReadsBack(ch: int, rest: seq<byte>)
    requires ch >= 0x20 && ch != 0x7f
    ensures ReadKey(Utf8(ch) + rest) == Some((Typed(if IsCodePoint(ch) then ch else 0xFFFD), |Utf8(ch)|))
  {
    var shown := if IsCodePoint(ch) then ch else 0xFFFD;
    assert Utf8(ch) == Utf8(shown);
    Utf8ReadsBack(shown, rest);
    assert (Utf8(shown) + rest)[0] == Utf8(shown)[0];
  }

  /** The bytes written for a key are read back as that key, whatever follows them: for a character that
      character, or U+FFFD where there is none, and for a control letter that letter. */
  lemma KeyReadsBack(ev: KeyEvent, rest: seq<byte>)
    requires !ev.kind.Escape? && !ev.kind.Paste? && !ev.kind.Other? && Parsed(ev)
    ensures ReadKey(Encode(ev) + rest) == Some((Meaning(ev), |Encode(ev)|))
  {
    var b := Encode(ev) + rest;
    if ev.kind.Rune? && !ev.ctrl {
      RuneReadsBack(ev.ch, rest);
    } else {
      ByteAndRest(Encode(ev), rest);
      hide FirstRune, Utf8;
    }
  }

  /** A lone escape is read back as one unless what follows makes a longer key of it. */
  lemma EscapeReadsBackIff(ev: KeyEvent, rest: seq<byte>)
    requires ev.kind.Escape?
    ensures ReadKey(Encode(ev) + rest) == Some((Meaning(ev), |Encode(ev)|)) <==> AfterEscape(rest).None?
  {
    assert (Encode(ev) + rest)[1..] == rest;
  }

  /** A paste is written as it is, and unknown keys not at all. */
  lemma PasteIsVerbatim(ev: KeyEvent)
    ensures ev.kind.Paste? ==> Encode(ev) == ev.text
    ensures ev.kind.Other? ==> Encode(ev) == []
  {
  }

  // ----- The automaton

  datatype Mode = Stream | Prefix | InOverlay

  datatype Ui = Ui(mode: Mode, overlay: Option<Overlay>, viewing: ID)

  /** What a call out of the automaton came back with: a sidebar click or a selected entry may switch the
      view, and an entry may open a further overlay. */
  datatype Reply = Nothing | SwitchedTo(id: ID) | Opened(ov: Overlay)

  /** `built` is the overlay a command key opens, `clicked` the outcome of a click, and `acts` what each entry of
      the overlay does. */
  datatype Env = Env(built: Overlay, clicked: Reply, acts: nat -> Reply)

  /** Keys come from the interface; the other two from the pump of the session being viewed. */
  datatype Input = Key(ev: KeyEvent, env: Env) | ViewSwitched(id: ID) | ViewEnded

  function StartOverlay(u: Ui, ov: Overlay, m: Matcher): Ui {
    u.(overlay := Some(Refilter(ov, m)), mode := InOverlay)
  }

  function CloseOverlay(u: Ui): Ui { u.(overlay := None, mode := Stream) }

  function Apply(u: Ui, r: Reply, m: Matcher): Ui {
    match r
    case Nothing => u
    case SwitchedTo(id) => u.(viewing := id, mode := Stream)
    case Opened(ov) => StartOverlay(u, ov, m)
  }

  function SelectOverlay(u: Ui, env: Env, m: Matcher): Ui
    requires u.overlay.Some?
  {
    var o := u.overlay.value;
    if !o.textInput && 0 <= o.sel < |o.filtered| then Apply(CloseOverlay(u), env.acts(o.filtered[o.sel]), m) else CloseOverlay(u)
  }

  function EditQuery(u: Ui, q: Query, m: Matcher): Ui
    requires u.overlay.Some?
  {
    u.(overlay := Some(Refilter(u.overlay.value.(query := q), m)))
  }

  function OverlayEvent(u: Ui, ev: KeyEvent, env: Env, m: Matcher): Ui {
    if u.overlay.None? then u.(mode := Stream)
    else
      var o := u.overlay.value;
      match ev.kind
      case Escape => CloseOverlay(u)
      case Enter => SelectOverlay(u, env, m)
      case ArrowUp => u.(overlay := Some(Move(o, -1)))
      case ArrowDown => u.(overlay := Some(Move(o, 1)))
      case Backspace => if o.query != [] then EditQuery(u, o.query[..|o.query| - 1], m) else u
      case Rune => if !ev.ctrl && ev.ch >= 0x20 then EditQuery(u, o.query + Utf8(ev.ch), m) else u
      case _ => u
  }

  predicate IsLetter(ch: int, lower: char, upper: char) {
    ch == lower as int || ch == upper as int
  }

  /** The next state, the bytes written to the viewed session, and whether the interface detaches. */
  datatype Handled = Handled(ui: Ui, written: seq<byte>, quit: bool)

  function StreamEvent(u: Ui, ev: KeyEvent, env: Env, prefix: byte, m: Matcher): Handled {
    if ev.mouse then Handled(if env.clicked.SwitchedTo? then Apply(u, env.clicked, m) else u, [], false)
    else
      var b := Encode(ev);
      if b == [prefix] then Handled(u.(mode := Prefix), [], false)
      else Handled(u, if u.viewing != "" then b else [], false)
  }

  function PrefixEvent(u: Ui, ev: KeyEvent, env: Env, prefix: byte, m: Matcher): Handled {
    var s := u.(mode := Stream);
    if Encode(ev) == [prefix] then Handled(s, if u.viewing != "" then [prefix] else [], false)
    else if IsLetter(ev.ch, 'p', 'P') || IsLetter(ev.ch, 'l', 'L') || IsLetter(ev.ch, 's', 'S') || IsLetter(ev.ch, 'k', 'K')
    then Handled(StartOverlay(s, env.built, m), [], false)
    else if IsLetter(ev.ch, 'r', 'R') then Handled(if u.viewing == "" then s else StartOverlay(s, env.built, m), [], false)
    else Handled(s, [], IsLetter(ev.ch, 'd', 'D'))
  }

  function Handle(u: Ui, i: Input, prefix: byte, m: Matcher): Handled {
    match i
    case ViewSwitched(id) => Handled(Apply(u, SwitchedTo(id), m), [], false)
    case ViewEnded => Handled(u.(viewing := ""), [], false)
    case Key(ev, env) =>
      match u.mode
      case InOverlay => Handled(OverlayEvent(u, ev, env, m), [], false)
      case Prefix => PrefixEvent(u, ev, env, prefix, m)
      case Stream => StreamEvent(u, ev, env, prefix, m)
  }

  datatype Outcome = Outcome(ui: Ui, written: seq<seq<byte>>, quit: bool)

  /** The Handle loop: inputs one after the other, until one of them detaches. */
  function Run(u: Ui, inputs: seq<Input>, prefix: byte, m: Matcher): Outcome
    decreases |inputs|
  {
    if inputs == [] then Outcome(u, [], false)
    else
      var h := Handle(u, inputs[0], prefix, m);
      if h.quit then Outcome(h.ui, [h.written], true)
      else
        var rest := Run(h.ui, inputs[1..], prefix, m);
        Outcome(rest.ui, [h.written] + rest.written, rest.quit)
  }

  // ----- Escaping the prefix

  function Doubled(ev: KeyEvent, prefix: byte): seq<KeyEvent> {
    if Encode(ev) == [prefix] then [ev, ev] else [ev]
  }

  function Escaped(events: seq<KeyEvent>, prefix: byte): seq<KeyEvent> {
    if events == [] then [] else Doubled(events[0], prefix) + Escaped(events[1..], prefix)
  }

  function Encoded(events: seq<KeyEvent>): seq<byte> {
    if events == [] then [] else Encode(events[0]) + Encoded(events[1..])
  }

  ghost predicate AreKeys(inputs: seq<Input>, events: seq<KeyEvent>) {
    |inputs| == |events| && forall i :: 0 <= i < |inputs| ==> inputs[i].Key? && inputs[i].ev == events[i]
  }

  lemma FlattenCons<T>(x: seq<T>, rest: seq<seq<T>>)
    ensures Flatten([x] + rest) == x + Flatten(rest)
  {
    FlattenAppend([x], rest);
    FlattenSnoc([], x);
    assert [x] == [] + [x];
  }

  /** Handling the one or two keys of one escaped event writes that event. */
  lemma EscapedEventGoesThrough(u: Ui, ev: KeyEvent, inputs: seq<Input>, prefix: byte, m: Matcher)
    requires u.mode.Stream? && u.viewing != "" && !ev.mouse && AreKeys(inputs, Doubled(ev, prefix))
    ensures var h := Handle(u, inputs[0], prefix, m);
      && !h.quit
      && if Encode(ev) != [prefix] then h == Handled(u, Encode(ev), false)
         else h.written == [] && Handle(h.ui, inputs[1], prefix, m) == Handled(u, Encode(ev), false)
  {
  }

  /** Doubling exactly the keys that encode to the prefix byte gets every key through: the session is
      written the concatenation of their encodings, and the automaton is back where it was. */
  lemma {:induction false} EscapingRoundTrip(u: Ui, events: seq<KeyEvent>, inputs: seq<Input>, prefix: byte, m: Matcher)
    requires u.mode.Stream? && u.viewing != ""
    requires forall i :: 0 <= i < |events| ==> !events[i].mouse
    requires AreKeys(inputs, Escaped(events, prefix))
    ensures var r := Run(u, inputs, prefix, m);
      r.ui == u && !r.quit && Flatten(r.written) == Encoded(events)
    decreases |events|
  {
    if events == [] {
    } else {
      var n := |Doubled(events[0], prefix)|;
      assert inputs == inputs[..n] + inputs[n..];
      assert AreKeys(inputs[..n], Doubled(events[0], prefix)) by {
        assert forall i :: 0 <= i < n ==> Escaped(events, prefix)[i] == Doubled(events[0], prefix)[i];
      }
      assert AreKeys(inputs[n..], Escaped(events[1..], prefix)) by {
        assert Escaped(events, prefix)[n..] == Escaped(events[1..], prefix);
      }
      EscapedEventGoesThrough(u, events[0], inputs[..n], prefix, m);
      EscapingRoundTrip(u, events[1..], inputs[n..], prefix, m);
      var rest := Run(u, inputs[n..], prefix, m);
      FlattenCons(Encode(events[0]), rest.written);
      if n == 2 {
        assert inputs[1..][1..] == inputs[2..];
        FlattenCons([], [Encode(events[0])] + rest.written);
      }
    }
  }

  /** No input writes more than its own key. */
  lemma {:induction false} NeverMoreThanTyped(u: Ui, events: seq<KeyEvent>, inputs: seq<Input>, prefix: byte, m: Matcher)
    requires AreKeys(inputs, events)
    ensures |Flatten(Run(u, inputs, prefix, m).written)| <= |Encoded(events)|
    decreases |events|
  {
    if events == [] {
      assert Run(u, inputs, prefix, m).written == [];
    } else {
      var h := Handle(u, inputs[0], prefix, m);
      if h.written != [] {
        WritesItsOwnKey(u, inputs[0], prefix, m);
      }
      if h.quit {
        FlattenCons(h.written, []);
        assert [h.written] + [] == [h.written];
      } else {
        NeverMoreThanTyped(h.ui, events[1..], inputs[1..], prefix, m);
        FlattenCons(h.written, Run(h.ui, inputs[1..], prefix, m).written);
      }
    }
  }

  /** In pass-through mode with a view, a key other than the prefix goes through; the prefix does not. */
  lemma PlainKey(u: Ui, i: Input, prefix: byte, m: Matcher)
    requires u.mode.Stream? && u.viewing != "" && i.Key? && !i.ev.mouse
    ensures Encode(i.ev) != [prefix] ==> Handle(u, i, prefix, m) == Handled(u, Encode(i.ev), false)
    ensures Encode(i.ev) == [prefix] ==> Handle(u, i, prefix, m).written == [] && !Handle(u, i, prefix, m).quit
  {
  }

  predicate Unprefixed(events: seq<KeyEvent>, prefix: byte) {
    events == [] || (Encode(events[0]) != [prefix] && Unprefixed(events[1..], prefix))
  }

  /** Without doubling, everything typed gets through if and only if no key encodes to the prefix byte. */
  lemma {:induction false} PlainGoesThroughIff(u: Ui, events: seq<KeyEvent>, inputs: seq<Input>, prefix: byte, m: Matcher)
    requires u.mode.Stream? && u.viewing != "" && AreKeys(inputs, events)
    requires forall i :: 0 <= i < |events| ==> !events[i].mouse
    ensures Flatten(Run(u, inputs, prefix, m).written) == Encoded(events) <==> Unprefixed(events, prefix)
    decreases |events|
  {
    if events == [] {
      assert Run(u, inputs, prefix, m).written == [];
    } else {
      hide Handle, Encode;
      PlainKey(u, inputs[0], prefix, m);
      var h := Handle(u, inputs[0], prefix, m);
      var rest := Run(h.ui, inputs[1..], prefix, m).written;
      FlattenCons(h.written, rest);
      if Encode(events[0]) == [prefix] {
        NeverMoreThanTyped(h.ui, events[1..], inputs[1..], prefix, m);
      } else {
        PlainGoesThroughIff(u, events[1..], inputs[1..], prefix, m);
        SamePrefix(Encode(events[0]), Flatten(rest), Encoded(events[1..]));
      }
    }
  }

  lemma SamePrefix<T>(b: seq<T>, x: seq<T>, y: seq<T>)
    ensures b + x == b + y <==> x == y
  {
    assert (b + x)[|b|..] == x && (b + y)[|b|..] == y;
  }

  // ----- Any run at all

  predicate IsSubsequence<T(==)>(a: seq<T>, b: seq<T>) {
    a == [] || (b != [] && ((a[0] == b[0] && IsSubsequence(a[1..], b[1..])) || IsSubsequence(a, b[1..])))
  }

  /** The encodings of the keys that arrive while no overlay owns the input. */
  function OfferedKeys(u: Ui, inputs: seq<Input>, prefix: byte, m: Matcher): seq<seq<byte>>
    decreases |inputs|
  {
    if inputs == [] then []
    else
      var h := Handle(u, inputs[0], prefix, m);
      (if inputs[0].Key? && !u.mode.InOverlay? then [Encode(inputs[0].ev)] else [])
      + (if h.quit then [] else OfferedKeys(h.ui, inputs[1..], prefix, m))
  }

  function NonEmpty(w: seq<seq<byte>>): seq<seq<byte>> {
    if w == [] then [] else (if w[0] == [] then [] else [w[0]]) + NonEmpty(w[1..])
  }

  /** One input writes nothing, or exactly its own encoding, to a view, outside an overlay. */
  lemma WritesItsOwnKey(u: Ui, i: Input, prefix: byte, m: Matcher)
    requires Handle(u, i, prefix, m).written != []
    ensures i.Key? && !u.mode.InOverlay? && u.viewing != "" && Handle(u, i, prefix, m).written == Encode(i.ev)
    ensures u.mode.Prefix? <==> Encode(i.ev) == [prefix]
  {
  }

  /** Whatever is typed, clicked or switched, what reaches sessions is an in-order selection of the keys'
      encodings, none of them typed into an overlay. */
  lemma {:induction false} WritesAreASelection(u: Ui, inputs: seq<Input>, prefix: byte, m: Matcher)
    ensures IsSubsequence(NonEmpty(Run(u, inputs, prefix, m).written), OfferedKeys(u, inputs, prefix, m))
    decreases |inputs|
  {
    if inputs == [] {
    } else {
      var h := Handle(u, inputs[0], prefix, m);
      if h.written != [] {
        WritesItsOwnKey(u, inputs[0], prefix, m);
      }
      if !h.quit {
        WritesAreASelection(h.ui, inputs[1..], prefix, m);
        var rest, offered := Run(h.ui, inputs[1..], prefix, m).written, OfferedKeys(h.ui, inputs[1..], prefix, m);
        assert ([h.written] + rest)[1..] == rest;
        if inputs[0].Key? && !u.mode.InOverlay? {
          assert ([Encode(inputs[0].ev)] + offered)[1..] == offered;
        } else {
          assert [] + offered == offered;
        }
        if h.written != [] {
          assert ([h.written] + NonEmpty(rest))[1..] == NonEmpty(rest);
        } else {
          assert [] + NonEmpty(rest) == NonEmpty(rest);
        }
      } else {
        assert NonEmpty([h.written]) == [];
      }
    }
  }

  /** While an overlay has the input there is one, and it is in order. */
  ghost predicate UiOk(u: Ui) {
    (u.mode.InOverlay? ==> u.overlay.Some?) && (u.overlay.Some? ==> OverlayOk(u.overlay.value))
  }

  lemma HandleKeepsOk(u: Ui, i: Input, prefix: byte, m: Matcher)
    requires GoodMatcher(m) && UiOk(u)
    ensures UiOk(Handle(u, i, prefix, m).ui)
  {
    if i.Key? {
      RefilterEstablishes(i.env.built, m);
      if u.mode.InOverlay? {
        OverlayKeepsOk(u, i.ev, i.env, m);
      }
    }
  }

  lemma OverlayKeepsOk(u: Ui, ev: KeyEvent, env: Env, m: Matcher)
    requires GoodMatcher(m) && UiOk(u) && u.mode.InOverlay?
    ensures UiOk(OverlayEvent(u, ev, env, m))
  {
    var o := u.overlay.value;
    match ev.kind
    case Enter =>
      if 0 <= o.sel < |o.filtered| && env.acts(o.filtered[o.sel]).Opened? {
        RefilterEstablishes(env.acts(o.filtered[o.sel]).ov, m);
      }
    case ArrowUp => MoveStaysInside(o, -1);
    case ArrowDown => MoveStaysInside(o, 1);
    case Backspace =>
      if o.query != [] {
        RefilterEstablishes(o.(query := o.query[..|o.query| - 1]), m);
      }
    case Rune => RefilterEstablishes(o.(query := o.query + Utf8(ev.ch)), m);
    case _ =>
  }

  // ----- What the keys do

  predicate IsPrefixKey(u: Ui, i: Input, prefix: byte) {
    i.Key? && u.mode.Prefix? && Encode(i.ev) != [prefix]
  }

  /** The interface detaches on the prefix followed by d or D, and on nothing else. */
  lemma DetachIff(u: Ui, i: Input, prefix: byte, m: Matcher)
    ensures Handle(u, i, prefix, m).quit <==> IsPrefixKey(u, i, prefix) && i.ev.ch in {'d' as int, 'D' as int}
  {
  }

  /** The mouse types nothing in pass-through mode; a click on a sidebar entry moves the view. */
  lemma MouseTypesNothing(u: Ui, i: Input, prefix: byte, m: Matcher)
    requires i.Key? && i.ev.mouse && u.mode.Stream?
    ensures Handle(u, i, prefix, m) ==
      Handled(Ui(Stream, u.overlay, if i.env.clicked.SwitchedTo? then i.env.clicked.id else u.viewing), [], false)
  {
  }

  /** A view that moves from outside goes back to pass-through; one that ends leaves the mode alone. */
  lemma ViewsFromOutside(u: Ui, id: ID, prefix: byte, m: Matcher)
    ensures Handle(u, ViewSwitched(id), prefix, m) == Handled(Ui(Stream, u.overlay, id), [], false)
    ensures Handle(u, ViewEnded, prefix, m) == Handled(Ui(u.mode, u.overlay, ""), [], false)
  {
  }

  /** The prefix arms the next key, once: whatever it is, afterwards it is not armed. */
  lemma PrefixArmsOnce(u: Ui, i: Input, prefix: byte, m: Matcher)
    requires i.Key?
    ensures Handle(u, i, prefix, m).ui.mode.Prefix? <==>
      u.mode.Stream? && !i.ev.mouse && Encode(i.ev) == [prefix]
  {
  }

  /** Outside overlays, one comes up on the prefix and p, l, s or k, or r when a session is viewed, and on nothing
      else; it starts from a fresh filtering. */
  lemma OverlayComesUpIff(u: Ui, i: Input, prefix: byte, m: Matcher)
    requires i.Key? && !u.mode.InOverlay?
    ensures Handle(u, i, prefix, m).ui.mode.InOverlay? <==>
      IsPrefixKey(u, i, prefix)
      && (i.ev.ch in {'p' as int, 'P' as int, 'l' as int, 'L' as int, 's' as int, 'S' as int, 'k' as int, 'K' as int}
          || (i.ev.ch in {'r' as int, 'R' as int} && u.viewing != ""))
    ensures Handle(u, i, prefix, m).ui.mode.InOverlay? ==>
      Handle(u, i, prefix, m).ui == Ui(InOverlay, Some(Refilter(i.env.built, m)), u.viewing)
  {
  }

  /** Escape leaves an overlay without a trace. */
  lemma EscapeClosesOverlay(u: Ui, i: Input, prefix: byte, m: Matcher)
    requires i.Key? && u.mode.InOverlay? && i.ev.kind.Escape?
    ensures Handle(u, i, prefix, m) == Handled(Ui(Stream, if u.overlay.None? then u.overlay else None, u.viewing), [], false)
  {
  }

  /** Enter closes the overlay and does what the selected entry, the one in the selected row, does; with no such
      row, or in a text overlay, nothing more. */
  lemma EnterActsOnTheSelected(u: Ui, i: Input, prefix: byte, m: Matcher)
    requires i.Key? && u.mode.InOverlay? && u.overlay.Some? && i.ev.kind.Enter?
    ensures var o, h := u.overlay.value, Handle(u, i, prefix, m);
      h.written == [] && !h.quit &&
      if o.textInput || o.sel < 0 || o.sel >= |o.filtered| then h.ui == Ui(Stream, None, u.viewing)
      else match i.env.acts(o.filtered[o.sel])
        case Nothing => h.ui == Ui(Stream, None, u.viewing)
        case SwitchedTo(id) => h.ui == Ui(Stream, None, id)
        case Opened(ov) => h.ui == Ui(InOverlay, Some(Refilter(ov, m)), u.viewing)
  {
  }

  /** The arrows move the selection one row, down for the down arrow, and stop at the ends. */
  lemma ArrowsMoveOneRow(u: Ui, i: Input, prefix: byte, m: Matcher)
    requires UiOk(u) && i.Key? && u.mode.InOverlay? && (i.ev.kind.ArrowUp? || i.ev.kind.ArrowDown?)
    ensures var o, h := u.overlay.value, Handle(u, i, prefix, m);
      && h.ui.overlay.Some? && h.ui == u.(overlay := h.ui.overlay) && h.ui.overlay.value == o.(sel := h.ui.overlay.value.sel)
      && (i.ev.kind.ArrowUp? ==> h.ui.overlay.value.sel == if o.sel > 0 then o.sel - 1 else 0)
      && (i.ev.kind.ArrowDown? ==> h.ui.overlay.value.sel == if o.sel + 1 < |o.filtered| then o.sel + 1 else o.sel)
  {
    MoveStaysInside(u.overlay.value, -1);
    MoveStaysInside(u.overlay.value, 1);
  }

  /** A character typed into an overlay adds its bytes to the query. Backspace takes back one byte, so the two
      undo each other exactly for the characters of one byte. */
  lemma BackspaceUndoesTypingIff(u: Ui, typed: Input, back: Input, prefix: byte, m: Matcher)
    requires u.mode.InOverlay? && u.overlay.Some? && typed.Key? && back.Key?
    requires typed.ev.kind.Rune? && !typed.ev.ctrl && typed.ev.ch >= 0x20 && back.ev.kind.Backspace?
    ensures var after := Handle(u, typed, prefix, m).ui;
      && after.mode.InOverlay? && after.overlay.Some?
      && after.overlay.value.query == u.overlay.value.query + Utf8(typed.ev.ch)
      && Handle(after, back, prefix, m).ui.overlay.Some?
      && (Handle(after, back, prefix, m).ui.overlay.value.query == u.overlay.value.query <==> typed.ev.ch < 0x80)
  {
    var q, b := u.overlay.value.query, Utf8(typed.ev.ch);
    assert |b| == 1 ==> (q + b)[..|q + b| - 1] == q;
  }

  /** Over every run: the overlay mode has its overlay, every row is an entry, the selection is a row. */
  lemma {:induction false} RunKeepsOk(u: Ui, inputs: seq<Input>, prefix: byte, m: Matcher)
    requires GoodMatcher(m) && UiOk(u)
    ensures UiOk(Run(u, inputs, prefix, m).ui)
    decreases |inputs|
  {
    if inputs == [] {
    } else {
      HandleKeepsOk(u, inputs[0], prefix, m);
      var h := Handle(u, inputs[0], prefix, m);
      if !h.quit {
        RunKeepsOk(h.ui, inputs[1..], prefix, m);
      }
    }
  }
}
