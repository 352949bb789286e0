/** internal/tui/render.go and overlay.go: the input handlers of connUI, updating its fields in place. */
module InputRouter {
  import opened Basics
  import opened Identity
  import opened OverlayList
  import opened InputRouting

  class Router {
    const prefix: byte
    const matcher: Matcher
    var mode: Mode
    var overlay: Box?
    var viewing: ID

    ghost function View(): Ui
      reads this, overlay
    {
      Ui(mode, if overlay == null then None else Some(overlay.View()), viewing)
    }

    constructor (prefix: byte, matcher: Matcher, viewing: ID)
      ensures this.prefix == prefix && this.matcher == matcher
      ensures View() == Ui(Stream, None, viewing)
    {
      this.prefix, this.matcher := prefix, matcher;
      mode, overlay, this.viewing := Stream, null, viewing;
    }

    method Start(built: Overlay)
      modifies this`mode, this`overlay
      ensures overlay != null && fresh(overlay)
      ensures View() == StartOverlay(old(View()), built, matcher)
    {
      var box := new Box(built);
      box.RefilterNow(matcher);
      overlay := box;
      mode := InOverlay;
    }

    method Close()
      modifies this`mode, this`overlay
      ensures overlay == null && View() == CloseOverlay(old(View()))
    {
      overlay := null;
      mode := Stream;
    }

    method SwitchView(id: ID)
      modifies this`mode, this`viewing
      ensures View() == Apply(old(View()), SwitchedTo(id), matcher)
    {
      viewing := id;
      mode := Stream;
    }

    method Act(r: Reply)
      modifies this`mode, this`overlay, this`viewing
      ensures overlay == old(overlay) || (overlay != null && fresh(overlay))
      ensures View() == Apply(old(View()), r, matcher)
    {
      match r
      case Nothing =>
      case SwitchedTo(id) => SwitchView(id);
      case Opened(ov) => Start(ov);
    }

    method Select(env: Env)
      requires overlay != null
      modifies this`mode, this`overlay, this`viewing
      ensures overlay == null || fresh(overlay)
      ensures View() == SelectOverlay(old(View()), env, matcher)
    {
      var ov := overlay;
      if ov.textInput {
        Close();
        return;
      }
      var chosen := ov.sel >= 0 && ov.sel < |ov.filtered|;
      var reply := if chosen then env.acts(ov.filtered[ov.sel]) else Nothing;
      Close();
      if chosen {
        Act(reply);
      }
    }

    method OnOverlay(ev: KeyEvent, env: Env)
      modifies this`mode, this`overlay, this`viewing, overlay
      ensures overlay == old(overlay) || overlay == null || fresh(overlay)
      ensures View() == OverlayEvent(old(View()), ev, env, matcher)
    {
      if overlay == null {
        mode := Stream;
        return;
      }
      match ev.kind
      case Escape => Close();
      case Enter => Select(env);
      case ArrowUp => overlay.MoveBy(-1);
      case ArrowDown => overlay.MoveBy(1);
      case Backspace =>
        if overlay.query != [] {
          overlay.query := overlay.query[..|overlay.query| - 1];
          overlay.RefilterNow(matcher);
        }
      case Rune =>
        if !ev.ctrl && ev.ch >= 0x20 {
          overlay.query := overlay.query + Utf8(ev.ch);
          overlay.RefilterNow(matcher);
        }
      case _ =>
    }

    method OnStream(ev: KeyEvent, env: Env) returns (written: seq<byte>)
      modifies this`mode, this`viewing
      ensures overlay == old(overlay)
      ensures Handled(View(), written, false) == StreamEvent(old(View()), ev, env, prefix, matcher)
    {
      written := [];
      if ev.mouse {
        if env.clicked.SwitchedTo? {
          SwitchView(env.clicked.id);
        }
        return;
      }
      var b := Encode(ev);
      if |b| == 1 && b[0] == prefix {
        mode := Prefix;
        return;
      }
      assert b != [prefix];
      if viewing != "" && |b| > 0 {
        written := b;
      }
    }

    method OnPrefix(ev: KeyEvent, env: Env) returns (written: seq<byte>, quit: bool)
      modifies this`mode, this`overlay
      ensures overlay == old(overlay) || (overlay != null && fresh(overlay))
      ensures Handled(View(), written, quit) == PrefixEvent(old(View()), ev, env, prefix, matcher)
    {
      written, quit := [], false;
      var b := Encode(ev);
      mode := Stream;
      if |b| == 1 && b[0] == prefix {
        assert b == [prefix];
        if viewing != "" {
          written := b;
        }
        return;
      }
      if IsLetter(ev.ch, 'p', 'P') || IsLetter(ev.ch, 'l', 'L') || IsLetter(ev.ch, 's', 'S') {
        Start(env.built);
      } else if IsLetter(ev.ch, 'r', 'R') {
        if viewing != "" {
          Start(env.built);
        }
      } else if IsLetter(ev.ch, 'k', 'K') {
        Start(env.built);
      } else if IsLetter(ev.ch, 'd', 'D') {
        quit := true;
      }
    }

    method HandleEvent(ev: KeyEvent, env: Env) returns (written: seq<byte>, quit: bool)
      modifies this`mode, this`overlay, this`viewing, overlay
      ensures overlay == old(overlay) || overlay == null || fresh(overlay)
      ensures Handled(View(), written, quit) == Handle(old(View()), Input.Key(ev, env), prefix, matcher)
    {
      written, quit := [], false;
      match mode
      case InOverlay => OnOverlay(ev, env);
      case Prefix => written, quit := OnPrefix(ev, env);
      case Stream => written := OnStream(ev, env);
    }
  }
}
