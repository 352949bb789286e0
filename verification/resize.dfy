/** Shared resize across internal/attach, internal/server and internal/tui: what every run of their
    operations, one at a time, keeps between client sizes and session sizes. */
module SharedResize {
  import opened Basics
  import opened Identity
  import opened SessionIndex
  import opened Attachments
  import opened Server
  import opened ConnUI

  datatype World = World(store: Store, uis: map<ClientID, Ui>)

  datatype Event =
    | AttachUi(c: ClientID, pane: Size)
    | DetachUi(c: ClientID)
    | JumpTo(c: ClientID, target: ID)
    | Open(c: ClientID, key: Key, id: ID, created: int, dials: bool)
    | DropHost(host: HostID)
    | StopSession(id: ID)       // finalize: the session is closed, still registered
    | EndSession(id: ID)        // finalize: taken out of the maps
    | Switch(c: ClientID, id: ID)
    | ResizePane(c: ClientID, size: Size)
    | ViewStopped(c: ClientID)

  /** Session ids are drawn at random: never empty, never one already recorded anywhere. */
  predicate Possible(w: World, e: Event) {
    match e
    case AttachUi(c, pane) => c != "" && c !in w.store.att.clients && ValidSize(pane)
    case DetachUi(c) => c in w.store.att.clients
    case JumpTo(_, _) => true
    case Open(_, _, id, _, _) =>
      id != "" && id !in w.store.index.sessions && forall c :: c in w.store.att.clients ==> w.store.att.clients[c].viewing != id
    case DropHost(_) => true
    case StopSession(id) => id in w.store.index.sessions
    case EndSession(id) => id in w.store.index.sessions
    case Switch(c, _) => c in w.uis
    case ResizePane(c, size) => c in w.uis && ValidSize(size)
    case ViewStopped(c) => c in w.uis
  }

  ghost function SwitchUi(w: World, c: ClientID, id: ID): World
    requires c in w.uis
  {
    World(AfterSwitch(w.store, w.uis[c], c, id, SmallestWins), w.uis[c := w.uis[c].(viewing := id)])
  }

  ghost function After(w: World, e: Event): World
    requires Possible(w, e)
  {
    var st := w.store;
    match e
    case AttachUi(c, pane) =>
      World(st.(att := st.att.(clients := st.att.clients[c := Client("", pane)])), w.uis[c := Ui("", pane)])
    case DetachUi(c) => World(st.(att := Detach(st.att, c)), w.uis - {c})
    case JumpTo(c, target) => w.(store := AfterJump(st, c, target, SmallestWins))
    case Open(c, key, id, created, dials) => w.(store := AfterOpen(st, c, key, id, created, dials, SmallestWins))
    case DropHost(host) => w.(store := AfterHostDown(st, host, SmallestWins))
    case StopSession(id) => w.(store := st.(index := SetStopped(st.index, id)))
    case EndSession(id) => w.(store := st.(index := Forget(st.index, id, st.index.sessions[id].key)))
    case Switch(c, id) => SwitchUi(w, c, id)
    case ResizePane(c, size) =>
      World(AfterPaneResize(st, w.uis[c].viewing, c, size, SmallestWins), w.uis[c := w.uis[c].(pane := size)])
    case ViewStopped(c) =>
      match NextView(st, w.uis[c], c)
      case Some(next) => SwitchUi(w, c, next)
      case None => w.(uis := w.uis[c := w.uis[c].(viewing := "")])
  }

  // ----- No session larger than a viewer

  /** A live session's recorded size fits every valid viewer of it. */
  ghost predicate FitsViewers(st: Store, id: ID) {
    id in st.index.sessions ==>
      forall c :: c in Viewers(st.att.clients, id) ==> Fits(st.index.sessions[id].size, st.att.clients[c].size)
  }

  ghost predicate AllFit(st: Store) {
    "" !in st.index.sessions && forall id :: id in st.index.sessions ==> FitsViewers(st, id)
  }

  ghost predicate WorldOk(w: World) {
    && AllFit(w.store)
    && (forall c :: c in w.uis ==> ValidSize(w.uis[c].pane))
  }

  /** Session id has the size its viewers negotiate, if it is live and they do. */
  ghost predicate Exact(st: Store, id: ID, policy: Policy) {
    id in st.index.sessions && Negotiated(st.att, id, policy).Some? ==>
      st.index.sessions[id].size == Negotiated(st.att, id, policy).value
  }

  lemma RenegotiateIsExact(st: Store, id: ID, other: ID, policy: Policy)
    ensures Exact(Renegotiate(st, id, policy), id, policy)
    ensures Exact(st, other, policy) ==> Exact(Renegotiate(st, id, policy), other, policy)
  {
  }

  lemma ExactFits(st: Store, id: ID)
    requires Exact(st, id, SmallestWins)
    ensures FitsViewers(st, id)
  {
    FoundIffViewed(st.att, id, SmallestWins);
  }

  lemma RenegotiateKeepsOthers(st: Store, id: ID, other: ID)
    requires FitsViewers(st, other)
    ensures FitsViewers(Renegotiate(st, id, SmallestWins), other)
  {
    if other == id {
      RenegotiateIsExact(st, id, id, SmallestWins);
      ExactFits(Renegotiate(st, id, SmallestWins), id);
    }
  }

  /** Renegotiating restores the one session that may not fit. */
  lemma RenegotiateRestores(st: Store, id: ID)
    requires "" !in st.index.sessions
    requires forall other :: other in st.index.sessions && other != id ==> FitsViewers(st, other)
    ensures AllFit(Renegotiate(st, id, SmallestWins))
  {
    var t := Renegotiate(st, id, SmallestWins);
    RenegotiateIsExact(st, id, id, SmallestWins);
    ExactFits(t, id);
    forall other | other in t.index.sessions
      ensures FitsViewers(t, other)
    {
      if other != id {
        RenegotiateKeepsOthers(st, id, other);
      }
    }
  }

  /** Moving a client away or to `id` can only disturb `id`. */
  lemma SetViewingDisturbsOne(st: Store, c: ClientID, id: ID, other: ID)
    requires FitsViewers(st, other) && other != id
    ensures FitsViewers(st.(att := SetViewing(st.att, c, id)), other)
  {
    assert Viewers(SetViewing(st.att, c, id).clients, other) <= Viewers(st.att.clients, other);
  }

  lemma AfterMoveAndRenegotiate(st: Store, c: ClientID, before: ID, id: ID)
    requires AllFit(st)
    ensures var moved := st.(att := SetViewing(st.att, c, id));
      && "" !in RenegotiateOld(moved, before, id, SmallestWins).index.sessions
      && forall other :: other in st.index.sessions && other != id ==>
           FitsViewers(RenegotiateOld(moved, before, id, SmallestWins), other)
  {
    var moved := st.(att := SetViewing(st.att, c, id));
    forall other | other in st.index.sessions && other != id
      ensures FitsViewers(RenegotiateOld(moved, before, id, SmallestWins), other)
    {
      SetViewingDisturbsOne(st, c, id, other);
      RenegotiateKeepsOthers(moved, before, other);
    }
  }

  lemma RenegotiateOldKeepsIds(st: Store, before: ID, id: ID, policy: Policy)
    ensures RenegotiateOld(st, before, id, policy).index.sessions.Keys == st.index.sessions.Keys
    ensures RenegotiateOld(st, before, id, policy).att == st.att
  {
  }

  lemma JumpKeepsFit(st: Store, c: ClientID, target: ID)
    requires AllFit(st)
    ensures AllFit(AfterJump(st, c, target, SmallestWins))
  {
    if JumpOutcome(st, c, target).Done? {
      var before := ViewOf(st.att, c);
      var moved := st.(att := SetViewing(st.att, c, target));
      AfterMoveAndRenegotiate(st, c, before, target);
      RenegotiateOldKeepsIds(moved, before, target, SmallestWins);
      RenegotiateRestores(RenegotiateOld(moved, before, target, SmallestWins), target);
    }
  }

  lemma OpenKeepsFit(st: Store, c: ClientID, key: Key, id: ID, created: int, dials: bool)
    requires AllFit(st) && id != "" && id !in st.index.sessions
    requires forall d :: d in st.att.clients ==> st.att.clients[d].viewing != id
    ensures AllFit(AfterOpen(st, c, key, id, created, dials, SmallestWins))
  {
    if Find(st.index, key).Some? {
      JumpKeepsFit(st, c, Find(st.index, key).value);
    } else if dials && key.host in st.status {
      var new_ := WithNew(st, c, key, id, created);
      forall other | other in new_.index.sessions
        ensures FitsViewers(new_, other)
      {
        assert other != id ==> FitsViewers(st, other);
      }
      JumpKeepsFit(new_, c, id);
    }
  }

  lemma HostDownKeepsFit(st: Store, host: HostID)
    requires AllFit(st)
    ensures AllFit(AfterHostDown(st, host, SmallestWins))
  {
    var marked := CloseHostDown(st, host);
    forall id | id in marked.index.sessions
      ensures FitsViewers(marked, id)
    {
      assert FitsViewers(st, id);
    }
    match FirstRunning(marked.index)
    case None =>
    case Some(target) =>
      var who := Watching(st.att, OnHost(st.index, host));
      if who != {} {
        var moved := marked.(att := MoveAll(st.att, who, target));
        forall other | other in moved.index.sessions && other != target
          ensures FitsViewers(moved, other)
        {
          assert Viewers(moved.att.clients, other) <= Viewers(st.att.clients, other);
          assert FitsViewers(marked, other);
        }
        RenegotiateRestores(moved, target);
      }
  }

  lemma SetSizeDisturbsOne(st: Store, c: ClientID, size: Size, other: ID)
    requires FitsViewers(st, other) && other != ViewOf(st.att, c)
    ensures FitsViewers(st.(att := SetClientSize(st.att, c, size)), other)
  {
    assert Viewers(SetClientSize(st.att, c, size).clients, other) == Viewers(st.att.clients, other);
  }

  /** A resize that renegotiates the session the client's record points at. */
  lemma PaneResizeRestores(st: Store, c: ClientID, size: Size)
    requires "" !in st.index.sessions && ValidSize(size)
    requires forall other :: other in st.index.sessions && other != ViewOf(st.att, c) ==> FitsViewers(st, other)
    ensures AllFit(AfterPaneResize(st, ViewOf(st.att, c), c, size, SmallestWins))
  {
    var v := ViewOf(st.att, c);
    var sized := st.(att := SetClientSize(st.att, c, size));
    forall other | other in st.index.sessions && other != v
      ensures FitsViewers(sized, other)
    {
      SetSizeDisturbsOne(st, c, size, other);
    }
    if v != "" {
      RenegotiateRestores(sized, v);
    }
  }

  lemma SwitchKeepsFit(st: Store, ui: Ui, c: ClientID, id: ID)
    requires AllFit(st) && ValidSize(ui.pane)
    ensures AllFit(AfterSwitch(st, ui, c, id, SmallestWins))
  {
    var before := ViewOf(st.att, c);
    var moved := st.(att := SetViewing(st.att, c, id));
    AfterMoveAndRenegotiate(st, c, before, id);
    RenegotiateOldKeepsIds(moved, before, id, SmallestWins);
    var mid := AfterSetViewing(st, c, id, SmallestWins);
    if c in st.att.clients {
      PaneResizeRestores(mid, c, ui.pane);
    } else {
      assert moved.att == st.att && SetClientSize(mid.att, c, ui.pane) == mid.att;
      if id == "" || id !in st.index.sessions {
        assert AllFit(mid);
      }
      if id != "" {
        RenegotiateRestores(mid, id);
      }
    }
  }

  // ----- Pane resizes: when the interface and the record agree

  /** The interface views what its client's record says, or the record points at nothing live. */
  predicate InStep(w: World, c: ClientID)
    requires c in w.uis
  {
    w.uis[c].viewing == ViewOf(w.store.att, c) || ViewOf(w.store.att, c) !in w.store.index.sessions
  }

  /** A pane resize keeps every session within its viewers' sizes exactly when the interface and its record
      are in step or the session the record points at already fits the new size. */
  lemma PaneResizeKeepsFitIff(w: World, c: ClientID, size: Size)
    requires WorldOk(w) && Possible(w, ResizePane(c, size))
    ensures AllFit(After(w, ResizePane(c, size)).store) <==>
      InStep(w, c) || Fits(w.store.index.sessions[ViewOf(w.store.att, c)].size, size)
  {
    var st, seen, rec := w.store, w.uis[c].viewing, ViewOf(w.store.att, c);
    var sized := st.(att := SetClientSize(st.att, c, size));
    var t := AfterPaneResize(st, seen, c, size, SmallestWins);
    if seen == rec {
      PaneResizeRestores(st, c, size);
    } else {
      forall other | other in st.index.sessions && other != rec
        ensures FitsViewers(sized, other)
      {
        SetSizeDisturbsOne(st, c, size, other);
      }
      if rec in st.index.sessions {
        assert c in Viewers(sized.att.clients, rec);
        RecordedSessionAfterResize(st, c, size);
      }
      assert (rec in st.index.sessions ==> FitsViewers(sized, rec)) ==> AllFit(sized);
      if AllFit(sized) && seen != "" {
        RenegotiateRestores(sized, seen);
      }
      if rec in st.index.sessions {
        assert t.att == sized.att && t.index.sessions[rec] == st.index.sessions[rec];
        assert FitsViewers(t, rec) <==> FitsViewers(sized, rec);
      }
    }
  }

  lemma RecordedSessionAfterResize(st: Store, c: ClientID, size: Size)
    requires AllFit(st) && c in st.att.clients && ValidSize(size) && ViewOf(st.att, c) in st.index.sessions
    ensures var rec := ViewOf(st.att, c);
      FitsViewers(st.(att := SetClientSize(st.att, c, size)), rec) <==> Fits(st.index.sessions[rec].size, size)
  {
    var rec := ViewOf(st.att, c);
    var a := SetClientSize(st.att, c, size);
    assert FitsViewers(st, rec);
    assert Viewers(a.clients, rec) == Viewers(st.att.clients, rec) + {c};
    assert a.clients[c].size == size;
  }

  // ----- Every run

  lemma EventKeepsOk(w: World, e: Event)
    requires WorldOk(w) && Possible(w, e) && (e.ResizePane? ==> InStep(w, e.c))
    ensures WorldOk(After(w, e))
  {
    var st := w.store;
    match e
    case JumpTo(c, target) => JumpKeepsFit(st, c, target);
    case Open(c, key, id, created, dials) => OpenKeepsFit(st, c, key, id, created, dials);
    case DropHost(host) => HostDownKeepsFit(st, host);
    case Switch(c, id) => SwitchKeepsFit(st, w.uis[c], c, id);
    case ResizePane(c, size) => PaneResizeKeepsFitIff(w, c, size);
    case ViewStopped(c) =>
      if NextView(st, w.uis[c], c).Some? {
        SwitchKeepsFit(st, w.uis[c], c, NextView(st, w.uis[c], c).value);
      }
    case _ =>
      var t := After(w, e);
      forall id | id in t.store.index.sessions
        ensures FitsViewers(t.store, id)
      {
        assert FitsViewers(st, id);
        assert Viewers(t.store.att.clients, id) <= Viewers(st.att.clients, id);
      }
  }

  /** A run whose pane resizes all happen in step. */
  ghost predicate RunsInStep(w: World, events: seq<Event>, x: World)
    decreases |events|
  {
    if events == [] then w == x
    else Possible(w, events[0]) && (events[0].ResizePane? ==> InStep(w, events[0].c))
         && RunsInStep(After(w, events[0]), events[1..], x)
  }

  lemma {:induction false} RunKeepsOk(w: World, events: seq<Event>, x: World)
    requires WorldOk(w) && RunsInStep(w, events, x)
    ensures WorldOk(x)
    decreases |events|
  {
    if events == [] {
    } else {
      EventKeepsOk(w, events[0]);
      RunKeepsOk(After(w, events[0]), events[1..], x);
    }
  }

  /** From a server with no clients and no sessions, under smallest-wins, no run makes a live session
      larger than any viewer of it. */
  lemma NoSessionOutgrowsAViewer(status: map<HostID, HostStatus>, events: seq<Event>, x: World, id: ID, c: ClientID)
    requires RunsInStep(World(Store(NOBODY, EMPTY, status), map[]), events, x)
    requires id in x.store.index.sessions && CountsFor(x.store.att.clients, c, id)
    ensures x.store.index.sessions[id].size.rows <= x.store.att.clients[c].size.rows
    ensures x.store.index.sessions[id].size.cols <= x.store.att.clients[c].size.cols
  {
    RunKeepsOk(World(Store(NOBODY, EMPTY, status), map[]), events, x);
    assert FitsViewers(x.store, id);
  }

  /** A client that has detached is neither recorded nor anyone's driver, and the others are as they were. */
  lemma DetachMeans(w: World, c: ClientID)
    requires Possible(w, DetachUi(c))
    ensures var x := After(w, DetachUi(c));
      && c !in x.uis && c !in x.store.att.clients && x.store.index == w.store.index
      && (forall d :: d != c ==> (d in x.store.att.clients <==> d in w.store.att.clients))
      && (forall d :: d in x.store.att.clients ==> x.store.att.clients[d] == w.store.att.clients[d])
      && (forall s :: s in x.store.att.driver <==> s in w.store.att.driver && w.store.att.driver[s] != c)
  {
  }

  // ----- Falling out of step, and back into it

  lemma RenegotiateKeepsIds(st: Store, id: ID, policy: Policy)
    ensures Renegotiate(st, id, policy).index.sessions.Keys == st.index.sessions.Keys
    ensures Renegotiate(st, id, policy).att == st.att
  {
  }

  /** The interface's own switch puts it in step, whatever was the case before. */
  lemma SwitchIsInStep(w: World, c: ClientID, id: ID)
    requires c in w.uis && c in w.store.att.clients
    ensures InStep(SwitchUi(w, c, id), c)
  {
    var moved := w.store.(att := SetViewing(w.store.att, c, id));
    RenegotiateOldKeepsIds(moved, ViewOf(w.store.att, c), id, SmallestWins);
  }

  /** So does the end of the session it views, once that session is no longer registered. */
  lemma ViewStoppedIsInStep(w: World, c: ClientID)
    requires c in w.uis && c in w.store.att.clients
    requires "" !in w.store.index.sessions && w.uis[c].viewing !in w.store.index.sessions
    ensures InStep(After(w, ViewStopped(c)), c)
  {
    if NextView(w.store, w.uis[c], c).Some? {
      SwitchIsInStep(w, c, NextView(w.store, w.uis[c], c).value);
    }
  }

  /** An interface falls out of step only when the server moves its client, by a dropped host, or by a jump
      or an opened project of its own that its switch has yet to follow; or when the session it views stops
      and nothing else is running. */
  lemma OnlyMovesBreakStep(w: World, e: Event, c: ClientID)
    requires Possible(w, e) && c in w.uis && c in After(w, e).uis && (c in w.store.att.clients || e.AttachUi?)
    requires InStep(w, c) && !InStep(After(w, e), c)
    ensures e.DropHost? || ((e.JumpTo? || e.Open?) && e.c == c)
      || (e == ViewStopped(c) && FirstRunning(w.store.index).None?)
  {
    var st, t := w.store, After(w, e).store;
    match e
    case JumpTo(d, target) => JumpOfAnother(st, c, d, target);
    case Open(d, key, id, created, dials) =>
      if d != c {
        OpenByAnother(st, c, d, key, id, created, dials);
      }
    case Switch(d, id) => SwitchByAnother(w, c, d, id);
    case ViewStopped(d) =>
      if NextView(st, w.uis[d], d).Some? {
        SwitchByAnother(w, c, d, NextView(st, w.uis[d], d).value);
      }
    case ResizePane(d, size) =>
    case _ =>
  }

  lemma JumpOfAnother(st: Store, c: ClientID, d: ClientID, target: ID)
    ensures AfterJump(st, d, target, SmallestWins).index.sessions.Keys == st.index.sessions.Keys
    ensures c != d ==> ViewOf(AfterJump(st, d, target, SmallestWins).att, c) == ViewOf(st.att, c)
  {
    var moved := st.(att := SetViewing(st.att, d, target));
    RenegotiateOldKeepsIds(moved, ViewOf(st.att, d), target, SmallestWins);
    RenegotiateKeepsIds(RenegotiateOld(moved, ViewOf(st.att, d), target, SmallestWins), target, SmallestWins);
  }

  lemma OpenByAnother(st: Store, c: ClientID, d: ClientID, key: Key, id: ID, created: int, dials: bool)
    requires c != d
    ensures var t := AfterOpen(st, d, key, id, created, dials, SmallestWins);
      ViewOf(t.att, c) == ViewOf(st.att, c) && t.index.sessions.Keys <= st.index.sessions.Keys + {id}
  {
    if Find(st.index, key).Some? {
      JumpOfAnother(st, c, d, Find(st.index, key).value);
    } else {
      JumpOfAnother(WithNew(st, d, key, id, created), c, d, id);
    }
  }

  lemma SwitchByAnother(w: World, c: ClientID, d: ClientID, id: ID)
    requires c in w.uis && d in w.uis && c in w.store.att.clients && InStep(w, c)
    ensures InStep(SwitchUi(w, d, id), c)
  {
    if c == d {
      SwitchIsInStep(w, c, id);
    } else {
      var moved := w.store.(att := SetViewing(w.store.att, d, id));
      RenegotiateOldKeepsIds(moved, ViewOf(w.store.att, d), id, SmallestWins);
    }
  }

  // ----- Equality right after a move, under either policy

  /** A client that does not view a session has no part in its size. */
  lemma StrangersDoNotCount(a: Attached, c: ClientID, size: Size, id: ID, policy: Policy)
    requires ViewOf(a, c) != id
    ensures Negotiated(SetClientSize(a, c, size), id, policy) == Negotiated(a, id, policy)
  {
    var b := SetClientSize(a, c, size);
    var who := Viewers(a.clients, id);
    assert Viewers(b.clients, id) == who;
    if who != {} {
      assert forall d :: d in who ==> b.clients[d] == a.clients[d];
      assert IsSmallest(b.clients, who, Smallest(a.clients, who)) by {
        var out := Smallest(a.clients, who);
        var r :| r in who && a.clients[r].size.rows == out.rows;
        var l :| l in who && a.clients[l].size.cols == out.cols;
        assert b.clients[r].size.rows == out.rows && b.clients[l].size.cols == out.cols;
      }
      SmallestIsUnique(b.clients, who, Smallest(a.clients, who), Smallest(b.clients, who));
    }
  }

  /** After a jump the session left and the session reached both have their negotiated sizes. */
  lemma JumpIsExact(st: Store, c: ClientID, target: ID, policy: Policy)
    requires JumpOutcome(st, c, target).Done?
    ensures var t := AfterJump(st, c, target, policy);
      Exact(t, target, policy) && (ViewOf(st.att, c) != "" ==> Exact(t, ViewOf(st.att, c), policy))
  {
    var before := ViewOf(st.att, c);
    var moved := st.(att := SetViewing(st.att, c, target));
    var mid := RenegotiateOld(moved, before, target, policy);
    RenegotiateIsExact(moved, before, before, policy);
    RenegotiateIsExact(mid, target, before, policy);
  }

  /** So do they after the interface's own switch, which also records its pane's size. */
  lemma SwitchIsExact(st: Store, ui: Ui, c: ClientID, id: ID, policy: Policy)
    requires c in st.att.clients && ValidSize(ui.pane) && id != ""
    ensures var t := AfterSwitch(st, ui, c, id, policy);
      && Exact(t, id, policy)
      && (ViewOf(st.att, c) != "" ==> Exact(t, ViewOf(st.att, c), policy))
      && t.att.clients[c] == Client(id, ui.pane)
  {
    var before := ViewOf(st.att, c);
    var moved := st.(att := SetViewing(st.att, c, id));
    var mid := AfterSetViewing(st, c, id, policy);
    var sized := mid.(att := SetClientSize(mid.att, c, ui.pane));
    RenegotiateOldKeepsIds(moved, before, id, policy);
    RenegotiateIsExact(sized, id, before, policy);
    if before != "" && before != id {
      RenegotiateIsExact(moved, before, before, policy);
      StrangersDoNotCount(mid.att, c, ui.pane, before, policy);
      assert Exact(sized, before, policy);
    }
  }

  /** When a host drops, no viewer of its sessions is left exactly when there was none, or when some session
      runs and the first that does is not one of the host's own, which may still be closing. */
  lemma HostDownMovesViewersOffIff(st: Store, host: HostID, policy: Policy)
    ensures var ids := OnHost(st.index, host);
      Watching(AfterHostDown(st, host, policy).att, ids) == {} <==>
      Watching(st.att, ids) == {} || (FirstRunning(st.index).Some? && FirstRunning(st.index).value !in ids)
    ensures host in st.status ==> AfterHostDown(st, host, policy).status[host] == Down
  {
    var ids := OnHost(st.index, host);
    var who := Watching(st.att, ids);
    var t := AfterHostDown(st, host, policy);
    FirstRunningIgnoresMarks(st.index, ids);
    hide FirstRunning;
    if FirstRunning(st.index).None? {
      assert t.att == st.att;
    } else {
      var target := FirstRunning(st.index).value;
      assert who != {} ==> t.att == MoveAll(st.att, who, target);
      if c :| c in who {
        assert t.att.clients[c].viewing == target;
        assert target in ids ==> c in Watching(t.att, ids);
      }
    }
  }
}
