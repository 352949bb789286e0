/** Runs from an empty server in which the relations of SharedResize fail. */
module SharedResizeRuns {
  import opened Basics
  import opened Identity
  import opened SessionIndex
  import opened Attachments
  import opened Server
  import opened ConnUI
  import opened SharedResize

  /** Any run: pane resizes may come out of step. */
  ghost predicate Leads(w: World, events: seq<Event>, x: World)
    decreases |events|
  {
    if events == [] then w == x
    else Possible(w, events[0]) && Leads(After(w, events[0]), events[1..], x)
  }

  lemma {:induction false} LeadsThen(w: World, events: seq<Event>, x: World, e: Event)
    requires Leads(w, events, x) && Possible(x, e)
    ensures Leads(w, events + [e], After(x, e))
    decreases |events|
  {
    hide After, Possible;
    if events == [] {
      assert [e][1..] == [];
      assert events + [e] == [e];
    } else {
      LeadsThen(After(w, events[0]), events[1..], x, e);
      assert (events + [e])[1..] == events[1..] + [e];
    }
  }

  const FULL: Size := Size(24, 80)

  const HOSTS: map<HostID, HostStatus> := map["h" := Unknown, "k" := Unknown]

  const FRESH: World := World(Store(NOBODY, EMPTY, HOSTS), map[])

  /** One client, recorded at `viewing` and whose interface is there too. */
  function OneClient(viewing: ID, index: Index, status: map<HostID, HostStatus>): World {
    World(Store(Attached(map["c" := Client(viewing, FULL)], map[]), index, status), map["c" := Ui(viewing, FULL)])
  }

  ghost predicate AllFull(st: Store) {
    && (forall c :: c in st.att.clients ==> st.att.clients[c].size == FULL)
    && (forall id :: id in st.index.sessions ==> id != "" && st.index.sessions[id].size == FULL)
  }

  lemma NothingToNegotiate(st: Store, id: ID)
    requires AllFull(st)
    ensures Renegotiate(st, id, SmallestWins) == st
  {
    var who := Viewers(st.att.clients, id);
    if c :| c in who {
      assert IsSmallest(st.att.clients, who, FULL);
      SmallestIsUnique(st.att.clients, who, FULL, Smallest(st.att.clients, who));
      assert SetSize(st.index, id, FULL).sessions == st.index.sessions;
    }
  }

  function NewRec(key: Key, created: int): Rec { Rec(key, FULL, created, true, false) }

  /** The client opens a project that has no session yet, and its interface follows. */
  lemma OpenAndSwitch(events: seq<Event>, viewing: ID, index: Index, status: map<HostID, HostStatus>, key: Key, id: ID, created: int)
    requires Leads(FRESH, events, OneClient(viewing, index, status)) && AllFull(OneClient(viewing, index, status).store)
    requires id != "" && id !in index.sessions && viewing != id && key !in index.byKey && key.host in status
    ensures var x := OneClient(id, Insert(index, id, NewRec(key, created)), status[key.host := Up]);
      AllFull(x.store) && Leads(FRESH, events + [Open("c", key, id, created, true)] + [Switch("c", id)], x)
  {
    var w := OneClient(viewing, index, status);
    var e := Open("c", key, id, created, true);
    OpenedAt(viewing, index, status, key, id, created);
    LeadsThen(FRESH, events, w, e);
    var mid := After(w, e);
    SwitchedAt(mid, id);
    assert After(mid, Switch("c", id)).uis == map["c" := Ui(id, FULL)];
    hide After;
    LeadsThen(FRESH, events + [e], mid, Switch("c", id));
  }

  lemma OpenedAt(viewing: ID, index: Index, status: map<HostID, HostStatus>, key: Key, id: ID, created: int)
    requires var w := OneClient(viewing, index, status);
      AllFull(w.store) && Possible(w, Open("c", key, id, created, true)) && key !in index.byKey && key.host in status
    ensures var w := OneClient(viewing, index, status);
      After(w, Open("c", key, id, created, true)) ==
      w.(store := OneClient(id, Insert(index, id, NewRec(key, created)), status[key.host := Up]).store)
  {
    var w := OneClient(viewing, index, status);
    var with := WithNew(w.store, "c", key, id, created);
    assert with.index == Insert(index, id, NewRec(key, created));
    var moved := with.(att := SetViewing(with.att, "c", id));
    assert moved.att.clients == map["c" := Client(id, FULL)];
    NothingToNegotiate(moved, viewing);
    NothingToNegotiate(moved, id);
  }

  lemma SwitchedAt(w: World, id: ID)
    requires "c" in w.uis && w.uis["c"].pane == FULL && AllFull(w.store) && id != ""
    requires w.store.att.clients == map["c" := Client(id, FULL)]
    ensures After(w, Switch("c", id)) == w.(uis := w.uis["c" := Ui(id, FULL)])
  {
    var st := w.store;
    assert SetViewing(st.att, "c", id).clients == st.att.clients;
    assert SetClientSize(st.att, "c", FULL).clients == st.att.clients;
    NothingToNegotiate(st, id);
  }

  /** A session nobody views any more ends. */
  lemma SessionEnds(events: seq<Event>, viewing: ID, index: Index, status: map<HostID, HostStatus>, id: ID)
    requires Leads(FRESH, events, OneClient(viewing, index, status)) && id in index.sessions
    ensures Leads(FRESH, events + [StopSession(id)] + [EndSession(id)],
                  OneClient(viewing, SessionIndex.Forget(index, id, index.sessions[id].key), status))
  {
    var w := OneClient(viewing, index, status);
    LeadsThen(FRESH, events, w, StopSession(id));
    LeadsThen(FRESH, events + [StopSession(id)], After(w, StopSession(id)), EndSession(id));
    assert SetStopped(index, id).sessions - {id} == index.sessions - {id};
  }

  lemma Attaches() returns (events: seq<Event>)
    ensures Leads(FRESH, events, OneClient("", EMPTY, HOSTS)) && AllFull(OneClient("", EMPTY, HOSTS).store)
  {
    assert Leads(FRESH, [], FRESH);
    LeadsThen(FRESH, [], FRESH, AttachUi("c", FULL));
    events := [] + [AttachUi("c", FULL)];
  }

  lemma AllFullFits(st: Store)
    requires AllFull(st)
    ensures AllFit(st)
  {
    assert forall id :: id in st.index.sessions ==> FitsViewers(st, id);
  }

  /** A dropped host, once one of its sessions has ended: the client's record moves to the first running
      session, its interface stays where it is, and no size changes. */
  lemma DroppedAt(viewing: ID, index: Index, status: map<HostID, HostStatus>, host: HostID, target: ID)
    requires AllFull(OneClient(viewing, index, status).store) && host in status
    requires viewing in OnHost(index, host) && IsFirstRunning(index, target)
    ensures var x := After(OneClient(viewing, index, status), DropHost(host));
      && x.uis == map["c" := Ui(viewing, FULL)] && AllFull(x.store)
      && x.store.att.clients == map["c" := Client(target, FULL)]
      && x.store.index.sessions.Keys == index.sessions.Keys
  {
    var st := OneClient(viewing, index, status).store;
    var ids := OnHost(index, host);
    var marked := CloseHostDown(st, host);
    FirstRunningIs(index, target);
    FirstRunningIgnoresMarks(index, ids);
    assert "c" in Watching(st.att, ids);
    var moved := marked.(att := MoveAll(st.att, Watching(st.att, ids), target));
    assert moved.att.clients == map["c" := Client(target, FULL)];
    NothingToNegotiate(moved, target);
  }

  const B: Key := Key("k", "/b")
  const X: Key := Key("h", "/x")
  const A: Key := Key("h", "/a")

  /** On host h, session x and then session a are opened, and x drops. */
  lemma XDrops(events: seq<Event>, viewing: ID, index: Index, status: map<HostID, HostStatus>)
    returns (more: seq<Event>, ix: Index, st: map<HostID, HostStatus>)
    requires Leads(FRESH, events, OneClient(viewing, index, status)) && AllFull(OneClient(viewing, index, status).store)
    requires viewing !in {"x", "a"} && index.sessions.Keys !! {"x", "a"} && index.byKey.Keys !! {X, A}
    requires "h" in status
    ensures Leads(FRESH, more, OneClient("a", ix, st)) && AllFull(OneClient("a", ix, st).store)
    ensures st.Keys == status.Keys && ix.sessions == index.sessions["a" := NewRec(A, 2)]
  {
    hide Leads, AllFull, OneClient;
    OpenAndSwitch(events, viewing, index, status, X, "x", 1);
    more := events + [Open("c", X, "x", 1, true)] + [Switch("c", "x")];
    ix, st := Insert(index, "x", NewRec(X, 1)), status["h" := Up];
    OpenAndSwitch(more, "x", ix, st, A, "a", 2);
    more := more + [Open("c", A, "a", 2, true)] + [Switch("c", "a")];
    ix, st := Insert(ix, "a", NewRec(A, 2)), st["h" := Up];
    SessionEnds(more, "a", ix, st, "x");
    FewerAreFull("a", ix, st, "x");
    more := more + [StopSession("x")] + [EndSession("x")];
    ix := SessionIndex.Forget(ix, "x", X);
  }

  lemma FewerAreFull(viewing: ID, index: Index, status: map<HostID, HostStatus>, id: ID)
    requires AllFull(OneClient(viewing, index, status).store) && id in index.sessions
    ensures AllFull(OneClient(viewing, SessionIndex.Forget(index, id, index.sessions[id].key), status).store)
  {
  }

  /** The same with session b on host k before, or with no other host in use. */
  lemma HostDrops(withB: bool) returns (events: seq<Event>, index: Index, status: map<HostID, HostStatus>)
    ensures Leads(FRESH, events, OneClient("a", index, status)) && AllFull(OneClient("a", index, status).store)
    ensures status.Keys == {"h", "k"} && OnHost(index, "h") == {"a"}
    ensures index.sessions == if withB then map["b" := NewRec(B, 0), "a" := NewRec(A, 2)] else map["a" := NewRec(A, 2)]
  {
    hide Leads, AllFull, OneClient;
    var start := Attaches();
    if withB {
      OpenAndSwitch(start, "", EMPTY, HOSTS, B, "b", 0);
      start := start + [Open("c", B, "b", 0, true)] + [Switch("c", "b")];
      events, index, status := XDrops(start, "b", Insert(EMPTY, "b", NewRec(B, 0)), HOSTS["k" := Up]);
    } else {
      events, index, status := XDrops(start, "", EMPTY, HOSTS);
    }
  }

  /** A run out of step: a dropped host moves the record, not the interface, and the next pane resize is
      charged to the wrong session. */
  lemma HostDownThenResizeBreaksFit() returns (events: seq<Event>, x: World, size: Size)
    ensures Leads(FRESH, events, x) && AllFit(x.store)
    ensures Possible(x, ResizePane("c", size)) && !AllFit(After(x, ResizePane("c", size)).store)
  {
    hide Leads, AfterPaneResize, FitsViewers, Viewers;
    var index, status;
    events, index, status := HostDrops(true);
    var w := OneClient("a", index, status);
    assert IsFirstRunning(index, "b");
    DroppedAt("a", index, status, "h", "b");
    LeadsThen(FRESH, events, w, DropHost("h"));
    events, x, size := events + [DropHost("h")], After(w, DropHost("h")), Size(10, 40);
    AllFullFits(x.store);
    PaneResizeKeepsFitIff(x, "c", size);
  }

  /** A run in which the viewers of a dropped host stay on it: its other session is still closing, and comes
      first among the running ones. */
  lemma HostDownCanKeepViewers() returns (events: seq<Event>, x: World)
    ensures Leads(FRESH, events, x) && Possible(x, DropHost("h"))
    ensures var t := After(x, DropHost("h")).store;
      OnHost(x.store.index, "h") == {"a"} && Watching(t.att, {"a"}) == {"c"} && "h" in t.status && t.status["h"] == Down
  {
    hide Leads;
    var index, status;
    events, index, status := HostDrops(false);
    x := OneClient("a", index, status);
    assert IsFirstRunning(index, "a");
    DroppedAt("a", index, status, "h", "a");
    HostDownMovesViewersOffIff(x.store, "h", SmallestWins);
    assert "h" in status.Keys;
  }

  /** So do they when nothing is running any more. */
  lemma HostDownWithNothingRunning() returns (events: seq<Event>, x: World)
    ensures Leads(FRESH, events, x) && Possible(x, DropHost("h"))
    ensures Watching(After(x, DropHost("h")).store.att, OnHost(x.store.index, "h")) != {}
  {
    hide Leads;
    var index, status;
    events, index, status := HostDrops(false);
    var w := OneClient("a", index, status);
    LeadsThen(FRESH, events, w, StopSession("a"));
    events, x := events + [StopSession("a")], After(w, StopSession("a"));
    assert forall id :: !Running(x.store.index, id);
    assert "c" in Watching(x.store.att, OnHost(x.store.index, "h"));
    HostDownMovesViewersOffIff(x.store, "h", SmallestWins);
  }
}
