/** internal/server/server.go: the actions that move views and renegotiate sizes. */
module Server {
  import opened Basics
  import opened Identity
  import opened SessionIndex
  import opened Attachments

  datatype Store = Store(att: Attached, index: Index, status: map<HostID, HostStatus>)

  datatype Outcome = Done | UnknownSession | NotRunning | UnknownClient | OpenFailed

  function SetStatus(st: Store, host: HostID, s: HostStatus): Store {
    if host in st.status then st.(status := st.status[host := s]) else st
  }

  /** Compute a session's size from its viewers and apply it. */
  ghost function Renegotiate(st: Store, id: ID, policy: Policy): Store {
    match Negotiated(st.att, id, policy)
    case Some(size) => st.(index := SetSize(st.index, id, size))
    case None => st
  }

  function ViewOf(a: Attached, c: ClientID): ID {
    if c in a.clients then a.clients[c].viewing else ""
  }

  ghost function RenegotiateOld(st: Store, before: ID, id: ID, policy: Policy): Store {
    if before != "" && before != id then Renegotiate(st, before, policy) else st
  }

  ghost function JumpOutcome(st: Store, c: ClientID, target: ID): Outcome {
    if target !in st.index.sessions then UnknownSession
    else if !st.index.sessions[target].running then NotRunning
    else if c !in st.att.clients then UnknownClient
    else Done
  }

  ghost function AfterJump(st: Store, c: ClientID, target: ID, policy: Policy): Store {
    if !JumpOutcome(st, c, target).Done? then st
    else
      var moved := st.(att := SetViewing(st.att, c, target));
      Renegotiate(RenegotiateOld(moved, ViewOf(st.att, c), target, policy), target, policy)
  }

  /** The clients looking at one of these sessions. */
  function Watching(a: Attached, ids: set<ID>): set<ClientID> {
    set c | c in a.clients && a.clients[c].viewing in ids
  }

  function MoveAll(a: Attached, who: set<ClientID>, target: ID): Attached {
    a.(clients := map c | c in a.clients :: if c in who then a.clients[c].(viewing := target) else a.clients[c])
  }

  /** These clients now look at `target`, whose size follows. */
  ghost function Gather(st: Store, who: set<ClientID>, target: ID, policy: Policy): Store {
    if who == {} then st else Renegotiate(st.(att := MoveAll(st.att, who, target)), target, policy)
  }

  ghost function CloseHostDown(st: Store, host: HostID): Store {
    SetStatus(st.(index := MarkAll(st.index, OnHost(st.index, host))), host, Down)
  }

  ghost function AfterHostDown(st: Store, host: HostID, policy: Policy): Store {
    var marked := CloseHostDown(st, host);
    match FirstRunning(marked.index)
    case None => marked
    case Some(target) => Gather(marked, Watching(st.att, OnHost(st.index, host)), target, policy)
  }

  function ViewerSize(a: Attached, c: ClientID): Size {
    if c in a.clients && ValidSize(a.clients[c].size) then a.clients[c].size else Size(24, 80)
  }

  /** A session created for a client, before the client jumps to it. */
  ghost function WithNew(st: Store, c: ClientID, key: Key, id: ID, created: int): Store {
    SetStatus(st.(index := Insert(st.index, id, Rec(key, ViewerSize(st.att, c), created, true, false))), key.host, Up)
  }

  ghost function AfterOpen(st: Store, c: ClientID, key: Key, id: ID, created: int, dials: bool, policy: Policy): Store {
    if Find(st.index, key).Some? then AfterJump(st, c, Find(st.index, key).value, policy)
    else if !dials || key.host !in st.status then st
    else AfterJump(WithNew(st, c, key, id, created), c, id, policy)
  }

  // ----- The cascade's loop over clients

  lemma MoveOneMore(a: Attached, who: set<ClientID>, c: ClientID, target: ID)
    requires c in a.clients
    ensures SetViewing(MoveAll(a, who, target), c, target) == MoveAll(a, who + {c}, target)
  {
    assert SetViewing(MoveAll(a, who, target), c, target).clients == MoveAll(a, who + {c}, target).clients;
  }

  lemma ArrivalsKeepASize(a: Attached, who: set<ClientID>, c: ClientID, target: ID, policy: Policy)
    requires Negotiated(MoveAll(a, who, target), target, policy).Some?
    ensures Negotiated(MoveAll(a, who + {c}, target), target, policy).Some?
  {
    var p, q := MoveAll(a, who, target), MoveAll(a, who + {c}, target);
    FoundIffViewed(p, target, policy);
    FoundIffViewed(q, target, policy);
    assert Viewers(p.clients, target) <= Viewers(q.clients, target);
  }

  lemma SetSizeTwice(ix: Index, id: ID, a: Size, b: Size)
    ensures SetSize(SetSize(ix, id, a), id, b) == SetSize(ix, id, b)
  {
  }

  lemma MovingOneMore(st: Store, who: set<ClientID>, c: ClientID, target: ID, policy: Policy)
    requires c in st.att.clients
    ensures var g := Gather(st, who, target, policy);
      Renegotiate(g.(att := SetViewing(g.att, c, target)), target, policy) == Gather(st, who + {c}, target, policy)
  {
    var g := Gather(st, who, target, policy);
    var p, q := MoveAll(st.att, who, target), MoveAll(st.att, who + {c}, target);
    MoveOneMore(st.att, who, c, target);
    hide Negotiated, SetViewing;
    if who == {} {
      assert p.clients == st.att.clients;
    } else if Negotiated(p, target, policy).Some? {
      ArrivalsKeepASize(st.att, who, c, target, policy);
      SetSizeTwice(st.index, target, Negotiated(p, target, policy).value, Negotiated(q, target, policy).value);
    }
  }

  lemma GatherKeepsFirst(st: Store, who: set<ClientID>, target: ID, policy: Policy)
    ensures FirstRunning(Gather(st, who, target, policy).index) == FirstRunning(st.index)
  {
    var moved := st.(att := MoveAll(st.att, who, target));
    if Negotiated(moved.att, target, policy).Some? {
      FirstRunningIgnoresSize(st.index, target, Negotiated(moved.att, target, policy).value);
    }
  }

  // ----- What the operations do, field by field

  /** Only the session's size changes, to what is negotiated if anything is. */
  lemma RenegotiateMeans(st: Store, id: ID, policy: Policy)
    ensures var t, n := Renegotiate(st, id, policy), Negotiated(st.att, id, policy);
      && t.att == st.att && t.status == st.status && t.index.byKey == st.index.byKey
      && t.index.sessions ==
         if n.Some? && id in st.index.sessions then st.index.sessions[id := st.index.sessions[id].(size := n.value)]
         else st.index.sessions
  {
  }

  /** A jump is refused for an unknown session, a stopped one or an unknown client, and then does nothing. */
  lemma JumpRefusals(st: Store, c: ClientID, target: ID, policy: Policy)
    ensures JumpOutcome(st, c, target).UnknownSession? <==> target !in st.index.sessions
    ensures JumpOutcome(st, c, target).NotRunning? <==> target in st.index.sessions && !st.index.sessions[target].running
    ensures JumpOutcome(st, c, target).Done? <==>
      target in st.index.sessions && st.index.sessions[target].running && c in st.att.clients
    ensures !JumpOutcome(st, c, target).OpenFailed?
    ensures !JumpOutcome(st, c, target).Done? ==> AfterJump(st, c, target, policy) == st
  {
  }

  /** Otherwise the client views the target, every other client and the drivers stay as they were, and at most
      the sizes of the session left and the session reached change. */
  lemma JumpMeans(st: Store, c: ClientID, target: ID, policy: Policy)
    requires JumpOutcome(st, c, target).Done?
    ensures var t, before := AfterJump(st, c, target, policy), st.att.clients[c].viewing;
      && t.att.driver == st.att.driver && t.status == st.status && t.index.byKey == st.index.byKey
      && t.att.clients == st.att.clients[c := Client(target, st.att.clients[c].size)]
      && t.index.sessions.Keys == st.index.sessions.Keys
      && forall id :: id in st.index.sessions ==>
           && (id != before && id != target ==> t.index.sessions[id] == st.index.sessions[id])
           && t.index.sessions[id].(size := st.index.sessions[id].size) == st.index.sessions[id]
  {
    var moved := st.(att := SetViewing(st.att, c, target));
    var before := ViewOf(st.att, c);
    var mid := RenegotiateOld(moved, before, target, policy);
    hide Negotiated;
    RenegotiateMeans(moved, before, policy);
    RenegotiateMeans(mid, target, policy);
  }

  lemma FirstIsFirst(ix: Index, first: ID)
    requires IsFirstRunning(ix, first)
    ensures forall id :: IsFirstRunning(ix, id) <==> id == first
  {
    forall id | IsFirstRunning(ix, id)
      ensures id == first
    {
      FirstRunningIsUnique(ix, id, first);
    }
  }

  /** After a host has dropped: a client that viewed none of its sessions is as it was, and one that did views
      the first running session, when there is one. No client's size changes. */
  lemma HostDownMovesClients(st: Store, host: HostID, policy: Policy)
    ensures var a := AfterHostDown(st, host, policy).att;
      && a.driver == st.att.driver && a.clients.Keys == st.att.clients.Keys
      && (forall c :: c in st.att.clients ==> a.clients[c].size == st.att.clients[c].size)
      && (forall c :: c in st.att.clients && !IsOn(st.index, st.att.clients[c].viewing, host) ==>
            a.clients[c] == st.att.clients[c])
      && (forall c :: c in st.att.clients && IsOn(st.index, st.att.clients[c].viewing, host) ==>
            if exists first :: IsFirstRunning(st.index, first) then IsFirstRunning(st.index, a.clients[c].viewing)
            else a.clients[c] == st.att.clients[c])
  {
    var ids := OnHost(st.index, host);
    assert forall id :: id in ids <==> IsOn(st.index, id, host);
    if first :| IsFirstRunning(st.index, first) {
      HostDownWith(st, host, first, policy);
    } else {
      HostDownWithout(st, host, policy);
    }
  }

  lemma HostDownWith(st: Store, host: HostID, first: ID, policy: Policy)
    requires IsFirstRunning(st.index, first)
    ensures var marked, who := CloseHostDown(st, host), Watching(st.att, OnHost(st.index, host));
      && AfterHostDown(st, host, policy).att == MoveAll(st.att, who, first)
      && (AfterHostDown(st, host, policy) == marked
          || AfterHostDown(st, host, policy) == Renegotiate(marked.(att := MoveAll(st.att, who, first)), first, policy))
  {
    FirstRunningIgnoresMarks(st.index, OnHost(st.index, host));
    FirstRunningIs(st.index, first);
    hide Negotiated, FirstRunning;
    assert MoveAll(st.att, {}, first).clients == st.att.clients;
  }

  lemma HostDownWithout(st: Store, host: HostID, policy: Policy)
    requires forall first :: !IsFirstRunning(st.index, first)
    ensures AfterHostDown(st, host, policy) == CloseHostDown(st, host)
  {
    FirstRunningIgnoresMarks(st.index, OnHost(st.index, host));
  }

  /** What becomes of the stores besides the clients: the host, if known, is down, its sessions are marked, and
      at most the first running session's size changes. */
  lemma HostDownMarksSessions(st: Store, host: HostID, policy: Policy, id: ID)
    requires id in st.index.sessions
    ensures var t := AfterHostDown(st, host, policy);
      && t.index.byKey == st.index.byKey && t.index.sessions.Keys == st.index.sessions.Keys
      && t.status == (if host in st.status then st.status[host := Down] else st.status)
      && t.index.sessions[id].intentional == (st.index.sessions[id].intentional || IsOn(st.index, id, host))
      && t.index.sessions[id].(intentional := st.index.sessions[id].intentional, size := st.index.sessions[id].size)
         == st.index.sessions[id]
      && (!IsFirstRunning(st.index, id) ==> t.index.sessions[id].size == st.index.sessions[id].size)
  {
    var marked := CloseHostDown(st, host);
    MarkedSessions(st, host);
    if first :| IsFirstRunning(st.index, first) {
      HostDownWith(st, host, first, policy);
      RenegotiateMeans(marked.(att := MoveAll(st.att, Watching(st.att, OnHost(st.index, host)), first)), first, policy);
      hide CloseHostDown, AfterHostDown, Renegotiate, Negotiated, IsFirstRunning, OnHost;
    } else {
      HostDownWithout(st, host, policy);
      hide CloseHostDown, AfterHostDown, IsFirstRunning, OnHost;
    }
  }

  lemma MarkedSessions(st: Store, host: HostID)
    ensures var t := CloseHostDown(st, host);
      && t.att == st.att && t.index.byKey == st.index.byKey && t.index.sessions.Keys == st.index.sessions.Keys
      && t.status == (if host in st.status then st.status[host := Down] else st.status)
      && forall id :: id in st.index.sessions ==>
           t.index.sessions[id] == st.index.sessions[id].(intentional := st.index.sessions[id].intentional || IsOn(st.index, id, host))
  {
  }

  /** A session opened for a client has the client's size, or 24 by 80; it runs, is filed under its key, and its
      host is up. Nothing else changes. */
  lemma NewSessionIs(st: Store, c: ClientID, key: Key, id: ID, created: int)
    ensures var t := WithNew(st, c, key, id, created);
      && t.att == st.att && t.index.byKey == st.index.byKey[key := id]
      && t.status == (if key.host in st.status then st.status[key.host := Up] else st.status)
      && t.index.sessions.Keys == st.index.sessions.Keys + {id}
      && (forall k :: k in st.index.sessions && k != id ==> t.index.sessions[k] == st.index.sessions[k])
      && t.index.sessions[id].key == key && t.index.sessions[id].created == created
      && t.index.sessions[id].running && !t.index.sessions[id].intentional
      && t.index.sessions[id].size ==
         if c in st.att.clients && st.att.clients[c].size.rows > 0 && st.att.clients[c].size.cols > 0
         then st.att.clients[c].size else Size(24, 80)
  {
  }

  /** An open that finds a session is a jump to it; one that finds none and cannot dial does nothing. */
  lemma OpenWithoutCreating(st: Store, c: ClientID, key: Key, id: ID, created: int, dials: bool, policy: Policy)
    ensures key in st.index.byKey ==>
      AfterOpen(st, c, key, id, created, dials, policy) == AfterJump(st, c, st.index.byKey[key], policy)
    ensures key !in st.index.byKey && (!dials || key.host !in st.status) ==>
      AfterOpen(st, c, key, id, created, dials, policy) == st
  {
  }

  // ----- Selecting a project

  lemma RenegotiateKeepsViewsAndKeys(st: Store, id: ID, policy: Policy)
    ensures Renegotiate(st, id, policy).att == st.att && Renegotiate(st, id, policy).index.byKey == st.index.byKey
    ensures Renegotiate(st, id, policy).index.sessions.Keys == st.index.sessions.Keys
    ensures forall k :: k in st.index.sessions ==> Renegotiate(st, id, policy).index.sessions[k].key == st.index.sessions[k].key
  {
  }

  lemma JumpMovesTheView(st: Store, c: ClientID, target: ID, policy: Policy)
    requires JumpOutcome(st, c, target).Done?
    ensures var t := AfterJump(st, c, target, policy);
      && t.att == SetViewing(st.att, c, target)
      && t.index.byKey == st.index.byKey && t.index.sessions.Keys == st.index.sessions.Keys
      && (forall k :: k in st.index.sessions ==> t.index.sessions[k].key == st.index.sessions[k].key)
  {
    var moved := st.(att := SetViewing(st.att, c, target));
    RenegotiateKeepsViewsAndKeys(moved, ViewOf(st.att, c), policy);
    RenegotiateKeepsViewsAndKeys(RenegotiateOld(moved, ViewOf(st.att, c), target, policy), target, policy);
  }

  /** With inverse indices, an attached client that opens a project ends up viewing the one session of its
      (host, root): the session there already was, unless it has stopped running, or a new one when there
      was none and the host could be dialled. The indices stay inverse. */
  lemma OpenShowsTheProject(st: Store, c: ClientID, key: Key, id: ID, created: int, dials: bool, policy: Policy)
    requires Inverse(st.index) && c in st.att.clients && id !in st.index.sessions
    requires match Find(st.index, key)
      case Some(there) => st.index.sessions[there].running
      case None => dials && key.host in st.status
    ensures var t := AfterOpen(st, c, key, id, created, dials, policy);
      var seen := t.att.clients[c].viewing;
      && Inverse(t.index) && Find(t.index, key) == Some(seen) && seen in t.index.sessions
      && (if Find(st.index, key).Some? then Find(st.index, key) == Some(seen) && t.index.sessions.Keys == st.index.sessions.Keys
          else seen == id && t.index.sessions.Keys == st.index.sessions.Keys + {id} && t.status[key.host] == Up)
  {
    match Find(st.index, key)
    case Some(there) => JumpMovesTheView(st, c, there, policy);
    case None =>
      var with := WithNew(st, c, key, id, created);
      InsertKeepsInverseIff(st.index, id, Rec(key, ViewerSize(st.att, c), created, true, false));
      JumpMovesTheView(with, c, id, policy);
  }

  class Server {
    const att: AttachmentSet
    const mgr: Manager
    const policy: Policy
    var status: map<HostID, HostStatus>

    ghost function View(): Store
      reads this, att, mgr
    {
      Store(att.View(), mgr.View(), status)
    }

    ghost predicate Valid()
      reads this, att
    {
      att.Valid()
    }

    constructor (att: AttachmentSet, mgr: Manager, policy: Policy, hosts: set<HostID>)
      requires att.Valid()
      ensures this.att == att && this.mgr == mgr && this.policy == policy
      ensures Valid() && status.Keys == hosts
    {
      this.att, this.mgr, this.policy := att, mgr, policy;
      status := map h | h in hosts :: Unknown;
    }

    method RenegotiateSession(id: ID)
      requires Valid()
      modifies mgr`sessions
      ensures Valid() && View() == Renegotiate(old(View()), id, policy)
    {
      var size, found := att.NegotiatedSize(id, policy);
      if found {
        var _ := mgr.Resize(id, size);
      }
    }

    method Jump(c: ClientID, target: ID) returns (r: Outcome)
      requires Valid()
      modifies att`clients, mgr`sessions
      ensures Valid() && r == JumpOutcome(old(View()), c, target)
      ensures View() == AfterJump(old(View()), c, target, policy)
    {
      var rec := mgr.Get(target);
      if rec.None? {
        return UnknownSession;
      }
      if !rec.value.running {
        return NotRunning;
      }
      var previous := "";
      if c in att.clients {
        previous := att.clients[c].viewing;
      }
      var ok := att.Look(c, target);
      if !ok {
        return UnknownClient;
      }
      if previous != "" && previous != target {
        RenegotiateSession(previous);
      }
      RenegotiateSession(target);
      r := Done;
    }

    method OnHostDown(host: HostID)
      requires Valid()
      modifies this`status, att`clients, mgr`sessions
      ensures Valid() && View() == AfterHostDown(old(View()), host, policy)
      ensures att.clients.Keys == old(att.clients).Keys && att.driver == old(att.driver)
      ensures forall c :: c in att.clients ==> att.clients[c].size == old(att.clients)[c].size
      ensures forall c :: c in att.clients && !IsOn(old(mgr.View()), old(att.clients)[c].viewing, host) ==>
        att.clients[c] == old(att.clients)[c]
      ensures forall c :: c in att.clients && IsOn(old(mgr.View()), old(att.clients)[c].viewing, host) ==>
        if exists first :: IsFirstRunning(old(mgr.View()), first) then IsFirstRunning(old(mgr.View()), att.clients[c].viewing)
        else att.clients[c] == old(att.clients)[c]
    {
      hide FirstRunning, IsFirstRunning, Gather;
      ghost var was := View();
      HostDownMovesClients(was, host, policy);
      var closed := mgr.CloseHost(host);
      if host in status {
        status := status[host := Down];
      }
      MoveViewersOff(closed);
    }

    /** The cascade's loop over the clients, in whatever order they come. */
    method MoveViewersOff(closed: set<ID>)
      requires Valid()
      modifies att`clients, mgr`sessions
      ensures Valid()
      ensures match FirstRunning(old(mgr.View()))
        case None => View() == old(View())
        case Some(target) => View() == Gather(old(View()), Watching(old(att.View()), closed), target, policy)
    {
      ghost var was := View();
      ghost var watching := Watching(was.att, closed);
      var list := att.clients;
      var todo := list.Keys;
      while todo != {}
        invariant todo <= list.Keys && list == was.att.clients && Valid()
        invariant match FirstRunning(was.index)
          case None => View() == was
          case Some(target) => View() == Gather(was, watching - todo, target, policy)
        decreases todo
      {
        var c :| c in todo;
        if list[c].viewing in closed {
          if FirstRunning(was.index).Some? {
            GatherKeepsFirst(was, watching - todo, FirstRunning(was.index).value, policy);
          }
          var target := mgr.FirstOpen();
          if target.Some? {
            MovingOneMore(was, watching - todo, c, target.value, policy);
            var _ := att.Look(c, target.value);
            RenegotiateSession(target.value);
          }
          assert watching - (todo - {c}) == watching - todo + {c};
        } else {
          assert watching - (todo - {c}) == watching - todo;
        }
        todo := todo - {c};
      }
      assert watching - {} == watching;
    }

    method OpenProject(c: ClientID, key: Key, id: ID, created: int, dials: bool) returns (r: Outcome)
      requires Valid() && id !in mgr.sessions
      modifies this`status, att`clients, mgr
      ensures Valid() && View() == AfterOpen(old(View()), c, key, id, created, dials, policy)
      ensures r ==
        if Find(old(View()).index, key).Some? then JumpOutcome(old(View()), c, Find(old(View()).index, key).value)
        else if !dials || key.host !in old(status) then OpenFailed
        else if c !in old(att.clients) then UnknownClient else Done
    {
      var existing := mgr.FindSession(key);
      if existing.Some? {
        r := Jump(c, existing.value);
        return;
      }
      var size := Size(24, 80);
      if c in att.clients && ValidSize(att.clients[c].size) {
        size := att.clients[c].size;
      }
      var ok := mgr.Create(id, key, size, created, dials && key.host in status);
      if !ok {
        return OpenFailed;
      }
      status := status[key.host := Up];
      r := Jump(c, id);
    }
  }
}
