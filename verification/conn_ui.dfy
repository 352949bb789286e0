/** internal/tui/tui.go: how one interface's view and pane size reach the shared stores. */
module ConnUI {
  import opened Basics
  import opened Identity
  import opened SessionIndex
  import opened Attachments
  import opened Server

  /** The interface's own idea of what it views, and its pane's size in cells. */
  datatype Ui = Ui(viewing: ID, pane: Size)

  /** onPaneResize: record the client's size, then renegotiate the session the interface views. */
  ghost function AfterPaneResize(st: Store, viewing: ID, c: ClientID, size: Size, policy: Policy): Store {
    if !ValidSize(size) then st
    else
      var sized := st.(att := SetClientSize(st.att, c, size));
      if viewing == "" then sized else Renegotiate(sized, viewing, policy)
  }

  /** setClientViewing: move the client's record and let the session it left renegotiate. */
  ghost function AfterSetViewing(st: Store, c: ClientID, id: ID, policy: Policy): Store {
    RenegotiateOld(st.(att := SetViewing(st.att, c, id)), ViewOf(st.att, c), id, policy)
  }

  ghost function AfterSwitch(st: Store, ui: Ui, c: ClientID, id: ID, policy: Policy): Store {
    AfterPaneResize(AfterSetViewing(st, c, id, policy), id, c, ui.pane, policy)
  }

  /** onViewStopped: where the interface goes when the session it views ends. */
  ghost function NextView(st: Store, ui: Ui, c: ClientID): Option<ID> {
    if ViewOf(st.att, c) != "" && ViewOf(st.att, c) != ui.viewing then Some(ViewOf(st.att, c))
    else FirstRunning(st.index)
  }

  /** A usable pane size is recorded for the client, and at most the viewed session's size follows. */
  lemma PaneResizeMeans(st: Store, viewing: ID, c: ClientID, size: Size, policy: Policy)
    ensures var t := AfterPaneResize(st, viewing, c, size, policy);
      && (size.rows == 0 || size.cols == 0 ==> t == st)
      && t.att.driver == st.att.driver && t.status == st.status && t.index.byKey == st.index.byKey
      && t.att.clients ==
         (if c in st.att.clients && size.rows > 0 && size.cols > 0
          then st.att.clients[c := Client(st.att.clients[c].viewing, size)] else st.att.clients)
      && t.index.sessions.Keys == st.index.sessions.Keys
      && forall id :: id in st.index.sessions ==>
           && (id != viewing ==> t.index.sessions[id] == st.index.sessions[id])
           && t.index.sessions[id].(size := st.index.sessions[id].size) == st.index.sessions[id]
  {
    var sized := st.(att := SetClientSize(st.att, c, size));
    hide Negotiated;
    RenegotiateMeans(sized, viewing, policy);
  }

  /** A switch points the client's record at the session and gives it the pane's size; other clients, drivers and
      sessions are as they were, but for the sizes of the session left and the session reached. */
  lemma SwitchMeans(st: Store, ui: Ui, c: ClientID, id: ID, policy: Policy)
    requires ValidSize(ui.pane)
    ensures var t := AfterSwitch(st, ui, c, id, policy);
      && t.att.driver == st.att.driver && t.status == st.status && t.index.byKey == st.index.byKey
      && t.att.clients == (if c in st.att.clients then st.att.clients[c := Client(id, ui.pane)] else st.att.clients)
      && t.index.sessions.Keys == st.index.sessions.Keys
      && forall k :: k in st.index.sessions ==>
           && (k != id && k != ViewOf(st.att, c) ==> t.index.sessions[k] == st.index.sessions[k])
           && t.index.sessions[k].(size := st.index.sessions[k].size) == st.index.sessions[k]
  {
    var before := ViewOf(st.att, c);
    var moved := st.(att := SetViewing(st.att, c, id));
    var mid := AfterSetViewing(st, c, id, policy);
    RenegotiateMeans(moved, before, policy);
    hide Renegotiate, Negotiated, AfterPaneResize;
    PaneResizeMeans(mid, id, c, ui.pane, policy);
  }

  class Interface {
    const srv: Server
    const id: ClientID
    var viewing: ID
    var pane: Size

    ghost function View(): Ui
      reads this
    {
      Ui(viewing, pane)
    }

    ghost predicate Valid()
      reads this, srv, srv.att
    {
      srv.Valid() && ValidSize(pane)
    }

    /** Handle: attach with the pane's size and no view. */
    constructor (srv: Server, id: ClientID, pane: Size)
      requires srv.Valid() && ValidSize(pane)
      modifies srv.att`clients
      ensures this.srv == srv && this.id == id && Valid() && View() == Ui("", pane)
      ensures srv.View() ==
        if id != "" && id !in old(srv.att.clients)
        then old(srv.View()).(att := old(srv.att.View()).(clients := old(srv.att.clients)[id := Client("", pane)]))
        else old(srv.View())
    {
      this.srv, this.id, this.viewing, this.pane := srv, id, "", pane;
      new;
      var _ := srv.att.Attach(id, Client("", pane));
    }

    method OnPaneResize(size: Size)
      requires Valid()
      modifies srv.att`clients, srv.mgr`sessions
      ensures Valid() && View() == old(View())
      ensures srv.View() == AfterPaneResize(old(srv.View()), viewing, id, size, srv.policy)
    {
      if size.cols <= 0 || size.rows <= 0 {
        return;
      }
      var _ := srv.att.SetSize(id, size);
      if viewing != "" {
        srv.RenegotiateSession(viewing);
      }
    }

    /** pane.Layout: only a change of size is passed on. */
    method Layout(size: Size)
      requires Valid()
      modifies this`pane, srv.att`clients, srv.mgr`sessions
      ensures Valid() && viewing == old(viewing)
      ensures pane == if ValidSize(size) then size else old(pane)
      ensures srv.View() == if size == old(pane) then old(srv.View())
        else AfterPaneResize(old(srv.View()), viewing, id, size, srv.policy)
    {
      if size != pane && ValidSize(size) {
        pane := size;
        OnPaneResize(size);
      }
    }

    method SwitchView(target: ID)
      requires Valid()
      modifies this`viewing, srv.att`clients, srv.mgr`sessions
      ensures Valid() && View() == old(View()).(viewing := target)
      ensures srv.View() == AfterSwitch(old(srv.View()), old(View()), id, target, srv.policy)
    {
      viewing := target;
      var before := "";
      if id in srv.att.clients {
        before := srv.att.clients[id].viewing;
      }
      var _ := srv.att.Look(id, target);
      if before != "" && before != target {
        srv.RenegotiateSession(before);
      }
      OnPaneResize(pane);
    }

    method OnViewStopped()
      requires Valid()
      modifies this`viewing, srv.att`clients, srv.mgr`sessions
      ensures Valid() && pane == old(pane)
      ensures var moved := id in old(srv.att.clients) && old(srv.att.clients)[id].viewing !in {"", old(viewing)};
        && (moved ==> viewing == old(srv.att.clients)[id].viewing)
        && (!moved && (exists first :: IsFirstRunning(old(srv.mgr.View()), first)) ==>
              IsFirstRunning(old(srv.mgr.View()), viewing))
        && (!moved && !(exists first :: IsFirstRunning(old(srv.mgr.View()), first)) ==> viewing == "")
      ensures match NextView(old(srv.View()), old(View()), id)
        case None => viewing == "" && srv.View() == old(srv.View())
        case Some(next) =>
          viewing == next && srv.View() == AfterSwitch(old(srv.View()), old(View()), id, next, srv.policy)
    {
      if id in srv.att.clients && srv.att.clients[id].viewing != "" && srv.att.clients[id].viewing != viewing {
        SwitchView(srv.att.clients[id].viewing);
        return;
      }
      var first := srv.mgr.FirstOpen();
      if first.Some? {
        SwitchView(first.value);
        return;
      }
      viewing := "";
    }
  }
}
