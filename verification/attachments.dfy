/** internal/attach/attachments.go: who is attached, what each client views, and the negotiated size. */
module Attachments {
  import opened Basics
  import opened Identity
  import opened SessionIndex

  type ClientID = string

  datatype Client = Client(viewing: ID, size: Size)

  datatype Policy = SmallestWins | Driver

  datatype Attached = Attached(clients: map<ClientID, Client>, driver: map<ID, ClientID>)

  const NOBODY: Attached := Attached(map[], map[])

  predicate ValidSize(s: Size) { s.rows > 0 && s.cols > 0 }

  predicate Fits(inner: Size, outer: Size) { inner.rows <= outer.rows && inner.cols <= outer.cols }

  /** The clients whose size counts for session s. */
  function Viewers(clients: map<ClientID, Client>, s: ID): set<ClientID> {
    set c | c in clients && clients[c].viewing == s && ValidSize(clients[c].size)
  }

  // ----- The smallest size of some clients

  /** Within every client's size, and attained in each dimension by one of them. */
  ghost predicate IsSmallest(clients: map<ClientID, Client>, who: set<ClientID>, out: Size)
    requires who <= clients.Keys
  {
    && (forall c :: c in who ==> Fits(out, clients[c].size))
    && (exists c :: c in who && clients[c].size.rows == out.rows)
    && (exists c :: c in who && clients[c].size.cols == out.cols)
  }

  function Meet(a: Size, b: Size): Size {
    Size(Min(a.rows, b.rows), Min(a.cols, b.cols))
  }

  lemma SmallestOfOne(clients: map<ClientID, Client>, c: ClientID)
    requires c in clients
    ensures IsSmallest(clients, {c}, clients[c].size)
  {
    assert c in {c};
  }

  lemma SmallestWithOneMore(clients: map<ClientID, Client>, who: set<ClientID>, out: Size, c: ClientID)
    requires who <= clients.Keys && c in clients && IsSmallest(clients, who, out)
    ensures IsSmallest(clients, who + {c}, Meet(out, clients[c].size))
  {
    var r :| r in who && clients[r].size.rows == out.rows;
    var l :| l in who && clients[l].size.cols == out.cols;
    assert r in who + {c} && l in who + {c} && c in who + {c};
  }

  lemma SmallestExists(clients: map<ClientID, Client>, who: set<ClientID>)
    requires who <= clients.Keys && who != {}
    ensures exists out :: IsSmallest(clients, who, out)
  {
    var c :| c in who;
    if who == {c} {
      SmallestOfOne(clients, c);
    } else {
      SmallestExists(clients, who - {c});
      var out :| IsSmallest(clients, who - {c}, out);
      SmallestWithOneMore(clients, who - {c}, out, c);
      assert who - {c} + {c} == who;
    }
  }

  lemma SmallestIsUnique(clients: map<ClientID, Client>, who: set<ClientID>, a: Size, b: Size)
    requires who <= clients.Keys && IsSmallest(clients, who, a) && IsSmallest(clients, who, b)
    ensures a == b
  {
  }

  ghost function Smallest(clients: map<ClientID, Client>, who: set<ClientID>): (out: Size)
    requires who <= clients.Keys && who != {}
    ensures IsSmallest(clients, who, out)
  {
    SmallestExists(clients, who);
    var out :| IsSmallest(clients, who, out);
    out
  }

  /** The greatest size that fits every one of them. */
  lemma SmallestIsGreatestLowerBound(clients: map<ClientID, Client>, who: set<ClientID>, z: Size)
    requires who <= clients.Keys && who != {}
    ensures Fits(z, Smallest(clients, who)) <==> forall c :: c in who ==> Fits(z, clients[c].size)
  {
    var out := Smallest(clients, who);
    if forall c :: c in who ==> Fits(z, clients[c].size) {
      var r :| r in who && clients[r].size.rows == out.rows;
      var l :| l in who && clients[l].size.cols == out.cols;
    }
  }

  // ----- Negotiation

  /** The driver, when it is attached, views the session and has a usable size. */
  predicate DriverUsable(a: Attached, s: ID) {
    s in a.driver && a.driver[s] in a.clients
    && a.clients[a.driver[s]].viewing == s && ValidSize(a.clients[a.driver[s]].size)
  }

  ghost function Negotiated(a: Attached, s: ID, policy: Policy): Option<Size> {
    if policy.Driver? && DriverUsable(a, s) then Some(a.clients[a.driver[s]].size)
    else if Viewers(a.clients, s) == {} then None
    else Some(Smallest(a.clients, Viewers(a.clients, s)))
  }

  /** Under either policy a size is found exactly when some viewer's size counts. */
  lemma FoundIffViewed(a: Attached, s: ID, policy: Policy)
    ensures Negotiated(a, s, policy).Some? <==> Viewers(a.clients, s) != {}
  {
    if DriverUsable(a, s) {
      assert a.driver[s] in Viewers(a.clients, s);
    }
  }

  /** A further viewer can only shrink the smallest size, and the result is the meet of both. */
  lemma JoiningShrinks(a: Attached, s: ID, c: ClientID, size: Size)
    requires c !in a.clients && ValidSize(size) && Viewers(a.clients, s) != {}
    ensures var b := a.(clients := a.clients[c := Client(s, size)]);
      Negotiated(b, s, SmallestWins) == Some(Meet(Negotiated(a, s, SmallestWins).value, size))
  {
    var b := a.clients[c := Client(s, size)];
    var out := Smallest(a.clients, Viewers(a.clients, s));
    assert Viewers(b, s) == Viewers(a.clients, s) + {c};
    assert IsSmallest(b, Viewers(a.clients, s), out) by {
      var r :| r in Viewers(a.clients, s) && a.clients[r].size.rows == out.rows;
      var l :| l in Viewers(a.clients, s) && a.clients[l].size.cols == out.cols;
      assert b[r] == a.clients[r] && b[l] == a.clients[l];
    }
    SmallestWithOneMore(b, Viewers(a.clients, s), out, c);
    SmallestIsUnique(b, Viewers(b, s), Smallest(b, Viewers(b, s)), Meet(out, size));
  }

  /** An attached client that views s and has a size. */
  predicate CountsFor(clients: map<ClientID, Client>, c: ClientID, s: ID) {
    c in clients && clients[c].viewing == s && clients[c].size.rows > 0 && clients[c].size.cols > 0
  }

  /** What is negotiated: a usable driver's own size under Driver; otherwise, and always under smallest-wins,
      the smallest rows and the smallest columns of the clients that count. */
  lemma NegotiatedMeans(a: Attached, s: ID, policy: Policy)
    ensures var n := Negotiated(a, s, policy);
      && (n.Some? <==> exists c :: CountsFor(a.clients, c, s))
      && (if policy.Driver? && s in a.driver && CountsFor(a.clients, a.driver[s], s) then n == Some(a.clients[a.driver[s]].size)
          else n.Some? ==>
            && (forall c :: CountsFor(a.clients, c, s) ==> n.value.rows <= a.clients[c].size.rows && n.value.cols <= a.clients[c].size.cols)
            && (exists c :: CountsFor(a.clients, c, s) && n.value.rows == a.clients[c].size.rows)
            && (exists c :: CountsFor(a.clients, c, s) && n.value.cols == a.clients[c].size.cols))
  {
    assert forall c :: c in Viewers(a.clients, s) <==> CountsFor(a.clients, c, s);
    if !(policy.Driver? && s in a.driver && CountsFor(a.clients, a.driver[s], s)) && Viewers(a.clients, s) != {} {
      var who := Viewers(a.clients, s);
      var out := Smallest(a.clients, who);
      var r :| r in who && a.clients[r].size.rows == out.rows;
      var l :| l in who && a.clients[l].size.cols == out.cols;
      assert CountsFor(a.clients, r, s) && CountsFor(a.clients, l, s);
    }
  }

  /** Where the designated client cannot be used, both policies agree. */
  lemma DriverFallsBack(a: Attached, s: ID)
    requires !(s in a.driver && CountsFor(a.clients, a.driver[s], s))
    ensures Negotiated(a, s, Driver) == Negotiated(a, s, SmallestWins)
  {
  }

  // ----- The operations

  function SetViewing(a: Attached, c: ClientID, s: ID): Attached {
    if c in a.clients then a.(clients := a.clients[c := a.clients[c].(viewing := s)]) else a
  }

  function SetClientSize(a: Attached, c: ClientID, size: Size): Attached {
    if c in a.clients then a.(clients := a.clients[c := a.clients[c].(size := size)]) else a
  }

  function Detach(a: Attached, c: ClientID): Attached {
    Attached(a.clients - {c}, map s | s in a.driver && a.driver[s] != c :: a.driver[s])
  }

  /** A designated driver is an attached client. */
  ghost predicate DriversAttached(a: Attached) {
    forall s :: s in a.driver ==> a.driver[s] in a.clients
  }

  class AttachmentSet {
    var clients: map<ClientID, Client>
    var driver: map<ID, ClientID>

    ghost function View(): Attached
      reads this
    {
      Attached(clients, driver)
    }

    ghost predicate Valid()
      reads this
    {
      DriversAttached(View())
    }

    constructor ()
      ensures Valid() && View() == NOBODY
    {
      clients, driver := map[], map[];
    }

    method Attach(c: ClientID, client: Client) returns (ok: bool)
      requires Valid()
      modifies this`clients
      ensures Valid() && ok == (c != "" && c !in old(clients))
      ensures View() == if ok then old(View()).(clients := old(clients)[c := client]) else old(View())
    {
      if c == "" || c in clients {
        return false;
      }
      clients := clients[c := client];
      ok := true;
    }

    method DetachClient(c: ClientID) returns (ok: bool)
      requires Valid()
      modifies this
      ensures Valid() && ok == (c in old(clients))
      ensures View() == if ok then Detach(old(View()), c) else old(View())
      ensures c !in clients && forall d :: d != c ==> (d in clients <==> d in old(clients)) && (d in clients ==> clients[d] == old(clients)[d])
      ensures forall s :: s in driver <==> s in old(driver) && (ok ==> old(driver)[s] != c)
      ensures forall s :: s in driver ==> driver[s] == old(driver)[s]
    {
      if c !in clients {
        return false;
      }
      clients := clients - {c};
      var todo := driver.Keys;
      while todo != {}
        invariant todo <= old(driver).Keys
        invariant driver == map s | s in old(driver) && (s in todo || old(driver)[s] != c) :: old(driver)[s]
        invariant clients == old(clients) - {c}
        decreases todo
      {
        var s :| s in todo;
        if driver[s] == c {
          driver := driver - {s};
        }
        todo := todo - {s};
      }
      ok := true;
    }

    method Look(c: ClientID, s: ID) returns (ok: bool)
      requires Valid()
      modifies this`clients
      ensures Valid() && ok == (c in old(clients)) && View() == SetViewing(old(View()), c, s)
      ensures ok ==> clients == old(clients)[c := Client(s, old(clients)[c].size)]
    {
      if c !in clients {
        return false;
      }
      clients := clients[c := clients[c].(viewing := s)];
      ok := true;
    }

    method SetSize(c: ClientID, size: Size) returns (ok: bool)
      requires Valid()
      modifies this`clients
      ensures Valid() && ok == (c in old(clients)) && View() == SetClientSize(old(View()), c, size)
      ensures ok ==> clients == old(clients)[c := Client(old(clients)[c].viewing, size)]
    {
      if c !in clients {
        return false;
      }
      clients := clients[c := clients[c].(size := size)];
      ok := true;
    }

    method SetDriver(s: ID, c: ClientID) returns (ok: bool)
      requires Valid()
      modifies this`driver
      ensures Valid() && ok == (c in clients)
      ensures driver == if ok then old(driver)[s := c] else old(driver)
    {
      if c !in clients {
        return false;
      }
      driver := driver[s := c];
      ok := true;
    }

    method NegotiatedSize(s: ID, policy: Policy) returns (out: Size, found: bool)
      ensures found <==> Negotiated(View(), s, policy).Some?
      ensures found ==> out == Negotiated(View(), s, policy).value
      ensures found <==> exists c :: CountsFor(clients, c, s)
      ensures found && policy.Driver? && s in driver && CountsFor(clients, driver[s], s) ==> out == clients[driver[s]].size
      ensures found && !(policy.Driver? && s in driver && CountsFor(clients, driver[s], s)) ==>
        && (forall c :: CountsFor(clients, c, s) ==> out.rows <= clients[c].size.rows && out.cols <= clients[c].size.cols)
        && (exists c :: CountsFor(clients, c, s) && out.rows == clients[c].size.rows)
        && (exists c :: CountsFor(clients, c, s) && out.cols == clients[c].size.cols)
    {
      NegotiatedMeans(View(), s, policy);
      if policy.Driver? && s in driver {
        var drv := driver[s];
        if drv in clients && clients[drv].viewing == s && ValidSize(clients[drv].size) {
          return clients[drv].size, true;
        }
      }
      out, found := Size(0, 0), false;
      ghost var viewers := Viewers(clients, s);
      var todo := clients.Keys;
      while todo != {}
        invariant todo <= clients.Keys
        invariant found <==> viewers - todo != {}
        invariant found ==> IsSmallest(clients, viewers - todo, out)
        decreases todo
      {
        var c :| c in todo;
        var size := clients[c].size;
        if clients[c].viewing == s && ValidSize(size) {
          assert viewers - (todo - {c}) == viewers - todo + {c};
          if !found {
            SmallestOfOne(clients, c);
            assert viewers - (todo - {c}) == {c};
            out, found := size, true;
          } else {
            SmallestWithOneMore(clients, viewers - todo, out, c);
            if size.rows < out.rows {
              out := out.(rows := size.rows);
            }
            if size.cols < out.cols {
              out := out.(cols := size.cols);
            }
          }
        } else {
          assert viewers - (todo - {c}) == viewers - todo;
        }
        todo := todo - {c};
      }
      assert viewers - {} == viewers;
      if found {
        SmallestIsUnique(clients, viewers, out, Smallest(clients, viewers));
      }
    }
  }
}
