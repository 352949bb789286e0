/** internal/session/manager.go: the manager's two indices, sessions by id and ids by (host, root). */
module SessionIndex {
  import opened Basics
  import opened Identity
  import Strings

  type uint16 = n: int | 0 <= n < 0x1_0000

  datatype Size = Size(rows: uint16, cols: uint16)

  datatype Rec = Rec(key: Key, size: Size, created: int, running: bool, intentional: bool)

  datatype Index = Index(sessions: map<ID, Rec>, byKey: map<Key, ID>)

  const EMPTY: Index := Index(map[], map[])

  /** Create's critical section. */
  function Insert(ix: Index, id: ID, rec: Rec): Index {
    Index(ix.sessions[id := rec], ix.byKey[rec.key := id])
  }

  /** finalize's critical section: byKey loses the key whichever session holds it. */
  function Forget(ix: Index, id: ID, key: Key): Index {
    Index(ix.sessions - {id}, ix.byKey - {key})
  }

  function Find(ix: Index, key: Key): Option<ID> {
    if key in ix.byKey then Some(ix.byKey[key]) else None
  }

  function SetSize(ix: Index, id: ID, size: Size): Index {
    if id in ix.sessions then ix.(sessions := ix.sessions[id := ix.sessions[id].(size := size)]) else ix
  }

  /** finalize closes the session before it takes it out of the maps. */
  function SetStopped(ix: Index, id: ID): Index {
    if id in ix.sessions then ix.(sessions := ix.sessions[id := ix.sessions[id].(running := false)]) else ix
  }

  /** A session on this host. */
  predicate IsOn(ix: Index, id: ID, host: HostID) {
    id in ix.sessions && ix.sessions[id].key.host == host
  }

  /** Stopping a session changes nothing but its state. */
  lemma SetStoppedMeans(ix: Index, id: ID)
    ensures var t := SetStopped(ix, id);
      && t.byKey == ix.byKey && t.sessions.Keys == ix.sessions.Keys
      && forall k :: k in ix.sessions ==>
           t.sessions[k].(running := ix.sessions[k].running) == ix.sessions[k]
           && t.sessions[k].running == (ix.sessions[k].running && k != id)
  {
  }

  function OnHost(ix: Index, host: HostID): set<ID> {
    set id | id in ix.sessions && ix.sessions[id].key.host == host
  }

  function MarkAll(ix: Index, ids: set<ID>): Index {
    ix.(sessions := map id | id in ix.sessions ::
      if id in ids then ix.sessions[id].(intentional := true) else ix.sessions[id])
  }

  /** Every entry of byKey leads to a registered session with that key. */
  ghost predicate Coherent(ix: Index) {
    forall k :: k in ix.byKey ==> ix.byKey[k] in ix.sessions && ix.sessions[ix.byKey[k]].key == k
  }

  /** Also the other way: every registered session is found under its key. */
  ghost predicate Inverse(ix: Index) {
    Coherent(ix)
    && forall id :: id in ix.sessions ==> ix.sessions[id].key in ix.byKey && ix.byKey[ix.sessions[id].key] == id
  }

  lemma InsertKeepsCoherent(ix: Index, id: ID, rec: Rec)
    requires Coherent(ix) && id !in ix.sessions
    ensures Coherent(Insert(ix, id, rec))
  {
  }

  lemma ForgetKeepsIndices(ix: Index, id: ID)
    requires id in ix.sessions
    ensures Coherent(ix) ==> Coherent(Forget(ix, id, ix.sessions[id].key))
    ensures Inverse(ix) ==> Inverse(Forget(ix, id, ix.sessions[id].key))
  {
  }

  /** A new session keeps the two maps inverse exactly when Find misses its key just before. */
  lemma InsertKeepsInverseIff(ix: Index, id: ID, rec: Rec)
    requires Inverse(ix) && id !in ix.sessions
    ensures Inverse(Insert(ix, id, rec)) <==> Find(ix, rec.key).None?
  {
    var t := Insert(ix, id, rec);
    if rec.key in ix.byKey {
      var other := ix.byKey[rec.key];
      assert other in t.sessions && t.sessions[other].key == rec.key && t.byKey[rec.key] != other;
    }
  }

  /** With inverse maps, Find answers the question it is asked: some registered session has the key, and
      there is never a second one. */
  lemma FindIsExact(ix: Index, key: Key, id: ID)
    requires Inverse(ix)
    ensures Find(ix, key) == Some(id) <==> id in ix.sessions && ix.sessions[id].key == key
    ensures Find(ix, key).None? <==> forall j :: j in ix.sessions ==> ix.sessions[j].key != key
  {
  }

  /** List sorts by creation time, then id. */
  predicate Earlier(ix: Index, a: ID, b: ID)
    requires a in ix.sessions && b in ix.sessions
  {
    ix.sessions[a].created < ix.sessions[b].created
    || (ix.sessions[a].created == ix.sessions[b].created && Strings.Less(a, b))
  }

  predicate Running(ix: Index, id: ID) { id in ix.sessions && ix.sessions[id].running }

  /** Running, and ahead of every other running session in that order. */
  ghost predicate IsFirstRunning(ix: Index, id: ID) {
    Running(ix, id) && forall j :: Running(ix, j) && j != id ==> Earlier(ix, id, j)
  }

  lemma EarlierIsStrict(ix: Index, a: ID, b: ID)
    requires a in ix.sessions && b in ix.sessions && Earlier(ix, a, b)
    ensures !Earlier(ix, b, a)
  {
    if Strings.Less(a, b) && Strings.Less(b, a) {
      Strings.LessTransitive(a, b, a);
      Strings.LessIrreflexive(a);
    }
  }

  lemma EarlierTransitive(ix: Index, a: ID, b: ID, c: ID)
    requires a in ix.sessions && b in ix.sessions && c in ix.sessions && Earlier(ix, a, b) && Earlier(ix, b, c)
    ensures Earlier(ix, a, c)
  {
    if Strings.Less(a, b) && Strings.Less(b, c) {
      Strings.LessTransitive(a, b, c);
    }
  }

  lemma FirstRunningIsUnique(ix: Index, a: ID, b: ID)
    requires IsFirstRunning(ix, a) && IsFirstRunning(ix, b)
    ensures a == b
  {
    if a != b {
      EarlierIsStrict(ix, a, b);
    }
  }

  ghost function FirstRunning(ix: Index): Option<ID> {
    if id :| IsFirstRunning(ix, id) then Some(id) else None
  }

  lemma FirstRunningIs(ix: Index, id: ID)
    requires IsFirstRunning(ix, id)
    ensures FirstRunning(ix) == Some(id)
  {
    var f := FirstRunning(ix);
    FirstRunningIsUnique(ix, id, f.value);
  }

  /** The order of List looks at neither sizes nor marks. */
  lemma FirstRunningIgnoresSize(ix: Index, id: ID, size: Size)
    ensures FirstRunning(SetSize(ix, id, size)) == FirstRunning(ix)
  {
    var t := SetSize(ix, id, size);
    assert forall a, b :: a in ix.sessions && b in ix.sessions ==> Earlier(t, a, b) == Earlier(ix, a, b);
    assert forall a :: Running(t, a) == Running(ix, a);
    if f :| IsFirstRunning(ix, f) {
      assert IsFirstRunning(t, f);
      FirstRunningIs(ix, f);
      FirstRunningIs(t, f);
    } else if f :| IsFirstRunning(t, f) {
      assert IsFirstRunning(ix, f);
    }
  }

  lemma FirstRunningIgnoresMarks(ix: Index, ids: set<ID>)
    ensures FirstRunning(MarkAll(ix, ids)) == FirstRunning(ix)
  {
    var t := MarkAll(ix, ids);
    assert forall a, b :: a in ix.sessions && b in ix.sessions ==> Earlier(t, a, b) == Earlier(ix, a, b);
    assert forall a :: Running(t, a) == Running(ix, a);
    if f :| IsFirstRunning(ix, f) {
      assert IsFirstRunning(t, f);
      FirstRunningIs(ix, f);
      FirstRunningIs(t, f);
    } else if f :| IsFirstRunning(t, f) {
      assert IsFirstRunning(ix, f);
    }
  }

  class Manager {
    var sessions: map<ID, Rec>
    var byKey: map<Key, ID>

    ghost function View(): Index
      reads this
    {
      Index(sessions, byKey)
    }

    constructor ()
      ensures View() == EMPTY
    {
      sessions, byKey := map[], map[];
    }

    method FindSession(key: Key) returns (id: Option<ID>)
      ensures id == Find(View(), key)
      ensures id == if key in byKey then Some(byKey[key]) else None
    {
      if key in byKey {
        id := Some(byKey[key]);
      } else {
        id := None;
      }
    }

    method Get(id: ID) returns (rec: Option<Rec>)
      ensures rec == if id in sessions then Some(sessions[id]) else None
    {
      if id in sessions {
        rec := Some(sessions[id]);
      } else {
        rec := None;
      }
    }

    /** Create, given the id drawn and whether the host is known and the dial succeeds. */
    method Create(id: ID, key: Key, size: Size, created: int, opens: bool) returns (ok: bool)
      requires id !in sessions
      modifies this
      ensures ok == opens
      ensures ok ==> View() == Insert(old(View()), id, Rec(key, size, created, true, false))
      ensures ok ==> sessions == old(sessions)[id := Rec(key, size, created, true, false)] && byKey == old(byKey)[key := id]
      ensures !ok ==> View() == old(View())
      ensures old(Coherent(View())) ==> Coherent(View())
      ensures ok && old(Inverse(View())) ==> (Inverse(View()) <==> key !in old(byKey))
    {
      ghost var was := View();
      if !opens {
        return false;
      }
      if Inverse(was) {
        InsertKeepsInverseIff(was, id, Rec(key, size, created, true, false));
      }
      sessions := sessions[id := Rec(key, size, created, true, false)];
      byKey := byKey[key := id];
      ok := true;
    }

    method Resize(id: ID, size: Size) returns (ok: bool)
      modifies this`sessions
      ensures ok == (id in old(sessions)) && View() == SetSize(old(View()), id, size)
      ensures sessions == if ok then old(sessions)[id := old(sessions)[id].(size := size)] else old(sessions)
    {
      if id !in sessions {
        return false;
      }
      sessions := sessions[id := sessions[id].(size := size)];
      ok := true;
    }

    /** CloseHost: mark every session of the host; their pumps do the rest. */
    method CloseHost(host: HostID) returns (ids: set<ID>)
      modifies this`sessions
      ensures ids == OnHost(old(View()), host)
      ensures View() == MarkAll(old(View()), ids)
      ensures forall id :: id in ids <==> id in old(sessions) && old(sessions)[id].key.host == host
      ensures sessions.Keys == old(sessions).Keys
      ensures forall id :: id in sessions ==>
        sessions[id] == if id in ids then old(sessions)[id].(intentional := true) else old(sessions)[id]
    {
      ghost var was := View();
      ids := set id | id in sessions && sessions[id].key.host == host;
      var todo := ids;
      assert MarkAll(was, ids - todo).sessions == was.sessions;
      while todo != {}
        invariant todo <= ids == OnHost(was, host)
        invariant View() == MarkAll(was, ids - todo)
      {
        var id :| id in todo;
        sessions := sessions[id := sessions[id].(intentional := true)];
        todo := todo - {id};
        assert sessions == MarkAll(was, ids - todo).sessions;
      }
      assert ids - todo == ids;
    }

    /** finalize's last critical section. */
    method Remove(id: ID)
      requires id in sessions
      modifies this
      ensures View() == Forget(old(View()), id, old(sessions[id].key))
      ensures sessions == old(sessions) - {id} && byKey == old(byKey) - {old(sessions[id].key)}
      ensures old(Coherent(View())) ==> Coherent(View())
      ensures old(Inverse(View())) ==> Inverse(View())
    {
      ForgetKeepsIndices(View(), id);
      var key := sessions[id].key;
      sessions := sessions - {id};
      byKey := byKey - {key};
    }

    /** The first running session of List, found by a scan in any order. */
    method FirstOpen() returns (id: Option<ID>)
      ensures id == FirstRunning(View())
      ensures id.Some? ==> IsFirstRunning(View(), id.value)
      ensures id.None? <==> forall j :: j in sessions ==> !sessions[j].running
      ensures id.Some? ==> id.value in sessions && sessions[id.value].running
      ensures id.Some? ==> forall j :: j in sessions && sessions[j].running && j != id.value ==>
        sessions[id.value].created < sessions[j].created
        || (sessions[id.value].created == sessions[j].created && Strings.Less(id.value, j))
    {
      id := None;
      ghost var ix := View();
      var todo := sessions.Keys;
      while todo != {}
        invariant todo <= sessions.Keys && View() == ix
        invariant id.None? ==> forall j :: j in sessions.Keys - todo ==> !Running(ix, j)
        invariant id.Some? ==> Running(ix, id.value) && id.value !in todo
        invariant id.Some? ==> forall j :: j in sessions.Keys - todo && Running(ix, j) && j != id.value ==> Earlier(ix, id.value, j)
        decreases todo
      {
        var k :| k in todo;
        if sessions[k].running {
          if id.None? {
            id := Some(k);
          } else {
            Strings.LessTotal(id.value, k);
            if sessions[k].created < sessions[id.value].created
               || (sessions[k].created == sessions[id.value].created && Strings.Less(k, id.value)) {
              forall j | j in sessions.Keys - todo && Running(ix, j) && j != k && j != id.value
                ensures Earlier(ix, k, j)
              {
                EarlierTransitive(ix, k, id.value, j);
              }
              id := Some(k);
            }
          }
        }
        todo := todo - {k};
      }
      if id.Some? {
        assert IsFirstRunning(ix, id.value);
        FirstRunningIs(ix, id.value);
        assert forall j :: j in sessions && sessions[j].running ==> Running(ix, j);
      }
      assert forall j :: Running(ix, j) <==> j in sessions && sessions[j].running;
    }
  }
}
