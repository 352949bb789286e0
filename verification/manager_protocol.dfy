/** internal/session/manager.go and the calls internal/server/server.go makes into it, as a transition
    system over every session the manager ever created: OpenProject's Find and Create, finalize's update
    of the indices, the host-down hook and the CloseHost it runs. */
module ManagerProtocol {
  import opened Basics
  import opened Identity
  import opened SessionIndex
  import Strings
  import opened SessionProtocol
  import opened SessionInvariant
  import opened SessionTeardown

  /** The CloseHost call of one firing of the hook. Targets move from `todo` to `marked` to `closed`. */
  datatype Cascade = Cascade(host: HostID, collected: bool, todo: set<ID>, marked: set<ID>, closed: set<ID>)

  datatype Managed = Managed(
    index: Index,
    procs: map<ID, State>,        // every session ever created, with its goroutines
    keyOf: map<ID, Key>,          // rec.Project, which never changes
    openers: map<nat, Key>,       // OpenProject calls whose Find missed and whose Create is under way
    cascades: map<ID, Cascade>,   // by the session whose pump called the hook
    fired: seq<ID>)               // those sessions, in order

  const START: Managed := Managed(EMPTY, map[], map[], map[], map[], [])

  datatype Move =
    | OpenFind(o: nat, key: Key)
    | OpenFail(o: nat)
    | OpenInsert(o: nat, id: ID, size: Size, created: int, cap: nat)
    | Step(id: ID, a: Action)
    | Collect(c: ID)
    | MarkTarget(c: ID, id: ID)
    | CloseTarget(c: ID, id: ID)

  predicate Allowed(m: Managed, v: Move) {
    match v
    case OpenFind(o, _) => o !in m.openers
    case OpenFail(o) => o in m.openers
    case OpenInsert(o, id, _, _, _) => o in m.openers && id !in m.procs && id !in m.index.sessions
    case Step(id, a) =>
      id in m.procs && id in m.keyOf && Enabled(m.procs[id], a)
    case Collect(c) => c in m.cascades && !m.cascades[c].collected
    case MarkTarget(c, id) =>
      c in m.cascades && id in m.cascades[c].todo && id in m.procs && Enabled(m.procs[id], Mark)
    case CloseTarget(c, id) => c in m.cascades && id in m.cascades[c].marked && id in m.procs
  }

  function Uncollected(host: HostID): Cascade { Cascade(host, false, {}, {}, {}) }

  predicate Fires(m: Managed, id: ID, a: Action)
    requires id in m.procs
  {
    a.Hook? && a.installed && m.procs[id].pump.Hooking? && !m.procs[id].pump.intentional
  }

  function After(m: Managed, v: Move): Managed
    requires Allowed(m, v)
  {
    match v
    case OpenFind(o, key) => if Find(m.index, key).Some? then m else m.(openers := m.openers[o := key])
    case OpenFail(o) => m.(openers := m.openers - {o})
    case OpenInsert(o, id, size, created, cap) =>
      var key := m.openers[o];
      m.(index := Insert(m.index, id, Rec(key, size, created, true, false)), procs := m.procs[id := Init(cap)],
         keyOf := m.keyOf[id := key], openers := m.openers - {o})
    case Step(id, a) =>
      m.(procs := m.procs[id := Next(m.procs[id], a)],
         index := if a.Forget? then SessionIndex.Forget(m.index, id, m.keyOf[id]) else m.index,
         fired := if Fires(m, id, a) then m.fired + [id] else m.fired,
         cascades := if Fires(m, id, a) then m.cascades[id := Uncollected(m.keyOf[id].host)] else m.cascades)
    case Collect(c) =>
      m.(cascades := m.cascades[c := m.cascades[c].(collected := true, todo := OnHost(m.index, m.cascades[c].host))])
    case MarkTarget(c, id) =>
      var w := m.cascades[c];
      m.(procs := m.procs[id := Next(m.procs[id], Mark)],
         cascades := m.cascades[c := w.(todo := w.todo - {id}, marked := w.marked + {id})])
    case CloseTarget(c, id) =>
      var w := m.cascades[c];
      m.(procs := m.procs[id := Next(m.procs[id], DropPty)],
         cascades := m.cascades[c := w.(marked := w.marked - {id}, closed := w.closed + {id})])
  }

  ghost predicate Moves(m: Managed, trace: seq<Move>, n: Managed)
    decreases |trace|
  {
    if trace == [] then m == n
    else Allowed(m, trace[0]) && Moves(After(m, trace[0]), trace[1..], n)
  }

  /** The index holds exactly the sessions whose finalize has not removed them, each under its own key. */
  ghost predicate IndexOk(index: Index, procs: map<ID, State>, keyOf: map<ID, Key>) {
    && procs.Keys == keyOf.Keys
    && (forall id :: id in procs ==> Inv(procs[id]))
    && (forall id :: id in index.sessions <==> id in procs && !procs[id].removed)
    && (forall id :: id in index.sessions ==> index.sessions[id].key == keyOf[id])
    && Coherent(index)
  }

  ghost predicate FiredOk(procs: map<ID, State>, fired: seq<ID>) {
    && NoRepeats(fired)
    && (forall id :: id in fired <==> id in procs && procs[id].hooks > 0)
  }

  function Targets(w: Cascade): set<ID> { w.todo + w.marked + w.closed }

  /** A target of CloseHost is marked, then its PTY is closed, and both stay so. */
  ghost predicate CascadeOk(procs: map<ID, State>, w: Cascade) {
    && (forall id :: id in Targets(w) ==> id in procs)
    && (!w.collected ==> Targets(w) == {})
    && (forall id :: id in w.marked + w.closed ==> id in procs && procs[id].live.intentional)
    && (forall id :: id in w.closed ==> id in procs && procs[id].done)
  }

  ghost predicate CascadesOk(procs: map<ID, State>, cascades: map<ID, Cascade>) {
    forall c :: c in cascades ==> CascadeOk(procs, cascades[c])
  }

  ghost predicate ManagerInv(m: Managed) {
    && IndexOk(m.index, m.procs, m.keyOf) && FiredOk(m.procs, m.fired) && CascadesOk(m.procs, m.cascades)
    && (forall c :: c in m.cascades <==> c in m.fired)
    && (forall c :: c in m.cascades ==> c in m.keyOf && m.cascades[c].host == m.keyOf[c].host)
  }

  /** What a session step does to the fields the manager looks at. */
  lemma StepEffects(s: State, a: Action)
    requires Inv(s) && Enabled(s, a)
    ensures Inv(Next(s, a))
    ensures s.live.intentional ==> Next(s, a).live.intentional
    ensures s.done ==> Next(s, a).done
    ensures a.Forget? ==> !s.removed && Next(s, a).removed
    ensures !a.Forget? ==> Next(s, a).removed == s.removed
    ensures Next(s, a).hooks == s.hooks + (if a.Hook? && a.installed && !s.pump.intentional then 1 else 0)
    ensures a.Hook? ==> s.hooks == 0 && s.pump.Hooking?
    ensures a.Mark? ==> Next(s, a).live.intentional
    ensures a.DropPty? ==> Next(s, a).done
  {
    StepKeepsInv(s, a);
  }

  lemma InitOk(cap: nat)
    ensures Inv(Init(cap)) && !Init(cap).removed && Init(cap).hooks == 0
  {
  }

  lemma StepKeepsIndex(index: Index, procs: map<ID, State>, keyOf: map<ID, Key>, id: ID, a: Action)
    requires IndexOk(index, procs, keyOf) && id in procs && Enabled(procs[id], a)
    ensures IndexOk(if a.Forget? then SessionIndex.Forget(index, id, keyOf[id]) else index,
                    procs[id := Next(procs[id], a)], keyOf)
  {
    hide Inv, Next, Enabled;
    StepEffects(procs[id], a);
    if a.Forget? {
      ForgetKeepsIndices(index, id);
    }
  }

  lemma StepKeepsFired(m: Managed, id: ID, a: Action)
    requires ManagerInv(m) && id in m.procs && Enabled(m.procs[id], a)
    ensures FiredOk(m.procs[id := Next(m.procs[id], a)], if Fires(m, id, a) then m.fired + [id] else m.fired)
  {
    hide Inv, Next, Enabled, CascadesOk;
    StepEffects(m.procs[id], a);
    assert Fires(m, id, a) ==> id !in m.fired;
  }

  lemma StepKeepsCascades(procs: map<ID, State>, cascades: map<ID, Cascade>, id: ID, a: Action)
    requires CascadesOk(procs, cascades) && id in procs && Inv(procs[id]) && Enabled(procs[id], a)
    ensures CascadesOk(procs[id := Next(procs[id], a)], cascades)
  {
    hide Inv, Next, Enabled;
    StepEffects(procs[id], a);
    forall c | c in cascades
      ensures CascadeOk(procs[id := Next(procs[id], a)], cascades[c])
    {
      assert CascadeOk(procs, cascades[c]);
    }
  }

  lemma StepOfSessionKeepsInv(m: Managed, id: ID, a: Action)
    requires ManagerInv(m) && Allowed(m, Step(id, a))
    ensures ManagerInv(After(m, Step(id, a)))
  {
    hide Inv, Next, Enabled, FiredOk, CascadesOk;
    StepKeepsIndex(m.index, m.procs, m.keyOf, id, a);
    StepKeepsFired(m, id, a);
    StepKeepsCascades(m.procs, m.cascades, id, a);
    if Fires(m, id, a) {
      NewCascade(m.procs[id := Next(m.procs[id], a)], m.cascades, id, m.keyOf[id].host);
    }
  }

  lemma NewCascade(procs: map<ID, State>, cascades: map<ID, Cascade>, c: ID, host: HostID)
    requires CascadesOk(procs, cascades)
    ensures CascadesOk(procs, cascades[c := Uncollected(host)])
  {
    hide Inv;
    var more := cascades[c := Uncollected(host)];
    forall d | d in more
      ensures CascadeOk(procs, more[d])
    {
      assert d in cascades ==> CascadeOk(procs, cascades[d]);
    }
  }

  lemma InsertKeepsIndex(m: Managed, v: Move)
    requires ManagerInv(m) && v.OpenInsert? && Allowed(m, v)
    ensures IndexOk(After(m, v).index, After(m, v).procs, After(m, v).keyOf)
  {
    hide Inv, Next, Enabled, FiredOk, CascadesOk;
    InitOk(v.cap);
    InsertKeepsCoherent(m.index, v.id, Rec(m.openers[v.o], v.size, v.created, true, false));
  }

  lemma NewSessionIsQuiet(procs: map<ID, State>, fired: seq<ID>, cascades: map<ID, Cascade>, id: ID, cap: nat)
    requires FiredOk(procs, fired) && CascadesOk(procs, cascades) && id !in procs
    ensures FiredOk(procs[id := Init(cap)], fired) && CascadesOk(procs[id := Init(cap)], cascades)
  {
    hide Inv;
    InitOk(cap);
    forall c | c in cascades
      ensures CascadeOk(procs[id := Init(cap)], cascades[c])
    {
      assert CascadeOk(procs, cascades[c]);
    }
  }

  lemma FreshHasNotFired(m: Managed, id: ID)
    requires ManagerInv(m) && id !in m.procs
    ensures id !in m.cascades
  {
    hide Inv, CascadesOk;
  }

  lemma InsertKeepsInv(m: Managed, v: Move)
    requires ManagerInv(m) && v.OpenInsert? && Allowed(m, v)
    ensures ManagerInv(After(m, v))
  {
    hide Inv, Next, Enabled, IndexOk, FiredOk, CascadesOk;
    FreshHasNotFired(m, v.id);
    InsertKeepsIndex(m, v);
    NewSessionIsQuiet(m.procs, m.fired, m.cascades, v.id, v.cap);
  }

  lemma CollectedCascade(m: Managed, c: ID)
    requires ManagerInv(m) && Allowed(m, Collect(c))
    ensures CascadesOk(m.procs, After(m, Collect(c)).cascades)
  {
    hide Inv, Next, Enabled, FiredOk;
    var more := After(m, Collect(c)).cascades;
    forall d | d in more
      ensures CascadeOk(m.procs, more[d])
    {
      assert CascadeOk(m.procs, m.cascades[d]);
    }
  }

  lemma CollectKeepsInv(m: Managed, v: Move)
    requires ManagerInv(m) && Allowed(m, v) && v.Collect?
    ensures ManagerInv(After(m, v))
  {
    hide Inv, Next, Enabled, IndexOk, FiredOk, CascadesOk;
    CollectedCascade(m, v.c);
  }

  lemma CascadeProgress(procs: map<ID, State>, cascades: map<ID, Cascade>, v: Move, w: Cascade)
    requires CascadesOk(procs, cascades) && (v.MarkTarget? || v.CloseTarget?) && v.c in cascades
    requires v.id in cascades[v.c].todo + cascades[v.c].marked && v.id in procs
    requires v.MarkTarget? ==> procs[v.id].live.intentional
    requires v.CloseTarget? ==> v.id in cascades[v.c].marked && procs[v.id].done
    requires var u := cascades[v.c];
      w == if v.MarkTarget? then u.(todo := u.todo - {v.id}, marked := u.marked + {v.id})
           else u.(marked := u.marked - {v.id}, closed := u.closed + {v.id})
    ensures CascadesOk(procs, cascades[v.c := w])
  {
    hide Inv;
    assert CascadeOk(procs, cascades[v.c]);
    forall c | c in cascades
      ensures CascadeOk(procs, cascades[v.c := w][c])
    {
      assert CascadeOk(procs, cascades[c]);
    }
  }

  function TargetAction(v: Move): Action {
    if v.MarkTarget? then Mark else DropPty
  }

  /** A CloseHost call acts on a session by a step of its own. */
  lemma TargetFacts(m: Managed, v: Move)
    requires Allowed(m, v) && (v.MarkTarget? || v.CloseTarget?)
    ensures v.id in m.procs && Enabled(m.procs[v.id], TargetAction(v)) && !Fires(m, v.id, TargetAction(v))
    ensures v.c in After(m, v).cascades && v.c in m.cascades
    ensures After(m, v) == m.(procs := m.procs[v.id := Next(m.procs[v.id], TargetAction(v))],
                              cascades := m.cascades[v.c := After(m, v).cascades[v.c]])
    ensures var u := m.cascades[v.c];
      After(m, v).cascades[v.c] ==
      if v.MarkTarget? then u.(todo := u.todo - {v.id}, marked := u.marked + {v.id})
      else u.(marked := u.marked - {v.id}, closed := u.closed + {v.id})
    ensures v.id in m.cascades[v.c].todo + m.cascades[v.c].marked
    ensures v.CloseTarget? ==> v.id in m.cascades[v.c].marked
  {
    hide Next;
    EnabledDrop(m.procs[v.id]);
  }

  lemma TargetStepKeepsInv(m: Managed, v: Move)
    requires ManagerInv(m) && Allowed(m, v) && (v.MarkTarget? || v.CloseTarget?)
    ensures ManagerInv(After(m, v))
  {
    hide Inv, Next, Enabled, IndexOk, FiredOk, CascadesOk, After, Allowed;
    TargetFacts(m, v);
    SessionOk(m, v.id);
    StepKeepsIndex(m.index, m.procs, m.keyOf, v.id, TargetAction(v));
    StepKeepsFired(m, v.id, TargetAction(v));
    StepKeepsCascades(m.procs, m.cascades, v.id, TargetAction(v));
    StepEffects(m.procs[v.id], TargetAction(v));
    CascadeProgress(After(m, v).procs, m.cascades, v, After(m, v).cascades[v.c]);
  }

  lemma SessionOk(m: Managed, id: ID)
    requires ManagerInv(m) && id in m.procs
    ensures Inv(m.procs[id])
  {
    hide Inv, FiredOk, CascadesOk;
  }

  lemma EnabledDrop(s: State)
    ensures Enabled(s, DropPty)
  {
  }

  lemma OpenKeepsInv(m: Managed, v: Move)
    requires ManagerInv(m) && Allowed(m, v) && (v.OpenFind? || v.OpenFail?)
    ensures ManagerInv(After(m, v))
  {
    hide Inv, Next, Enabled, IndexOk, FiredOk, CascadesOk;
  }

  lemma MoveKeepsInv(m: Managed, v: Move)
    requires ManagerInv(m) && Allowed(m, v)
    ensures ManagerInv(After(m, v))
  {
    hide ManagerInv, After;
    match v
    case OpenFind(_, _) => OpenKeepsInv(m, v);
    case OpenFail(_) => OpenKeepsInv(m, v);
    case OpenInsert(_, _, _, _, _) => InsertKeepsInv(m, v);
    case Step(id, a) => StepOfSessionKeepsInv(m, id, a);
    case Collect(_) => CollectKeepsInv(m, v);
    case MarkTarget(_, _) => TargetStepKeepsInv(m, v);
    case CloseTarget(_, _) => TargetStepKeepsInv(m, v);
  }

  lemma {:induction false} MovesKeepInv(m: Managed, trace: seq<Move>, n: Managed)
    requires ManagerInv(m) && Moves(m, trace, n)
    ensures ManagerInv(n)
    decreases |trace|
  {
    if trace == [] {
    } else {
      MoveKeepsInv(m, trace[0]);
      MovesKeepInv(After(m, trace[0]), trace[1..], n);
    }
  }

  lemma EveryRunKeepsInv(trace: seq<Move>, n: Managed)
    requires Moves(START, trace, n)
    ensures ManagerInv(n)
  {
    MovesKeepInv(START, trace, n);
  }

  // ----- The indices

  /** In every run, overlapping creations or not, an entry of byKey leads to a registered session with that
      key, and the registered sessions are those not yet removed. */
  lemma IndicesAreCoherent(trace: seq<Move>, n: Managed)
    requires Moves(START, trace, n)
    ensures Coherent(n.index)
    ensures forall id :: id in n.index.sessions <==> id in n.procs && !n.procs[id].removed
  {
    EveryRunKeepsInv(trace, n);
  }

  /** At every moment of the run the two maps are inverse. */
  ghost predicate AlwaysInverse(m: Managed, trace: seq<Move>)
    decreases |trace|
  {
    Inverse(m.index) && (trace == [] || (Allowed(m, trace[0]) && AlwaysInverse(After(m, trace[0]), trace[1..])))
  }

  /** Every Create inserts its session while Find misses the key. */
  ghost predicate InsertsAreFree(m: Managed, trace: seq<Move>)
    decreases |trace|
  {
    trace == [] ||
    (Allowed(m, trace[0])
     && (trace[0].OpenInsert? ==> Find(m.index, m.openers[trace[0].o]).None?)
     && InsertsAreFree(After(m, trace[0]), trace[1..]))
  }

  lemma MoveKeepsInverseIff(m: Managed, v: Move)
    requires ManagerInv(m) && Allowed(m, v) && Inverse(m.index)
    ensures Inverse(After(m, v).index) <==> (v.OpenInsert? ==> Find(m.index, m.openers[v.o]).None?)
  {
    hide Inv, Next, FiredOk, CascadesOk;
    if v.OpenInsert? {
      InsertKeepsInverseIff(m.index, v.id, Rec(m.openers[v.o], v.size, v.created, true, false));
    } else if v.Step? && v.a.Forget? {
      assert Inv(m.procs[v.id]);
      StepEffects(m.procs[v.id], v.a);
      ForgetKeepsIndices(m.index, v.id);
    }
  }

  lemma {:induction false} InverseIffInsertsFree(m: Managed, trace: seq<Move>, n: Managed)
    requires ManagerInv(m) && Inverse(m.index) && Moves(m, trace, n)
    ensures AlwaysInverse(m, trace) <==> InsertsAreFree(m, trace)
    decreases |trace|
  {
    if trace == [] {
    } else {
      var v, t := trace[0], After(m, trace[0]);
      MoveKeepsInv(m, v);
      MoveKeepsInverseIff(m, v);
      hide ManagerInv, Inverse, After, Allowed;
      if v.OpenInsert? ==> Find(m.index, m.openers[v.o]).None? {
        InverseIffInsertsFree(t, trace[1..], n);
      }
    }
  }

  /** Over every run, overlapping creations included: the maps are inverse throughout, so that Find is exact
      throughout, exactly when every creation inserts while Find misses its key. */
  lemma InverseThroughoutIff(trace: seq<Move>, n: Managed)
    requires Moves(START, trace, n)
    ensures AlwaysInverse(START, trace) <==> InsertsAreFree(START, trace)
  {
    InverseIffInsertsFree(START, trace, n);
  }

  /** No two OpenProject calls for one key are both between Find and Create's insertion. */
  ghost predicate NoOverlap(m: Managed, trace: seq<Move>)
    decreases |trace|
  {
    trace == [] ||
    (Allowed(m, trace[0])
     && (trace[0].OpenFind? ==> trace[0].key !in m.openers.Values)
     && NoOverlap(After(m, trace[0]), trace[1..]))
  }

  /** Between a Find that missed and the insertion the key stays free, and no two openers share a key. */
  ghost predicate OpenersOk(m: Managed) {
    && Inverse(m.index)
    && (forall o :: o in m.openers ==> m.openers[o] !in m.index.byKey)
    && (forall o, p :: o in m.openers && p in m.openers && m.openers[o] == m.openers[p] ==> o == p)
  }

  lemma MoveKeepsOpeners(m: Managed, v: Move)
    requires ManagerInv(m) && OpenersOk(m) && Allowed(m, v)
    requires v.OpenFind? ==> v.key !in m.openers.Values
    ensures OpenersOk(After(m, v))
  {
    hide Inv, Next, FiredOk, CascadesOk;
    var t := After(m, v);
    if v.OpenFind? {
      assert forall o :: o in m.openers ==> m.openers[o] in m.openers.Values;
    } else if v.OpenInsert? {
      InsertKeepsInverseIff(m.index, v.id, Rec(m.openers[v.o], v.size, v.created, true, false));
    } else if v.Step? && v.a.Forget? {
      assert Inv(m.procs[v.id]);
      StepEffects(m.procs[v.id], v.a);
      ForgetKeepsIndices(m.index, v.id);
    }
  }

  lemma {:induction false} MovesKeepOpeners(m: Managed, trace: seq<Move>, n: Managed)
    requires ManagerInv(m) && OpenersOk(m) && Moves(m, trace, n) && NoOverlap(m, trace)
    ensures OpenersOk(n)
    decreases |trace|
  {
    hide ManagerInv, OpenersOk, After;
    if trace == [] {
    } else {
      MoveKeepsInv(m, trace[0]);
      MoveKeepsOpeners(m, trace[0]);
      MovesKeepOpeners(After(m, trace[0]), trace[1..], n);
    }
  }

  /** When OpenProject calls for one key never overlap, every run keeps at most one registered session per
      (host, root) and Find finds it, whatever finalizations are interleaved. */
  lemma FindIsExactWithoutOverlap(trace: seq<Move>, n: Managed, key: Key, id: ID)
    requires Moves(START, trace, n) && NoOverlap(START, trace)
    ensures Find(n.index, key) == Some(id) <==> id in n.index.sessions && n.index.sessions[id].key == key
  {
    MovesKeepOpeners(START, trace, n);
    FindIsExact(n.index, key, id);
  }

  // ----- A run that loses a session

  lemma {:induction false} MovesJoin(m: Managed, p: seq<Move>, k: Managed, q: seq<Move>, n: Managed)
    requires Moves(m, p, k) && Moves(k, q, n)
    ensures Moves(m, p + q, n)
    decreases |p|
  {
    if p == [] {
      assert p + q == q;
    } else {
      hide After, Allowed;
      MovesJoin(After(m, p[0]), p[1..], k, q, n);
      assert (p + q)[1..] == p[1..] + q;
    }
  }

  lemma MovesThen(m: Managed, p: seq<Move>, k: Managed, v: Move)
    requires Moves(m, p, k) && Allowed(k, v)
    ensures Moves(m, p + [v], After(k, v))
  {
    assert [v][1..] == [];
    assert Moves(k, [v], After(k, v));
    MovesJoin(m, p, k, [v], After(k, v));
  }

  function Lifted(id: ID, trace: seq<Action>): seq<Move> {
    seq(|trace|, i requires 0 <= i < |trace| => Step(id, trace[i]))
  }

  /** A session's own run, as moves of the manager. */
  lemma {:induction false} LiftRun(m: Managed, id: ID, trace: seq<Action>, t: State)
    requires id in m.procs && id in m.keyOf && Runs(m.procs[id], trace, t)
    requires forall a :: a in trace ==> !a.Forget? && !a.Hook?
    ensures Moves(m, Lifted(id, trace), m.(procs := m.procs[id := t]))
    decreases |trace|
  {
    if trace == [] {
      assert m.procs[id := t] == m.procs;
    } else {
      var k := After(m, Step(id, trace[0]));
      hide Next, Enabled;
      assert k == m.(procs := m.procs[id := Next(m.procs[id], trace[0])]);
      LiftRun(k, id, trace[1..], t);
      assert Lifted(id, trace)[1..] == Lifted(id, trace[1..]);
      assert k.procs[id := t] == m.procs[id := t];
    }
  }

  /** A session nobody subscribed to, whose PTY drops: its pump gets as far as the manager's maps. */
  lemma LonelySessionStops(cap: nat) returns (trace: seq<Action>, t: State)
    ensures Runs(Init(cap), trace, t) && t.pump.Forgetting?
    ensures forall a :: a in trace ==> !a.Forget? && !a.Hook?
  {
    var s1 := Next(Init(cap), DropPty);
    var s2 := Next(s1, WakePump);
    var s3 := Next(s2, ReadIntentional);
    var s4 := Next(s3, EnterFinalize);
    assert s4.pump.Stopping? && s4.pump.todo == {};
    t := Next(s4, ClosePty);
    RunsThen(Init(cap), [], Init(cap), DropPty);
    RunsThen(Init(cap), [] + [DropPty], s1, WakePump);
    trace := [] + [DropPty] + [WakePump];
    hide Next, Enabled;
    assert Enabled(s2, ReadIntentional) && Enabled(s3, EnterFinalize) && Enabled(s4, ClosePty);
    RunsThen(Init(cap), trace, s2, ReadIntentional);
    trace := trace + [ReadIntentional];
    RunsThen(Init(cap), trace, s3, EnterFinalize);
    trace := trace + [EnterFinalize];
    RunsThen(Init(cap), trace, s4, ClosePty);
    trace := trace + [ClosePty];
  }

  /** Two OpenProject calls for one key, both past Find before either inserts. */
  lemma TwoCreations(key: Key, size: Size, cap: nat) returns (trace: seq<Move>, n: Managed)
    ensures Moves(START, trace, n)
    ensures var rec := Rec(key, size, 0, true, false);
      && n.index == Insert(Insert(EMPTY, "a", rec), "b", rec)
      && n.procs == map["a" := Init(cap), "b" := Init(cap)] && n.keyOf == map["a" := key, "b" := key]
  {
    hide Init;
    var m1 := After(START, OpenFind(0, key));
    var m2 := After(m1, OpenFind(1, key));
    var v3, v4 := OpenInsert(0, "a", size, 0, cap), OpenInsert(1, "b", size, 0, cap);
    assert Find(EMPTY, key).None?;
    MovesThen(START, [], START, OpenFind(0, key));
    MovesThen(START, [] + [OpenFind(0, key)], m1, OpenFind(1, key));
    trace := [] + [OpenFind(0, key)] + [OpenFind(1, key)];
    assert m2.openers == map[0 := key, 1 := key];
    MovesThen(START, trace, m2, v3);
    trace := trace + [v3];
    var m3 := After(m2, v3);
    MovesThen(START, trace, m3, v4);
    trace, n := trace + [v4], After(m3, v4);
  }

  /** Creations that overlap do lose a session: in this run of the manager two of them insert under one key, the
      first session ends, and the second is registered and running but not found. */
  lemma OverlapLosesASession(key: Key, size: Size, cap: nat) returns (trace: seq<Move>, n: Managed)
    ensures Moves(START, trace, n) && !InsertsAreFree(START, trace)
    ensures "b" in n.index.sessions && n.index.sessions["b"].key == key && n.index.sessions["b"].running
    ensures n.procs.Keys == {"a", "b"} && n.procs["b"] == Init(cap) && Find(n.index, key).None?
  {
    var m;
    trace, m := TwoCreations(key, size, cap);
    var acts, t := LonelySessionStops(cap);
    hide Init, Runs, AlwaysInverse, InsertsAreFree;
    LiftRun(m, "a", acts, t);
    var k := m.(procs := m.procs["a" := t]);
    MovesJoin(START, trace, m, Lifted("a", acts), k);
    trace := trace + Lifted("a", acts);
    MovesThen(START, trace, k, Step("a", Forget));
    trace, n := trace + [Step("a", Forget)], After(k, Step("a", Forget));
    InverseThroughoutIff(trace, n);
    assert "b" in n.index.sessions && n.index.sessions["b"].key == key && key !in n.index.byKey;
    if AlwaysInverse(START, trace) {
      AlwaysInverseAtEnd(START, trace, n);
    }
  }

  lemma {:induction false} AlwaysInverseAtEnd(m: Managed, trace: seq<Move>, n: Managed)
    requires Moves(m, trace, n) && AlwaysInverse(m, trace)
    ensures Inverse(n.index)
    decreases |trace|
  {
    if trace == [] {
    } else {
      hide After, Allowed, Inverse;
      AlwaysInverseAtEnd(After(m, trace[0]), trace[1..], n);
    }
  }

  // ----- The host-down cascade

  function Unfinished(m: Managed): set<ID> {
    set id | id in m.procs && !m.procs[id].pump.Finished?
  }

  lemma SubsetSize<T>(a: set<T>, b: set<T>)
    requires a <= b
    ensures |a| <= |b|
  {
    if a != {} {
      var x :| x in a;
      SubsetSize(a - {x}, b - {x});
    }
  }

  lemma {:induction false} DistinctSize(s: seq<ID>)
    requires NoRepeats(s)
    ensures |Strings.Elements(s)| == |s|
  {
    if s == [] {
    } else {
      var front, x := s[..|s| - 1], s[|s| - 1];
      DistinctSize(front);
      assert s == front + [x] && x !in front;
      assert Strings.Elements(s) == Strings.Elements(front) + {x};
    }
  }

  lemma FiredIsFinished(s: State)
    requires Inv(s) && s.hooks > 0
    ensures s.pump.Finished?
  {
  }

  /** In every run each session fires the hook at most once, and firings plus unfinished sessions never
      exceed the sessions created: a cascade of hooks closing further sessions runs out. */
  lemma CascadeIsBounded(trace: seq<Move>, n: Managed)
    requires Moves(START, trace, n)
    ensures NoRepeats(n.fired)
    ensures |n.fired| + |Unfinished(n)| <= |n.procs|
  {
    EveryRunKeepsInv(trace, n);
    forall id | id in n.fired
      ensures id in n.procs && id !in Unfinished(n)
    {
      FiredSessionIsFinished(n, id);
    }
    hide ManagerInv, IndexOk;
    CountBound(n.fired, Unfinished(n), n.procs.Keys);
  }

  lemma CountBound(s: seq<ID>, others: set<ID>, all: set<ID>)
    requires NoRepeats(s)
    requires others <= all && forall x :: x in s ==> x in all && x !in others
    ensures |s| + |others| <= |all|
  {
    DistinctSize(s);
    SubsetSize(Strings.Elements(s) + others, all);
  }

  lemma FiredSessionIsFinished(m: Managed, id: ID)
    requires ManagerInv(m) && id in m.fired
    ensures id in m.procs && m.procs[id].pump.Finished?
  {
    hide Inv, CascadesOk;
    FiredIsFinished(m.procs[id]);
  }

  /** Every firing finishes a session that was unfinished, and only a creation adds an unfinished one. */
  lemma FiringsUseUpSessions(m: Managed, v: Move)
    requires ManagerInv(m) && Allowed(m, v)
    ensures |After(m, v).fired| > |m.fired| ==>
      v.Step? && v.id in Unfinished(m) && Unfinished(After(m, v)) == Unfinished(m) - {v.id}
    ensures !v.OpenInsert? ==> Unfinished(After(m, v)) <= Unfinished(m)
  {
    hide Inv, FiredOk, CascadesOk;
    if v.Step? {
      FinishedStays(m.procs[v.id], v.a);
    } else if v.MarkTarget? {
      FinishedStays(m.procs[v.id], Mark);
    } else if v.CloseTarget? {
      FinishedStays(m.procs[v.id], DropPty);
    }
  }

  lemma FinishedStays(s: State, a: Action)
    requires Enabled(s, a)
    ensures s.pump.Finished? ==> Next(s, a).pump.Finished?
    ensures a.Hook? ==> !s.pump.Finished? && Next(s, a).pump.Finished?
  {
  }

  /** Marked before its pump reads the flag, or read as marked. */
  predicate Quiet(s: State) {
    if FlagRead(s.pump).Some? then FlagRead(s.pump).value else s.live.intentional
  }

  predicate Silenced(m: Managed, id: ID) {
    id in m.procs && Quiet(m.procs[id])
  }

  lemma QuietStep(s: State, a: Action)
    requires Inv(s) && Enabled(s, a) && Quiet(s)
    ensures Quiet(Next(s, a))
  {
  }

  lemma MoveKeepsSilence(m: Managed, v: Move, id: ID)
    requires ManagerInv(m) && Allowed(m, v) && Silenced(m, id)
    ensures Silenced(After(m, v), id)
  {
    hide Inv, Next, Enabled, Quiet, FiredOk, CascadesOk;
    assert Inv(m.procs[id]);
    if v.Step? && v.id == id {
      QuietStep(m.procs[id], v.a);
    } else if v.MarkTarget? && v.id == id {
      QuietStep(m.procs[id], Mark);
    } else if v.CloseTarget? && v.id == id {
      EnabledDrop(m.procs[id]);
      QuietStep(m.procs[id], DropPty);
    }
  }

  /** A session that Close or CloseHost marks before its pump has read the flag never fires the hook, in
      any continuation of the run. */
  lemma {:induction false} MarkedInTimeNeverFiresHook(m: Managed, trace: seq<Move>, n: Managed, id: ID)
    requires ManagerInv(m) && Moves(m, trace, n) && Silenced(m, id)
    ensures id !in n.fired
    decreases |trace|
  {
    if trace == [] {
      assert Inv(m.procs[id]);
    } else {
      hide ManagerInv, Silenced, After;
      MoveKeepsInv(m, trace[0]);
      MoveKeepsSilence(m, trace[0], id);
      MarkedInTimeNeverFiresHook(After(m, trace[0]), trace[1..], n, id);
    }
  }

  lemma TargetsStep(m: Managed, v: Move, c: ID)
    requires ManagerInv(m) && Allowed(m, v) && c in m.cascades && m.cascades[c].collected
    ensures var n := After(m, v);
      c in n.cascades && n.cascades[c].collected && Targets(n.cascades[c]) == Targets(m.cascades[c])
  {
    hide Inv, Next, CascadesOk;
    if v.Step? && Fires(m, v.id, v.a) {
      StepEffects(m.procs[v.id], v.a);
    }
  }

  lemma {:induction false} TargetsAreKept(m: Managed, trace: seq<Move>, n: Managed, c: ID)
    requires ManagerInv(m) && Moves(m, trace, n) && c in m.cascades && m.cascades[c].collected
    ensures c in n.cascades && n.cascades[c].collected && Targets(n.cascades[c]) == Targets(m.cascades[c])
    decreases |trace|
  {
    hide ManagerInv, After;
    if trace == [] {
    } else {
      MoveKeepsInv(m, trace[0]);
      TargetsStep(m, trace[0], c);
      TargetsAreKept(After(m, trace[0]), trace[1..], n, c);
    }
  }

  /** Every firing of the hook runs CloseHost, once, for the host of the session that dropped. */
  lemma HookRunsCloseHost(trace: seq<Move>, n: Managed, id: ID)
    requires Moves(START, trace, n)
    ensures id in n.fired <==> id in n.cascades
    ensures id in n.fired ==> id in n.keyOf && n.cascades[id].host == n.keyOf[id].host
  {
    EveryRunKeepsInv(trace, n);
  }

  /** When the hook's CloseHost has no target left to treat, every session that was registered on the host when
      it looked is marked intentional and its PTY is done, whatever happened in between. */
  lemma CloseHostReachesEverySession(m: Managed, trace: seq<Move>, n: Managed, c: ID, id: ID)
    requires ManagerInv(m) && Allowed(m, Collect(c)) && Moves(After(m, Collect(c)), trace, n)
    requires IsOn(m.index, id, m.cascades[c].host)
    ensures c in n.cascades
    ensures n.cascades[c].todo == {} && n.cascades[c].marked == {} ==>
      id in n.procs && n.procs[id].live.intentional && n.procs[id].done
  {
    hide ManagerInv, Moves, After, OnHost, IsOn;
    IsTarget(m.index, m.cascades[c].host, id);
    TargetsAreTreated(m, trace, n, c, id);
  }

  lemma TargetsAreTreated(m: Managed, trace: seq<Move>, n: Managed, c: ID, id: ID)
    requires ManagerInv(m) && Allowed(m, Collect(c)) && Moves(After(m, Collect(c)), trace, n)
    requires id in OnHost(m.index, m.cascades[c].host)
    ensures c in n.cascades
    ensures n.cascades[c].todo == {} && n.cascades[c].marked == {} ==>
      id in n.procs && n.procs[id].live.intentional && n.procs[id].done
  {
    hide ManagerInv, Moves, After, OnHost;
    MoveKeepsInv(m, Collect(c));
    MovesKeepInv(After(m, Collect(c)), trace, n);
    CollectTakesTheHost(m, c);
    TargetsAreKept(After(m, Collect(c)), trace, n, c);
    ClosedTargets(n, c);
  }

  lemma IsTarget(ix: Index, host: HostID, id: ID)
    requires IsOn(ix, id, host)
    ensures id in OnHost(ix, host)
  {
  }

  lemma CollectTakesTheHost(m: Managed, c: ID)
    requires ManagerInv(m) && Allowed(m, Collect(c))
    ensures var t := After(m, Collect(c));
      c in t.cascades && t.cascades[c].collected && Targets(t.cascades[c]) == OnHost(m.index, m.cascades[c].host)
  {
    hide Inv, IndexOk, FiredOk;
    assert CascadeOk(m.procs, m.cascades[c]);
  }

  lemma ClosedTargets(n: Managed, c: ID)
    requires ManagerInv(n) && c in n.cascades
    ensures n.cascades[c].todo == {} && n.cascades[c].marked == {} ==>
      forall id :: id in Targets(n.cascades[c]) ==> id in n.procs && n.procs[id].live.intentional && n.procs[id].done
  {
    hide Inv, IndexOk, FiredOk;
    assert CascadeOk(n.procs, n.cascades[c]);
  }
}
