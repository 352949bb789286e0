/** internal/server/server.go, Projects: hosts indexed concurrently, results merged in host order. */
module Projects {
  import opened Basics
  import opened Identity
  import opened ProjectIndex

  function KeyOf(p: Project): Key { Key(p.host, p.root) }

  /** One host: whether it is down, and what its worker's Index call returns (None on error or timeout). */
  datatype HostRun = HostRun(down: bool, result: Option<seq<Project>>)

  /** A slot of `results` when every worker is done. */
  function Slot(h: HostRun): seq<Project> {
    if !h.down && h.result.Some? then h.result.value else []
  }

  function Slots(hosts: seq<HostRun>): seq<seq<Project>> {
    seq(|hosts|, i requires 0 <= i < |hosts| => Slot(hosts[i]))
  }

  function Keys(ps: seq<Project>): set<Key> { set p | p in ps :: KeyOf(p) }

  /** Keep the first project of each key. */
  function Dedupe(ps: seq<Project>): seq<Project> {
    if ps == [] then []
    else
      var front, p := ps[..|ps| - 1], ps[|ps| - 1];
      if KeyOf(p) in Keys(front) then Dedupe(front) else Dedupe(front) + [p]
  }

  /** No earlier project has this one's key. */
  ghost predicate First(ps: seq<Project>, k: nat) {
    k < |ps| && forall j :: 0 <= j < k ==> KeyOf(ps[j]) != KeyOf(ps[k])
  }

  lemma FirstOfPrefix(ps: seq<Project>, n: nat, k: nat)
    requires k < n <= |ps|
    ensures First(ps[..n], k) <==> First(ps, k)
  {
    assert forall j :: 0 <= j <= k ==> ps[..n][j] == ps[j];
  }

  lemma LastIsFirstIff(ps: seq<Project>)
    requires ps != []
    ensures First(ps, |ps| - 1) <==> KeyOf(ps[|ps| - 1]) !in Keys(ps[..|ps| - 1])
  {
    var front, p := ps[..|ps| - 1], ps[|ps| - 1];
    if KeyOf(p) in Keys(front) {
      var q :| q in front && KeyOf(q) == KeyOf(p);
      var j :| 0 <= j < |front| && front[j] == q;
      assert ps[j] == q;
    } else {
      forall j | 0 <= j < |ps| - 1
        ensures KeyOf(ps[j]) != KeyOf(p)
      {
        assert front[j] in front;
      }
    }
  }

  /** The result is exactly the projects at the first positions of their keys, in order. */
  lemma {:induction false} DedupeIsTheFirsts(ps: seq<Project>) returns (at: seq<nat>)
    ensures |at| == |Dedupe(ps)| && forall i :: 0 <= i < |at| ==> at[i] < |ps| && Dedupe(ps)[i] == ps[at[i]]
    ensures forall i, j :: 0 <= i < j < |at| ==> at[i] < at[j]
    ensures forall k :: k in at <==> First(ps, k)
    decreases |ps|
  {
    at := [];
    if ps != [] {
      var n := |ps| - 1;
      at := DedupeIsTheFirsts(ps[..n]);
      LastIsFirstIff(ps);
      forall k | 0 <= k < n
        ensures First(ps[..n], k) <==> First(ps, k)
      {
        FirstOfPrefix(ps, n, k);
      }
      if First(ps, n) {
        at := at + [n];
      }
    }
  }

  /** So no key comes twice, and none is lost. */
  lemma DedupeKeys(ps: seq<Project>)
    ensures forall i, j :: 0 <= i < j < |Dedupe(ps)| ==> KeyOf(Dedupe(ps)[i]) != KeyOf(Dedupe(ps)[j])
    ensures Keys(Dedupe(ps)) == Keys(ps)
  {
    var at := DedupeIsTheFirsts(ps);
    forall i, j | 0 <= i < j < |at|
      ensures KeyOf(Dedupe(ps)[i]) != KeyOf(Dedupe(ps)[j])
    {
      assert at[j] in at;
    }
    DedupeKeepsKeys(ps);
  }

  lemma {:induction false} DedupeKeepsKeys(ps: seq<Project>)
    ensures Keys(Dedupe(ps)) == Keys(ps)
    decreases |ps|
  {
    if ps == [] {
    } else {
      var front, p := ps[..|ps| - 1], ps[|ps| - 1];
      DedupeKeepsKeys(front);
      assert ps == front + [p];
      assert Keys(front + [p]) == Keys(front) + {KeyOf(p)};
      assert Keys(Dedupe(front) + [p]) == Keys(Dedupe(front)) + {KeyOf(p)};
    }
  }

  lemma {:induction false} FlattenHas<T>(ss: seq<seq<T>>, x: T)
    ensures x in Flatten(ss) <==> exists i :: 0 <= i < |ss| && x in ss[i]
    decreases |ss|
  {
    if ss == [] {
    } else {
      var front, last := ss[..|ss| - 1], ss[|ss| - 1];
      FlattenHas(front, x);
      if i :| 0 <= i < |front| && x in front[i] {
        assert x in ss[i];
      }
      if i :| 0 <= i < |ss| && x in ss[i] {
        assert i < |front| ==> x in front[i];
      }
    }
  }

  /** The host's worker ran, succeeded and found p. */
  predicate Has(h: HostRun, p: Project) {
    !h.down && h.result.Some? && p in h.result.value
  }

  /** A (host, root) is in the merged list exactly when the index of some host that is not down succeeded and
      has it. */
  lemma MergedIff(hosts: seq<HostRun>, host: HostID, root: string)
    ensures Key(host, root) in Keys(Dedupe(Flatten(Slots(hosts)))) <==>
      exists i, p :: 0 <= i < |hosts| && Has(hosts[i], p) && p.host == host && p.root == root
  {
    var all := Flatten(Slots(hosts));
    DedupeKeepsKeys(all);
    if p :| p in all && p.host == host && p.root == root {
      FlattenHas(Slots(hosts), p);
      var i :| 0 <= i < |Slots(hosts)| && p in Slots(hosts)[i];
      assert p in Slot(hosts[i]);
    }
    if i, p :| 0 <= i < |hosts| && Has(hosts[i], p) && p.host == host && p.root == root {
      FlattenHas(Slots(hosts), p);
      assert p in Slots(hosts)[i];
      assert KeyOf(p) in Keys(all);
    }
  }

  /** The workers, finishing in the given order, each writing its own slot. */
  method RunWorkers(hosts: seq<HostRun>, order: seq<nat>) returns (results: array<seq<Project>>)
    requires forall i :: i in order ==> i < |hosts| && !hosts[i].down
    requires forall i :: 0 <= i < |hosts| && !hosts[i].down ==> i in order
    ensures fresh(results) && results[..] == Slots(hosts) && results.Length == |hosts|
    ensures forall i :: 0 <= i < |hosts| ==>
      results[i] == if !hosts[i].down && hosts[i].result.Some? then hosts[i].result.value else []
  {
    results := new seq<Project>[|hosts|](_ => []);
    for k := 0 to |order|
      invariant forall i :: 0 <= i < |hosts| ==> results[i] == if i in order[..k] then Slot(hosts[i]) else []
    {
      var i := order[k];
      assert i in order;
      assert order[..k + 1] == order[..k] + [i];
      if hosts[i].result.Some? {
        results[i] := hosts[i].result.value;
      }
    }
    assert order[..|order|] == order;
  }

  lemma DedupeOneMore(ps: seq<Project>, p: Project)
    ensures Dedupe(ps + [p]) == if KeyOf(p) in Keys(ps) then Dedupe(ps) else Dedupe(ps) + [p]
    ensures Keys(ps + [p]) == Keys(ps) + {KeyOf(p)}
  {
    assert (ps + [p])[..|ps|] == ps;
  }

  /** The inner loop of the merge, over one host's projects. */
  method MergeSlot(projs: seq<Project>, seen: set<Key>, out: seq<Project>, ghost before: seq<Project>)
    returns (seen': set<Key>, out': seq<Project>)
    requires out == Dedupe(before) && seen == Keys(before)
    ensures out' == Dedupe(before + projs) && seen' == Keys(before + projs)
  {
    hide Dedupe, Keys;
    seen', out' := seen, out;
    assert before + projs[..0] == before;
    for j := 0 to |projs|
      invariant out' == Dedupe(before + projs[..j]) && seen' == Keys(before + projs[..j])
    {
      var p := projs[j];
      DedupeOneMore(before + projs[..j], p);
      assert before + projs[..j + 1] == before + projs[..j] + [p];
      if KeyOf(p) !in seen' {
        seen' := seen' + {KeyOf(p)};
        out' := out' + [p];
      } else {
        assert seen' + {KeyOf(p)} == seen';
      }
    }
    assert projs[..|projs|] == projs;
  }

  lemma NothingToDedupe()
    ensures Dedupe([]) == [] && Flatten<Project>([]) == []
  {
  }

  /** The merge: the outcome is a function of the workers' results alone, whatever the order in which they
      finished. */
  method Merge(hosts: seq<HostRun>, order: seq<nat>) returns (out: seq<Project>)
    requires forall i :: i in order ==> i < |hosts| && !hosts[i].down
    requires forall i :: 0 <= i < |hosts| && !hosts[i].down ==> i in order
    ensures out == Dedupe(Flatten(Slots(hosts)))
  {
    hide Dedupe;
    var results := RunWorkers(hosts, order);
    NothingToDedupe();
    var seen: set<Key> := {};
    out := [];
    ghost var slots := Slots(hosts);
    for i := 0 to results.Length
      invariant results[..] == slots
      invariant out == Dedupe(Flatten(slots[..i])) && seen == Keys(Flatten(slots[..i]))
    {
      seen, out := MergeSlot(results[i], seen, out, Flatten(slots[..i]));
      assert slots[..i + 1] == slots[..i] + [slots[i]];
      FlattenSnoc(slots[..i], slots[i]);
    }
    assert slots[..results.Length] == slots;
  }
}
