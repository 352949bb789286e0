/** internal/registry/file_registry.go: hosts in memory, and hosts.json written by temp file and rename. */
module Registry {
  import opened Basics
  import opened Strings
  import opened Identity

  datatype Host = Host(
    id: HostID, addr: string, user: string, name: string, keyRef: string,
    root: string, scanDepth: int, color: string, status: HostStatus, lastSeen: int)

  type Hosts = map<HostID, Host>

  /** A file is a complete JSON list of hosts, or what an interrupted write left. */
  datatype File = Complete(list: seq<Host>) | Torn

  datatype Disk = Disk(main: Option<File>, tmp: Option<File>)

  /** Every host is filed under its own id. */
  ghost predicate Filed(hosts: Hosts) {
    forall k :: k in hosts ==> hosts[k].id == k
  }

  // ----- The sorted list that is saved

  function Ids(list: seq<Host>): seq<HostID> {
    seq(|list|, i requires 0 <= i < |list| => list[i].id)
  }

  /** The hosts of the map, each once, in id order. */
  ghost predicate IsListing(list: seq<Host>, hosts: Hosts) {
    && StrictlySorted(Ids(list))
    && Strings.Elements(Ids(list)) == hosts.Keys
    && forall i :: 0 <= i < |list| ==> list[i].id in hosts && list[i] == hosts[list[i].id]
  }

  /** Map iteration order and the sort's instability make no difference: equal maps save equal lists. */
  lemma ListingIsUnique(a: seq<Host>, b: seq<Host>, hosts: Hosts)
    requires IsListing(a, hosts) && IsListing(b, hosts)
    ensures a == b
  {
    SortedListingIsUnique(Ids(a), Ids(b));
    assert |a| == |Ids(a)| == |Ids(b)| == |b|;
    forall i | 0 <= i < |a|
      ensures a[i] == b[i]
    {
      assert Ids(a)[i] == Ids(b)[i];
    }
  }

  /** Load's loop: a later host of the same id replaces an earlier one. */
  function FromList(list: seq<Host>): Hosts {
    if list == [] then map[]
    else FromList(list[..|list| - 1])[list[|list| - 1].id := list[|list| - 1]]
  }

  lemma {:induction false} FromListIsFiled(list: seq<Host>)
    ensures Filed(FromList(list)) && FromList(list).Keys == Strings.Elements(Ids(list))
    decreases |list|
  {
    if list == [] {
    } else {
      var front := list[..|list| - 1];
      FromListIsFiled(front);
      assert Ids(list) == Ids(front) + [list[|list| - 1].id];
    }
  }

  /** A loaded id has the last host of the list that bears it. */
  lemma {:induction false} LastOneWins(list: seq<Host>, i: nat)
    requires i < |list| && forall j :: i < j < |list| ==> list[j].id != list[i].id
    ensures list[i].id in FromList(list) && FromList(list)[list[i].id] == list[i]
    decreases |list|
  {
    if i == |list| - 1 {
    } else {
      LastOneWins(list[..|list| - 1], i);
    }
  }

  lemma {:induction false} FromListFinds(list: seq<Host>, i: nat)
    requires StrictlySorted(Ids(list)) && i < |list|
    ensures list[i].id in FromList(list) && FromList(list)[list[i].id] == list[i]
    decreases |list|
  {
    var n := |list| - 1;
    var front := list[..n];
    if i < n {
      assert Ids(front) == Ids(list)[..n];
      FromListFinds(front, i);
      assert front[i] == list[i];
      assert Less(Ids(list)[i], Ids(list)[n]);
      LessIrreflexive(list[i].id);
    }
  }

  /** Reading back what was saved gives the map that was saved. */
  lemma LoadUndoesSave(list: seq<Host>, hosts: Hosts)
    requires IsListing(list, hosts)
    ensures FromList(list) == hosts
  {
    FromListIsFiled(list);
    forall k | k in hosts
      ensures FromList(list)[k] == hosts[k]
    {
      assert k in Ids(list);
      var i :| 0 <= i < |Ids(list)| && Ids(list)[i] == k;
      FromListFinds(list, i);
    }
  }

  // ----- Saving, step by step

  /** How far a save gets: fails at a step with an error, or the machine stops there. */
  datatype Reach = NotStarted | Tearing | TempWritten | Renamed

  /** os.WriteFile on the temp file, then os.Rename over the main one. */
  function DiskAt(d: Disk, list: seq<Host>, r: Reach): Disk {
    match r
    case NotStarted => d
    case Tearing => d.(tmp := Some(Torn))
    case TempWritten => d.(tmp := Some(Complete(list)))
    case Renamed => Disk(Some(Complete(list)), None)
  }

  /** What Load makes of a disk. */
  function Loaded(d: Disk): Option<Hosts> {
    match d.main
    case None => Some(map[])
    case Some(Torn) => None
    case Some(Complete(list)) => Some(FromList(list))
  }

  /** Wherever a save stops, the next Load sees the old registry or the new one, whole. */
  lemma CrashLeavesOldOrNew(d: Disk, list: seq<Host>, hosts: Hosts, r: Reach)
    requires IsListing(list, hosts)
    ensures Loaded(DiskAt(d, list, r)) == if r.Renamed? then Some(hosts) else Loaded(d)
  {
    LoadUndoesSave(list, hosts);
  }

  // ----- The operations

  datatype Change =
    | Add(host: Host)
    | Remove(id: HostID)
    | SetName(id: HostID, name: string)
    | SetHome(id: HostID, root: string, scanDepth: int)
    | SetColor(id: HostID, color: string)
    | SetStatus(id: HostID, status: HostStatus, now: int)

  /** A blank id is derived from user and address. */
  function WithId(h: Host, derive: (string, string) -> HostID): Host {
    if h.id == "" then h.(id := derive(h.user, h.addr)) else h
  }

  predicate Refused(hosts: Hosts, c: Change, derive: (string, string) -> HostID) {
    if c.Add? then WithId(c.host, derive).id in hosts else c.id !in hosts
  }

  /** The map after an operation that is not refused, saved or not. */
  function Changed(hosts: Hosts, c: Change, derive: (string, string) -> HostID): Hosts
    requires !Refused(hosts, c, derive)
  {
    match c
    case Add(h) => hosts[WithId(h, derive).id := WithId(h, derive)]
    case Remove(id) => hosts - {id}
    case SetName(id, name) => hosts[id := hosts[id].(name := name)]
    case SetHome(id, root, depth) => hosts[id := hosts[id].(root := root, scanDepth := depth)]
    case SetColor(id, color) => hosts[id := hosts[id].(color := color)]
    case SetStatus(id, status, now) => hosts[id := hosts[id].(status := status, lastSeen := now)]
  }

  /** Each operation keeps the filing, and leaves every other host as it was. */
  lemma ChangeTouchesOneHost(hosts: Hosts, c: Change, derive: (string, string) -> HostID, k: HostID)
    requires Filed(hosts) && !Refused(hosts, c, derive)
    requires k != if c.Add? then WithId(c.host, derive).id else c.id
    ensures Filed(Changed(hosts, c, derive))
    ensures k in Changed(hosts, c, derive) <==> k in hosts
    ensures k in hosts ==> Changed(hosts, c, derive)[k] == hosts[k]
  {
  }

  /** What is refused: adding a host that is there, changing one that is not. */
  lemma RefusedIff(hosts: Hosts, c: Change, derive: (string, string) -> HostID)
    ensures c.Add? ==> (Refused(hosts, c, derive) <==>
      (if c.host.id == "" then derive(c.host.user, c.host.addr) else c.host.id) in hosts)
    ensures !c.Add? ==> (Refused(hosts, c, derive) <==> c.id !in hosts)
  {
  }

  /** What becomes of the host it names: it is there as given, or gone, or differs in what was set. */
  lemma ChangeAtItsHost(hosts: Hosts, c: Change, derive: (string, string) -> HostID)
    requires !Refused(hosts, c, derive)
    ensures var after := Changed(hosts, c, derive);
      match c
      case Add(h) =>
        var id := if h.id == "" then derive(h.user, h.addr) else h.id;
        id in after && after[id].id == id && after[id].(id := h.id) == h
      case Remove(id) => id !in after
      case SetName(id, name) =>
        id in after && after[id].name == name && after[id].(name := hosts[id].name) == hosts[id]
      case SetHome(id, root, depth) =>
        id in after && after[id].root == root && after[id].scanDepth == depth
        && after[id].(root := hosts[id].root, scanDepth := hosts[id].scanDepth) == hosts[id]
      case SetColor(id, color) =>
        id in after && after[id].color == color && after[id].(color := hosts[id].color) == hosts[id]
      case SetStatus(id, status, now) =>
        id in after && after[id].status == status && after[id].lastSeen == now
        && after[id].(status := hosts[id].status, lastSeen := hosts[id].lastSeen) == hosts[id]
  {
  }

  /** Removing a host that was added leaves what there was before. */
  lemma RemoveUndoesAdd(hosts: Hosts, h: Host, derive: (string, string) -> HostID)
    requires !Refused(hosts, Add(h), derive)
    ensures var more, id := Changed(hosts, Add(h), derive), if h.id == "" then derive(h.user, h.addr) else h.id;
      !Refused(more, Remove(id), derive) && Changed(more, Remove(id), derive) == hosts
  {
  }

  class FileRegistry {
    const derive: (string, string) -> HostID
    var hosts: Hosts
    var disk: Disk
    ghost var saved: Hosts   // memory as of the last save that succeeded, or as last loaded

    /** The main file holds the last successful save, whatever later saves did. */
    ghost predicate Valid()
      reads this
    {
      Filed(hosts) && Filed(saved) && Loaded(disk) == Some(saved)
    }

    /** NewFileRegistry followed by Load; a file that cannot be read or parsed leaves it empty and in error. */
    constructor (disk: Disk, derive: (string, string) -> HostID)
      ensures this.disk == disk && this.derive == derive
      ensures Loaded(disk).Some? ==> Valid() && hosts == saved == Loaded(disk).value
      ensures Loaded(disk).None? ==> hosts == map[]
    {
      this.disk, this.derive := disk, derive;
      hosts, saved := map[], map[];
      new;
      var _ := Load();
    }

    /** A missing file gives no hosts; one that does not parse is an error and changes nothing. */
    method Load() returns (ok: bool)
      modifies this`hosts, this`saved
      ensures ok == Loaded(disk).Some? == (disk.main.None? || disk.main.value.Complete?)
      ensures disk.main.None? ==> hosts == map[]
      ensures ok ==> Valid() && hosts == saved == Loaded(disk).value
      ensures !ok ==> hosts == old(hosts) && saved == old(saved)
    {
      var loaded: Hosts := map[];
      if disk.main.Some? {
        if disk.main.value.Torn? {
          return false;
        }
        var list := disk.main.value.list;
        for i := 0 to |list|
          invariant loaded == FromList(list[..i])
        {
          assert list[..i + 1][..i] == list[..i];
          loaded := loaded[list[i].id := list[i]];
        }
        assert list[..|list|] == list;
        FromListIsFiled(list);
      }
      hosts, saved, ok := loaded, loaded, true;
    }

    method List() returns (list: seq<Host>)
      requires Filed(hosts)
      ensures IsListing(list, hosts)
    {
      var ids := Strings.Sort(hosts.Keys);
      list := [];
      assert forall k :: k in ids ==> k in Strings.Elements(ids);
      for i := 0 to |ids|
        invariant |list| == i
        invariant forall j :: 0 <= j < i ==> list[j] == hosts[ids[j]]
      {
        assert ids[i] in Strings.Elements(ids);
        list := list + [hosts[ids[i]]];
      }
      assert Ids(list) == ids;
    }

    /** saveLocked, given how far the file system lets it get; an error unless it reaches the rename. */
    method Save(r: Reach) returns (ok: bool)
      requires Valid()
      modifies this`disk, this`saved
      ensures Valid() && ok == r.Renamed?
      ensures saved == if ok then hosts else old(saved)
      ensures exists list :: IsListing(list, hosts) && disk == DiskAt(old(disk), list, r)
    {
      var list := List();
      CrashLeavesOldOrNew(disk, list, hosts, r);
      disk := DiskAt(disk, list, r);
      ok := r.Renamed?;
      if ok {
        saved := hosts;
      }
    }

    /** Memory changes even when the save then fails; the disk does not. */
    method Apply(c: Change, r: Reach) returns (ok: bool)
      requires Valid()
      modifies this
      ensures Valid() && ok == (!Refused(old(hosts), c, derive) && r.Renamed?)
      ensures hosts == if Refused(old(hosts), c, derive) then old(hosts) else Changed(old(hosts), c, derive)
      ensures saved == if ok then hosts else old(saved)
    {
      match c {
        case Add(h) =>
          var host := if h.id == "" then h.(id := derive(h.user, h.addr)) else h;
          if host.id in hosts {
            return false;
          }
          hosts := hosts[host.id := host];
        case Remove(id) =>
          if id !in hosts {
            return false;
          }
          hosts := hosts - {id};
        case SetName(id, name) =>
          if id !in hosts {
            return false;
          }
          hosts := hosts[id := hosts[id].(name := name)];
        case SetHome(id, root, depth) =>
          if id !in hosts {
            return false;
          }
          hosts := hosts[id := hosts[id].(root := root, scanDepth := depth)];
        case SetColor(id, color) =>
          if id !in hosts {
            return false;
          }
          hosts := hosts[id := hosts[id].(color := color)];
        case SetStatus(id, status, now) =>
          if id !in hosts {
            return false;
          }
          hosts := hosts[id := hosts[id].(status := status, lastSeen := now)];
      }
      ok := Save(r);
    }

    /** The server stops and starts again: whatever was lost, what was last saved comes back. */
    method Restart()
      requires Valid()
      modifies this`hosts, this`saved
      ensures Valid() && hosts == saved == old(saved)
    {
      var _ := Load();
    }
  }
}
