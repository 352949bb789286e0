/** Slash-separated paths, as Go's path package reads them. */
module Paths {

  /** The parts between the slashes. */
  function Components(p: string): (parts: seq<string>)
    ensures |parts| > 0
  {
    if p == [] then [[]]
    else
      var rest := Components(p[1..]);
      if p[0] == '/' then [[]] + rest else [[p[0]] + rest[0]] + rest[1..]
  }

  /** The parts with slashes between them. */
  function Join(parts: seq<string>): string {
    if parts == [] then []
    else if |parts| == 1 then parts[0]
    else parts[0] + "/" + Join(parts[1..])
  }

  predicate NoSlash(s: string) { '/' !in s }

  /** A name a directory can have. */
  predicate FileName(s: string) {
    s != [] && NoSlash(s) && s != "." && s != ".."
  }

  predicate Rooted(p: string) { p != [] && p[0] == '/' }

  /** The names left of a path's components: empty ones and "." vanish, ".." takes back the name before it,
      and stays only at the front of a relative path. */
  function Reduce(parts: seq<string>, rooted: bool): seq<string> {
    if parts == [] then []
    else
      Taken(Reduce(parts[..|parts| - 1], rooted), parts[|parts| - 1], rooted)
  }

  /** One component more. */
  function Taken(names: seq<string>, last: string, rooted: bool): seq<string> {
    if last == [] || last == "." then names
    else if last != ".." then names + [last]
    else if names != [] && names[|names| - 1] != ".." then names[..|names| - 1]
    else if rooted then names
    else names + [last]
  }

  function NamesOf(p: string): seq<string> { Reduce(Components(p), Rooted(p)) }

  function Rebuild(names: seq<string>, rooted: bool): string {
    if rooted then "/" + Join(names) else if names == [] then "." else Join(names)
  }

  /** The shortest spelling of a path, as path.Clean gives it. */
  function Clean(p: string): string { Rebuild(NamesOf(p), Rooted(p)) }

  /** How much of p is before and including its last slash. */
  function DirLength(p: string): (n: nat)
    ensures n <= |p|
  {
    if p == [] || p[|p| - 1] == '/' then |p| else DirLength(p[..|p| - 1])
  }

  /** All but the last element, cleaned. */
  function Dir(p: string): string { Clean(p[..DirLength(p)]) }

  // ----- Splitting and joining

  lemma {:induction false} JoinUndoesSplit(p: string)
    ensures Join(Components(p)) == p
    decreases |p|
  {
    if p == [] {
    } else {
      var rest := Components(p[1..]);
      JoinUndoesSplit(p[1..]);
      assert p == [p[0]] + p[1..];
      if p[0] == '/' {
        assert ([[]] + rest)[1..] == rest;
      } else if |rest| > 1 {
        var parts := [[p[0]] + rest[0]] + rest[1..];
        assert parts[1..] == rest[1..];
        assert [p[0]] + rest[0] + "/" + Join(rest[1..]) == [p[0]] + (rest[0] + "/" + Join(rest[1..]));
      }
    }
  }

  lemma {:induction false} SplitOfName(name: string)
    requires NoSlash(name)
    ensures Components(name) == [name]
    decreases |name|
  {
    if name == [] {
    } else {
      SplitOfName(name[1..]);
      assert name == [name[0]] + name[1..];
    }
  }

  /** Splitting at a slash of one's choice. */
  lemma {:induction false} SplitAtSlash(a: string, b: string)
    ensures Components(a + "/" + b) == Components(a) + Components(b)
    decreases |a|
  {
    var p := a + "/" + b;
    if a == [] {
      assert p == "/" + b && p[1..] == b;
    } else {
      assert p[1..] == a[1..] + "/" + b;
      SplitAtSlash(a[1..], b);
    }
  }

  lemma {:induction false} SplitUndoesJoin(parts: seq<string>)
    requires parts != [] && forall s :: s in parts ==> NoSlash(s)
    ensures Components(Join(parts)) == parts
    decreases |parts|
  {
    SplitOfName(parts[0]);
    if |parts| == 1 {
    } else {
      SplitUndoesJoin(parts[1..]);
      SplitAtSlash(parts[0], Join(parts[1..]));
      assert parts == [parts[0]] + parts[1..];
    }
  }

  lemma SplitIsInjective(p: string, q: string)
    ensures Components(p) == Components(q) <==> p == q
  {
    JoinUndoesSplit(p);
    JoinUndoesSplit(q);
  }

  lemma {:induction false} PartsHaveNoSlash(p: string)
    ensures forall s :: s in Components(p) ==> NoSlash(s)
    decreases |p|
  {
    if p == [] {
    } else {
      PartsHaveNoSlash(p[1..]);
      var rest := Components(p[1..]);
      assert rest[0] in rest && forall s :: s in rest[1..] ==> s in rest;
      if p[0] != '/' {
        forall s | s in Components(p)
          ensures NoSlash(s)
        {
          assert s == [p[0]] + rest[0] || s in rest[1..];
        }
      }
    }
  }

  // ----- Cleaning

  /** Dots stay only at the front of a relative path. */
  ghost predicate Tidy(names: seq<string>, rooted: bool) {
    && (forall i :: 0 <= i < |names| ==> names[i] != [] && names[i] != "." && NoSlash(names[i]))
    && (forall i, j :: 0 <= i <= j < |names| && names[j] == ".." ==> !rooted && names[i] == "..")
  }

  lemma {:induction false} ReducedIsTidy(parts: seq<string>, rooted: bool)
    requires forall s :: s in parts ==> NoSlash(s)
    ensures Tidy(Reduce(parts, rooted), rooted)
    decreases |parts|
  {
    if parts == [] {
    } else {
      assert parts[|parts| - 1] in parts;
      ReducedIsTidy(parts[..|parts| - 1], rooted);
    }
  }

  lemma {:induction false} TidyIsReduced(names: seq<string>, rooted: bool)
    requires Tidy(names, rooted)
    ensures Reduce(names, rooted) == names
    decreases |names|
  {
    if names == [] {
    } else {
      var front := names[..|names| - 1];
      TidyIsReduced(front, rooted);
      assert names == front + [names[|names| - 1]];
      if names[|names| - 1] == ".." && front != [] {
        assert front[|front| - 1] == names[|names| - 2] == "..";
      }
    }
  }

  /** Empty components do not matter. */
  lemma {:induction false} ReduceSkipsEmptyFirst(parts: seq<string>, rooted: bool)
    ensures Reduce([[]] + parts, rooted) == Reduce(parts, rooted)
    decreases |parts|
  {
    var all: seq<string> := [[]] + parts;
    if parts == [] {
      assert all[..0] == [];
    } else {
      hide Taken;
      ReduceSkipsEmptyFirst(parts[..|parts| - 1], rooted);
      assert all[..|all| - 1] == [[]] + parts[..|parts| - 1];
    }
  }

  lemma ReduceSnoc(parts: seq<string>, last: string, rooted: bool)
    ensures last == [] ==> Reduce(parts + [last], rooted) == Reduce(parts, rooted)
    ensures FileName(last) ==> Reduce(parts + [last], rooted) == Reduce(parts, rooted) + [last]
  {
    assert (parts + [last])[..|parts|] == parts;
  }

  /** The components of a cleaned path: its names, after an empty one when it is rooted. */
  function CleanParts(names: seq<string>, rooted: bool): seq<string> {
    (if rooted then [[]] else []) + names
  }

  lemma PartsOfRebuilt(names: seq<string>, rooted: bool)
    requires Tidy(names, rooted) && names != []
    ensures Components(Rebuild(names, rooted)) == CleanParts(names, rooted)
    ensures Rooted(Rebuild(names, rooted)) == rooted
    ensures Clean(Rebuild(names, rooted)) == Rebuild(names, rooted)
  {
    hide Reduce, Components, Join, NamesOf;
    if rooted {
      RootedParts(names);
    } else {
      RelativeParts(names);
    }
  }

  lemma RootedParts(names: seq<string>)
    requires Tidy(names, true) && names != []
    ensures Components("/" + Join(names)) == [[]] + names && NamesOf("/" + Join(names)) == names
  {
    hide Reduce, Components;
    assert "/" + Join(names) == [] + "/" + Join(names);
    SplitUndoesJoin(names);
    SplitAtSlash([], Join(names));
    NoParts();
    ReduceSkipsEmptyFirst(names, true);
    TidyIsReduced(names, true);
  }

  lemma RelativeParts(names: seq<string>)
    requires Tidy(names, false) && names != []
    ensures Components(Join(names)) == names && NamesOf(Join(names)) == names && !Rooted(Join(names))
  {
    hide Reduce, Components;
    SplitUndoesJoin(names);
    FirstOfJoined(names);
    TidyIsReduced(names, false);
  }

  lemma NoParts()
    ensures Components([]) == [[]]
  {
  }

  lemma FirstOfJoined(names: seq<string>)
    requires names != [] && names[0] != [] && NoSlash(names[0])
    ensures !Rooted(Join(names))
  {
    assert names[0][0] in names[0];
  }

  lemma NamesAreTidy(p: string)
    ensures Tidy(NamesOf(p), Rooted(p))
  {
    PartsHaveNoSlash(p);
    ReducedIsTidy(Components(p), Rooted(p));
  }

  lemma NoNamesIsNotClean(p: string)
    requires p != [] && p[|p| - 1] != '/' && NamesOf(p) == []
    ensures Components(p) != CleanParts([], Rooted(p)) && (Clean(p) == p ==> p == ".")
  {
    hide Reduce;
    SplitIsInjective(p, []);
    assert Rebuild([], true) == "/";
  }

  lemma DotHasNoNames()
    ensures NamesOf(".") == []
  {
    SplitOfName(".");
    assert ["."][..0] == [];
  }

  lemma SlashHasNoNames()
    ensures NamesOf("/") == []
  {
    var parts: seq<string> := [[], []];
    assert "/"[1..] == [] && Components("/") == parts;
    assert parts[..1] == [[]] && parts[..1][..0] == [];
  }

  lemma CleanWithNames(p: string)
    requires NamesOf(p) != [] && Tidy(NamesOf(p), Rooted(p))
    ensures Components(p) == CleanParts(NamesOf(p), Rooted(p)) <==> Clean(p) == p
    ensures p != "."
  {
    DotHasNoNames();
    hide Reduce, Components;
    PartsOfRebuilt(NamesOf(p), Rooted(p));
    SplitIsInjective(p, Clean(p));
  }

  /** A non-empty path without a slash at its end, other than ".", is clean exactly when its components are its
      names, after an empty one when it is rooted. */
  lemma CleanIff(p: string)
    requires p != [] && p[|p| - 1] != '/'
    ensures Components(p) == CleanParts(NamesOf(p), Rooted(p)) <==> Clean(p) == p && p != "."
  {
    var names := NamesOf(p);
    NamesAreTidy(p);
    if names == [] {
      NoNamesIsNotClean(p);
    } else {
      CleanWithNames(p);
    }
  }

  lemma {:induction false} DirLengthOf(p: string, name: string)
    requires NoSlash(name)
    ensures DirLength(p + "/" + name) == |p| + 1
    decreases |name|
  {
    var s := p + "/" + name;
    if name == [] {
    } else {
      assert s[..|s| - 1] == p + "/" + name[..|name| - 1];
      DirLengthOf(p, name[..|name| - 1]);
    }
  }

  /** The directory holding an entry of d is d, cleaned. */
  lemma DirOfEntry(d: string, name: string)
    requires d != [] && NoSlash(name)
    ensures Dir(d + "/" + name) == Clean(d)
  {
    DirLengthOf(d, name);
    assert (d + "/" + name)[..|d| + 1] == d + "/" + [];
    SplitAtSlash(d, []);
    ReduceSnoc(Components(d), [], Rooted(d));
  }

  /** Cleaning a directory's entry cleans the directory. */
  lemma NamesOfEntry(d: string, name: string)
    requires d != [] && FileName(name)
    ensures Rooted(d + "/" + name) == Rooted(d)
    ensures Components(d + "/" + name) == Components(d) + [name]
    ensures NamesOf(d + "/" + name) == NamesOf(d) + [name]
  {
    SplitAtSlash(d, name);
    SplitOfName(name);
    ReduceSnoc(Components(d), name, Rooted(d));
  }

  /** What is cleaned is clean. */
  lemma CleanTwice(p: string)
    ensures Clean(Clean(p)) == Clean(p)
  {
    NamesAreTidy(p);
    if NamesOf(p) == [] {
      DotHasNoNames();
      SlashHasNoNames();
    } else {
      PartsOfRebuilt(NamesOf(p), Rooted(p));
    }
  }

  lemma {:induction false} PartsAreShort(p: string)
    ensures forall s :: s in Components(p) ==> |s| <= |p|
    decreases |p|
  {
    if p == [] {
    } else {
      var rest := Components(p[1..]);
      PartsAreShort(p[1..]);
      assert rest[0] in rest && forall s :: s in rest[1..] ==> s in rest;
      if p[0] != '/' {
        forall s | s in Components(p)
          ensures |s| <= |p|
        {
          assert s == [p[0]] + rest[0] || s in rest[1..];
        }
      }
    }
  }

  /** The path without slashes at its end. */
  function TrimSlashes(p: string): (r: string)
    ensures |r| <= |p| && (r == [] || r[|r| - 1] != '/')
  {
    if p != [] && p[|p| - 1] == '/' then TrimSlashes(p[..|p| - 1]) else p
  }

  /** The last element of a path. */
  function Base(p: string): string {
    var s := TrimSlashes(p);
    if p == [] then "." else if s == [] then "/" else s[DirLength(s)..]
  }

  lemma BaseOfEntry(d: string, name: string)
    requires FileName(name)
    ensures Base(d + "/" + name) == name
  {
    var p := d + "/" + name;
    assert p[|p| - 1] == name[|name| - 1] && name[|name| - 1] in name;
    DirLengthOf(d, name);
    assert p[|d| + 1..] == name;
  }

  // ----- Cleaning keeps the way

  /** One step down, up, or nowhere; the root is its own parent. */
  function Step(at: seq<string>, part: string): seq<string> {
    if part == [] || part == "." then at
    else if part != ".." then at + [part]
    else if at == [] then at
    else at[..|at| - 1]
  }

  /** Where a path leads from the directory `at`. */
  function Walk(at: seq<string>, parts: seq<string>): seq<string> {
    if parts == [] then at else Step(Walk(at, parts[..|parts| - 1]), parts[|parts| - 1])
  }

  lemma WalkSnoc(at: seq<string>, parts: seq<string>, last: string)
    ensures Walk(at, parts + [last]) == Step(Walk(at, parts), last)
  {
    assert (parts + [last])[..|parts|] == parts;
  }

  lemma {:induction false} ReducedLeadsThere(at: seq<string>, parts: seq<string>, rooted: bool)
    requires rooted ==> at == []
    ensures Walk(at, Reduce(parts, rooted)) == Walk(at, parts)
    decreases |parts|
  {
    if parts == [] {
    } else {
      var front, last := parts[..|parts| - 1], parts[|parts| - 1];
      var names := Reduce(front, rooted);
      ReducedLeadsThere(at, front, rooted);
      WalkSnoc(at, names, last);
      if last == ".." && names != [] && names[|names| - 1] != ".." {
        NoBlankLast(front, rooted);
        var shorter := names[..|names| - 1];
        WalkSnoc(at, shorter, names[|names| - 1]);
        assert shorter + [names[|names| - 1]] == names;
        assert Walk(at, names) == Walk(at, shorter) + [names[|names| - 1]];
      } else if last == ".." && rooted {
        OnlyUps(front);
      }
    }
  }

  lemma {:induction false} NoBlankLast(parts: seq<string>, rooted: bool)
    ensures forall i :: 0 <= i < |Reduce(parts, rooted)| ==> Reduce(parts, rooted)[i] != [] && Reduce(parts, rooted)[i] != "."
    decreases |parts|
  {
    if parts == [] {
    } else {
      NoBlankLast(parts[..|parts| - 1], rooted);
    }
  }

  /** From the root no ".." is left. */
  lemma {:induction false} OnlyUps(parts: seq<string>)
    ensures forall i :: 0 <= i < |Reduce(parts, true)| ==> Reduce(parts, true)[i] != ".."
    decreases |parts|
  {
    if parts == [] {
    } else {
      OnlyUps(parts[..|parts| - 1]);
    }
  }

  /** The clean path leads where the path leads: from the file system root when it is rooted, and otherwise from
      wherever it is followed. */
  lemma CleanLeadsThere(at: seq<string>, p: string)
    requires Rooted(p) ==> at == []
    ensures Walk(at, Components(Clean(p))) == Walk(at, Components(p))
  {
    var names := NamesOf(p);
    NamesAreTidy(p);
    ReducedLeadsThere(at, Components(p), Rooted(p));
    if names == [] {
      WalkNowhere(at);
    } else {
      PartsOfRebuilt(names, Rooted(p));
      hide Reduce, Components;
      WalkFromBlank(at, names);
      assert CleanParts(names, true) == [[]] + names && CleanParts(names, false) == names;
    }
  }

  lemma WalkNowhere(at: seq<string>)
    ensures Walk(at, Components("/")) == Walk(at, Components(".")) == at == Walk(at, [])
  {
    var two, dot: seq<string> := [[], []], ["."];
    assert "/"[1..] == [] && Components("/") == two;
    SplitOfName(".");
    WalkSnoc(at, [], ".");
    assert [] + ["."] == dot;
    var one: seq<string> := [[]];
    assert two[..1] == one && one[..0] == [];
  }

  lemma {:induction false} WalkFromBlank(at: seq<string>, parts: seq<string>)
    ensures Walk(at, [[]] + parts) == Walk(at, parts)
    decreases |parts|
  {
    if parts == [] {
      WalkSnoc(at, [], []);
      assert [[]] + parts == [] + [[]];
    } else {
      var front := parts[..|parts| - 1];
      WalkFromBlank(at, front);
      WalkSnoc(at, [[]] + front, parts[|parts| - 1]);
      assert [[]] + parts == [[]] + front + [parts[|parts| - 1]];
    }
  }
}
