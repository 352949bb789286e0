/** internal/project/indexer.go: combining the two directory listings of a host into its projects. */
module ProjectIndex {
  import opened Basics
  import opened Identity
  import opened Paths
  import opened Strings

  predicate HasPrefix(s: string, p: string) {
    |p| <= |s| && s[..|p|] == p
  }

  /** dir is the repo root r, or nested under it. */
  predicate Inside(dir: string, r: string) {
    dir == r || HasPrefix(dir, r + "/")
  }

  predicate InsideAny(dir: string, repos: set<string>) {
    exists r :: r in repos && Inside(dir, r)
  }

  // ----- Path components

  lemma ConsPrefix<T>(x: T, a: seq<T>, y: T, b: seq<T>)
    ensures [x] + a <= [y] + b <==> x == y && a <= b
  {
    var p, q := [x] + a, [y] + b;
    if p <= q {
      assert x == p[0] == q[0] == y;
      forall i | 0 <= i < |a|
        ensures a[i] == b[i]
      {
        assert p[i + 1] == q[i + 1];
      }
    }
    if x == y && a <= b {
      assert [y] + b == [x] + a + b[|a|..];
    }
  }

  lemma HeadPrefix(c: char, a: seq<string>, d: char, b: seq<string>)
    requires a != [] && b != []
    ensures [[c] + a[0]] + a[1..] <= [[d] + b[0]] + b[1..] <==> c == d && a <= b
  {
    ConsPrefix([c] + a[0], a[1..], [d] + b[0], b[1..]);
    ConsPrefix(a[0], a[1..], b[0], b[1..]);
    assert a == [a[0]] + a[1..] && b == [b[0]] + b[1..];
    if [c] + a[0] == [d] + b[0] {
      assert c == ([c] + a[0])[0] == d && a[0] == ([c] + a[0])[1..] == b[0];
    }
  }

  lemma ComponentsPrefixStep(dir: string, r: string)
    requires dir != [] && r != []
    ensures Components(r) <= Components(dir) <==> dir[0] == r[0] && Components(r[1..]) <= Components(dir[1..])
  {
    var a, b := Components(r[1..]), Components(dir[1..]);
    if r[0] == '/' && dir[0] == '/' {
      ConsPrefix([], a, [], b);
    } else if r[0] != '/' && dir[0] != '/' {
      HeadPrefix(r[0], a, dir[0], b);
    } else {
      assert Components(r)[0] != Components(dir)[0];
    }
  }

  lemma InsideStep(dir: string, r: string)
    requires dir != [] && r != []
    ensures Inside(dir, r) <==> dir[0] == r[0] && Inside(dir[1..], r[1..])
  {
    assert dir == [dir[0]] + dir[1..] && r == [r[0]] + r[1..];
    ConsPrefix(r[0], r[1..] + "/", dir[0], dir[1..]);
    assert r + "/" == [r[0]] + (r[1..] + "/");
    assert HasPrefix(dir, r + "/") <==> r + "/" <= dir;
    assert HasPrefix(dir[1..], r[1..] + "/") <==> r[1..] + "/" <= dir[1..];
  }

  /** The test on strings is the test on paths: a directory is inside a repo exactly when the repo's
      components, as split at the slashes, begin its own. */
  lemma {:induction false} InsideIffComponentPrefix(dir: string, r: string)
    ensures Inside(dir, r) <==> Components(r) <= Components(dir)
    decreases |r|
  {
    if r == [] {
      assert Inside(dir, r) <==> dir == [] || dir[0] == '/';
      assert Components(r) == [[]];
      assert [[]] <= Components(dir) <==> Components(dir)[0] == [];
    } else if dir == [] {
      assert Components(dir) == [[]];
      assert Components(r)[0] != [] || |Components(r)| > 1;
    } else {
      InsideStep(dir, r);
      ComponentsPrefixStep(dir, r);
      InsideIffComponentPrefix(dir[1..], r[1..]);
    }
  }

  // ----- Combining

  function DirSet(lines: seq<string>): set<string> { set l | l in lines }

  /** All repo roots, and the listed directories inside none of them. */
  ghost function Roots(repos: set<string>, dirs: seq<string>): set<string> {
    repos + set d | d in dirs && !InsideAny(d, repos)
  }

  function ReposOf(git: seq<string>): set<string> { set l | l in git :: Dir(l) }

  datatype Project = Project(host: HostID, root: string, name: string)

  /** The loop over the repo map, in whatever order it is visited. */
  method CheckInsideAny(dir: string, repos: set<string>) returns (inside: bool)
    ensures inside == InsideAny(dir, repos)
  {
    var todo := repos;
    while todo != {}
      invariant todo <= repos && forall r :: r in repos - todo ==> !Inside(dir, r)
      decreases todo
    {
      var r :| r in todo;
      if dir == r || HasPrefix(dir, r + "/") {
        return true;
      }
      todo := todo - {r};
    }
    inside := false;
  }

  method CollectRoots(repos: set<string>, dirs: seq<string>) returns (roots: set<string>)
    ensures roots == Roots(repos, dirs)
  {
    roots := repos;
    for i := 0 to |dirs|
      invariant roots == Roots(repos, dirs[..i])
    {
      var inside := CheckInsideAny(dirs[i], repos);
      RootsOfOneMore(repos, dirs[..i], dirs[i]);
      assert dirs[..i + 1] == dirs[..i] + [dirs[i]];
      if !inside {
        roots := roots + {dirs[i]};
      }
    }
    assert dirs[..|dirs|] == dirs;
  }

  lemma RootsOfOneMore(repos: set<string>, dirs: seq<string>, d: string)
    ensures Roots(repos, dirs + [d]) == Roots(repos, dirs) + (if InsideAny(d, repos) then {} else {d})
  {
    assert forall x :: x in dirs + [d] <==> x in dirs || x == d;
  }

  ghost predicate Lists(out: seq<Project>, host: HostID, roots: seq<string>) {
    |out| == |roots| && forall i :: 0 <= i < |out| ==> out[i] == Project(host, roots[i], Base(roots[i]))
  }

  method ListProjects(host: HostID, roots: seq<string>) returns (out: seq<Project>)
    ensures Lists(out, host, roots)
  {
    out := [];
    for i := 0 to |roots|
      invariant |out| == i
      invariant forall j :: 0 <= j < i ==> out[j] == Project(host, roots[j], Base(roots[j]))
    {
      out := out + [Project(host, roots[i], Base(roots[i]))];
    }
  }

  /** The second half of Index: `git` are the .git directories found, `dirs` the immediate subdirectories. */
  method Combine(host: HostID, git: seq<string>, dirs: seq<string>) returns (out: seq<Project>, roots: seq<string>)
    ensures Lists(out, host, roots) && StrictlySorted(roots)
    ensures Strings.Elements(roots) == Roots(ReposOf(git), dirs)
    ensures forall p :: p in roots <==>
      (exists l :: l in git && p == Dir(l)) || (p in dirs && forall l :: l in git ==> p != Dir(l) && !(Dir(l) + "/" <= p))
  {
    RootsMean(git, dirs);
    hide StrictlySorted, Roots, Lists;
    var repos := set l | l in git :: Dir(l);
    var found := CollectRoots(repos, dirs);
    roots := Strings.Sort(found);
    out := ListProjects(host, roots);
    assert forall p :: p in roots <==> p in Strings.Elements(roots);
  }

  lemma RootsMean(git: seq<string>, dirs: seq<string>)
    ensures forall p :: p in Roots(ReposOf(git), dirs) <==>
      (exists l :: l in git && p == Dir(l)) || (p in dirs && forall l :: l in git ==> p != Dir(l) && !(Dir(l) + "/" <= p))
  {
    hide Dir;
    forall p
      ensures InsideAny(p, ReposOf(git)) <==> exists l :: l in git && (p == Dir(l) || Dir(l) + "/" <= p)
    {
      if InsideAny(p, ReposOf(git)) {
        var r :| r in ReposOf(git) && Inside(p, r);
        var l :| l in git && r == Dir(l);
      }
      if l :| l in git && (p == Dir(l) || Dir(l) + "/" <= p) {
        assert Dir(l) in ReposOf(git) && Inside(p, Dir(l));
      }
    }
  }

  /** Both listings in any order, with repeats or without, give the same projects. */
  lemma ListingOrderDoesNotMatter(a: seq<string>, b: seq<string>, repos: set<string>, dirs: seq<string>, more: seq<string>)
    requires StrictlySorted(a) && StrictlySorted(b) && DirSet(dirs) == DirSet(more)
    requires Strings.Elements(a) == Roots(repos, dirs) && Strings.Elements(b) == Roots(repos, more)
    ensures a == b
  {
    assert forall d :: d in dirs <==> d in DirSet(dirs);
    assert forall d :: d in more <==> d in DirSet(more);
    assert Roots(repos, dirs) == Roots(repos, more);
    SortedListingIsUnique(a, b);
  }

  // ----- One directory, one project?

  /** A root as Index goes on with it: without slashes at its end, and not empty. */
  predicate Trimmed(root: string) { root != [] && TrimSlashes(root) == root }

  /** A path as `find` prints it: the root as it was given, then the names on the way down. */
  function Below(root: string, names: seq<string>): string {
    if names == [] then root else Below(root, names[..|names| - 1]) + "/" + names[|names| - 1]
  }

  predicate FileNames(names: seq<string>) { forall n :: n in names ==> FileName(n) }

  ghost predicate IsGitLine(root: string, line: string) {
    exists names :: FileNames(names) && line == Below(root, names) + "/" + ".git"
  }

  ghost predicate IsDirLine(root: string, line: string) {
    exists name :: FileName(name) && line == root + "/" + name
  }

  /** Two outputs of `find` under this root. */
  ghost predicate IsListing(root: string, git: seq<string>, dirs: seq<string>) {
    (forall l :: l in git ==> IsGitLine(root, l)) && (forall l :: l in dirs ==> IsDirLine(root, l))
  }

  /** No directory is among the roots under two spellings. */
  ghost predicate OncePerDirectory(roots: set<string>) {
    forall p, q :: p in roots && q in roots && Clean(p) == Clean(q) ==> p == q
  }

  predicate CleanRoot(root: string) { Clean(root) == root && root != "." }

  lemma PrefixOfSnoc<T>(a: seq<T>, b: seq<T>, x: T)
    ensures a + [x] <= b + [x] <==> a == b || a + [x] <= b
  {
    var p, q := a + [x], b + [x];
    if |a| < |b| {
      assert q[..|p|] == b[..|p|];
    } else if |a| == |b| && p <= q {
      assert a == p[..|a|] == q[..|b|] == b;
    }
  }

  /** The repo in a listed directory, and that directory's own line. */
  lemma RepoOfDirectory(root: string, name: string)
    requires Trimmed(root) && FileName(name)
    ensures var d := root + "/" + name; var repo := Dir(d + "/" + ".git");
      && repo == Clean(d)
      && Components(d) == Components(root) + [name]
      && Components(repo) == CleanParts(NamesOf(root), Rooted(root)) + [name]
  {
    var d := root + "/" + name;
    DirOfEntry(d, ".git");
    NamesOfEntry(root, name);
    NamesAreTidy(d);
    PartsOfRebuilt(NamesOf(d), Rooted(d));
  }

  /** A directory that is a repo is recognised as one from its own line exactly when the configured root is
      clean, or itself leads through a directory spelled like the repo. */
  lemma RepoCoversItsLineIff(root: string, name: string)
    requires Trimmed(root) && FileName(name)
    ensures var d := root + "/" + name; var repo := Dir(d + "/" + ".git");
      Inside(d, repo) <==> CleanRoot(root) || Inside(root, repo)
  {
    var d := root + "/" + name;
    var repo := Dir(d + "/" + ".git");
    hide Components, NamesOf, Clean, Dir, Inside;
    RepoOfDirectory(root, name);
    InsideIffComponentPrefix(d, repo);
    InsideIffComponentPrefix(root, repo);
    PrefixOfSnoc(CleanParts(NamesOf(root), Rooted(root)), Components(root), name);
    CleanIff(root);
  }

  /** A name longer than the root is nowhere on it. */
  lemma LongNameIsNew(root: string, name: string)
    requires Trimmed(root) && FileName(name) && |name| > |root|
    ensures !Inside(root, Dir(root + "/" + name + "/" + ".git"))
  {
    var repo := Dir(root + "/" + name + "/" + ".git");
    RepoOfDirectory(root, name);
    InsideIffComponentPrefix(root, repo);
    PartsAreShort(root);
    assert Components(repo)[|Components(repo)| - 1] == name;
  }

  /** Under any root that is not clean, a repo directly below it can be listed twice: as the cleaned path of
      its .git directory, and as its own line. */
  lemma UncleanRootListsTwice(root: string, name: string)
    requires Trimmed(root) && !CleanRoot(root) && FileName(name)
    requires !Inside(root, Dir(root + "/" + name + "/" + ".git"))
    ensures var d := root + "/" + name;
      && IsListing(root, [d + "/" + ".git"], [d])
      && Roots(ReposOf([d + "/" + ".git"]), [d]) == {d, Clean(d)}
      && d != Clean(d) && !OncePerDirectory({d, Clean(d)})
  {
    var d := root + "/" + name;
    hide Clean, Dir, Components, NamesOf, CleanParts, Inside, Below;
    OneRepoListing(root, name);
    hide IsListing;
    RepoOfDirectory(root, name);
    RepoCoversItsLineIff(root, name);
    CleanTwice(d);
    RepoAndLine(d, d + "/" + ".git");
  }

  lemma RepoAndLine(d: string, git: string)
    requires !Inside(d, Dir(git))
    ensures Roots(ReposOf([git]), [d]) == {d, Dir(git)} && d != Dir(git)
  {
    hide Dir;
    assert ReposOf([git]) == {Dir(git)};
    assert Inside(Dir(git), Dir(git));
  }

  lemma OneRepoListing(root: string, name: string)
    requires FileName(name)
    ensures IsListing(root, [root + "/" + name + "/" + ".git"], [root + "/" + name])
  {
    var d := root + "/" + name;
    assert [name][..0] == [];
    assert Below(root, [name]) == d && FileNames([name]);
    assert IsDirLine(root, d) && IsGitLine(root, d + "/" + ".git");
  }

  lemma BelowIsNotEmpty(root: string, names: seq<string>)
    requires root != []
    ensures Below(root, names) != []
  {
  }

  lemma RepoIsClean(root: string, line: string)
    requires root != [] && IsGitLine(root, line)
    ensures Clean(Dir(line)) == Dir(line)
  {
    hide Clean, Dir;
    var names :| FileNames(names) && line == Below(root, names) + "/" + ".git";
    BelowIsNotEmpty(root, names);
    DirOfEntry(Below(root, names), ".git");
    CleanTwice(Below(root, names));
  }

  lemma DirLineIsClean(root: string, line: string)
    requires Trimmed(root) && CleanRoot(root) && IsDirLine(root, line)
    ensures Clean(line) == line
  {
    hide Clean, NamesOf, Components;
    var name :| FileName(name) && line == root + "/" + name;
    NamesOfEntry(root, name);
    CleanIff(root);
    assert line[|line| - 1] == name[|name| - 1] && name[|name| - 1] in name;
    CleanIff(line);
  }

  lemma ListedIsClean(root: string, git: seq<string>, dirs: seq<string>, p: string)
    requires Trimmed(root) && CleanRoot(root) && IsListing(root, git, dirs) && p in Roots(ReposOf(git), dirs)
    ensures Clean(p) == p
  {
    hide Clean, Dir, CleanRoot, IsGitLine, IsDirLine;
    if p in ReposOf(git) {
      var l :| l in git && p == Dir(l);
      RepoIsClean(root, l);
    } else {
      DirLineIsClean(root, p);
    }
  }

  /** Whatever is below it, a root lists no directory twice exactly when it is clean. `sethome` takes any path
      that begins with a slash, and Index only trims its end. */
  lemma NoDirectoryTwiceIff(root: string)
    requires Trimmed(root)
    ensures (forall git, dirs :: IsListing(root, git, dirs) ==> OncePerDirectory(Roots(ReposOf(git), dirs))) <==>
      CleanRoot(root)
  {
    hide Clean, Dir, Roots, ReposOf, IsListing;
    if CleanRoot(root) {
      forall git, dirs | IsListing(root, git, dirs)
        ensures OncePerDirectory(Roots(ReposOf(git), dirs))
      {
        forall p | p in Roots(ReposOf(git), dirs)
          ensures Clean(p) == p
        {
          ListedIsClean(root, git, dirs, p);
        }
      }
    } else {
      var name := seq(|root| + 1, i => 'a');
      assert name[0] == 'a';
      LongNameIsNew(root, name);
      UncleanRootListsTwice(root, name);
    }
  }

  lemma NamesOfDoubleSlash()
    ensures NamesOf("/h//u") == ["h", "u"]
  {
    var p := "/h//u";
    assert p == "" + "/" + "h//u" && "h//u" == "h" + "/" + "/u" && "/u" == "" + "/" + "u";
    SplitAtSlash("", "h//u");
    SplitAtSlash("h", "/u");
    SplitAtSlash("", "u");
    SplitOfName("h");
    SplitOfName("u");
    var parts := ["", "h", "", "u"];
    assert Components(p) == parts;
    assert parts == [] + [""] + ["h"] + [""] + ["u"];
    ReduceSnoc([], "", true);
    ReduceSnoc([] + [""], "h", true);
    ReduceSnoc([] + [""] + ["h"], "", true);
    ReduceSnoc([] + [""] + ["h"] + [""], "u", true);
  }

  lemma CleanOfDoubleSlash()
    ensures Clean("/h//u/a") == "/h/u/a"
  {
    NamesOfDoubleSlash();
    NamesOfEntry("/h//u", "a");
    assert "/h//u" + "/" + "a" == "/h//u/a";
    hide Components, Reduce, NamesOf;
    var names := ["h", "u"] + ["a"];
    assert names[1..] == ["u", "a"] && names[1..][1..] == ["a"];
    assert "h" + "/" + ("u" + "/" + "a") == "h/u/a";
    assert "/" + "h/u/a" == "/h/u/a";
  }

  /** A double slash inside the root is enough. */
  lemma DoubleSlashListsTwice()
    ensures Roots(ReposOf(["/h//u/a/.git"]), ["/h//u/a"]) == {"/h//u/a", "/h/u/a"}
  {
    CleanOfDoubleSlash();
    hide Clean, Dir;
    DirOfEntry("/h//u/a", ".git");
    assert "/h//u/a" + "/" + ".git" == "/h//u/a/.git";
    assert ReposOf(["/h//u/a/.git"]) == {"/h/u/a"};
    assert !Inside("/h//u/a", "/h/u/a") by {
      assert "/h//u/a"[3] != "/h/u/a"[3];
    }
  }
}
