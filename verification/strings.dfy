/** String order, as Go's < on strings and sort.Strings use it. */
module Strings {

  predicate Less(a: string, b: string) {
    b != [] && (a == [] || a[0] < b[0] || (a[0] == b[0] && Less(a[1..], b[1..])))
  }

  /** At n the strings part: a ends there, or has the smaller character. */
  predicate PartAt(a: string, b: string, n: int) {
    0 <= n <= |a| && n < |b| && a[..n] == b[..n] && (n == |a| || a[n] < b[n])
  }

  /** Less is the order of the first difference, a prefix coming first. */
  lemma {:induction false} LessIff(a: string, b: string)
    ensures Less(a, b) <==> exists n :: PartAt(a, b, n)
    decreases |a|
  {
    if a == [] || b == [] {
      assert b != [] ==> PartAt(a, b, 0);
    } else if a[0] != b[0] {
      assert a[0] < b[0] ==> PartAt(a, b, 0);
      forall n | PartAt(a, b, n)
        ensures a[0] < b[0]
      {
        assert n > 0 ==> a[..n][0] == b[..n][0];
      }
    } else {
      LessIff(a[1..], b[1..]);
      if n :| PartAt(a[1..], b[1..], n) {
        assert a[..n + 1] == [a[0]] + a[1..][..n] && b[..n + 1] == [b[0]] + b[1..][..n];
        assert PartAt(a, b, n + 1);
      }
      if n :| PartAt(a, b, n) {
        assert a[1..][..n - 1] == a[..n][1..] && b[1..][..n - 1] == b[..n][1..];
        assert PartAt(a[1..], b[1..], n - 1);
      }
    }
  }

  lemma {:induction false} LessIrreflexive(a: string)
    ensures !Less(a, a)
  {
    if a == [] {
    } else {
      LessIrreflexive(a[1..]);
    }
  }

  lemma {:induction false} LessTransitive(a: string, b: string, c: string)
    requires Less(a, b) && Less(b, c)
    ensures Less(a, c)
  {
    if a != [] && a[0] == b[0] && b[0] == c[0] {
      LessTransitive(a[1..], b[1..], c[1..]);
    }
  }

  lemma {:induction false} LessTotal(a: string, b: string)
    ensures Less(a, b) || a == b || Less(b, a)
  {
    if a != [] && b != [] && a[0] == b[0] {
      LessTotal(a[1..], b[1..]);
      assert a[1..] == b[1..] ==> a == [a[0]] + a[1..] == b;
    }
  }

  ghost predicate StrictlySorted(s: seq<string>) {
    forall i, j :: 0 <= i < j < |s| ==> Less(s[i], s[j])
  }

  function Elements(s: seq<string>): set<string> { set x | x in s }

  lemma FirstIsLeast(s: seq<string>, t: seq<string>)
    requires StrictlySorted(s) && StrictlySorted(t) && Elements(s) == Elements(t) && s != []
    ensures t != [] && s[0] == t[0]
  {
    assert s[0] in Elements(t);
    assert t[0] in Elements(s);
    var i :| 0 <= i < |t| && t[i] == s[0];
    var j :| 0 <= j < |s| && s[j] == t[0];
    if i > 0 && j > 0 {
      LessTransitive(t[0], s[0], t[0]);
      LessIrreflexive(t[0]);
    }
  }

  lemma RestOfSorted(s: seq<string>)
    requires StrictlySorted(s) && s != []
    ensures StrictlySorted(s[1..]) && Elements(s[1..]) == Elements(s) - {s[0]}
  {
    LessIrreflexive(s[0]);
    assert s == [s[0]] + s[1..];
    forall x | x in Elements(s[1..])
      ensures x != s[0]
    {
      var i :| 0 <= i < |s[1..]| && s[1..][i] == x;
      assert Less(s[0], s[i + 1]);
    }
  }

  lemma NoElements(t: seq<string>)
    ensures Elements(t) == {} ==> t == []
  {
    if t != [] {
      assert t[0] in Elements(t);
    }
  }

  /** A set of strings has one sorted listing. */
  lemma {:induction false} SortedListingIsUnique(s: seq<string>, t: seq<string>)
    requires StrictlySorted(s) && StrictlySorted(t) && Elements(s) == Elements(t)
    ensures s == t
    decreases |s|
  {
    if s == [] {
      NoElements(t);
    } else {
      FirstIsLeast(s, t);
      RestOfSorted(s);
      RestOfSorted(t);
      SortedListingIsUnique(s[1..], t[1..]);
      assert s == [s[0]] + s[1..] && t == [t[0]] + t[1..];
    }
  }

  /** The least string of a set, by a scan in any order. */
  method Least(s: set<string>) returns (m: string)
    requires s != {}
    ensures m in s && forall x :: x in s ==> x == m || Less(m, x)
  {
    m :| m in s;
    var todo := s - {m};
    while todo != {}
      invariant todo <= s && m in s - todo
      invariant forall x :: x in s - todo ==> x == m || Less(m, x)
      decreases todo
    {
      var y :| y in todo;
      LessTotal(m, y);
      if Less(y, m) {
        forall x | x in s - todo && x != m
          ensures Less(y, x)
        {
          LessTransitive(y, m, x);
        }
        m := y;
      }
      todo := todo - {y};
    }
  }

  /** sort.Strings on the elements of a set. */
  method Sort(s: set<string>) returns (r: seq<string>)
    ensures StrictlySorted(r) && Elements(r) == s && |r| == |s|
  {
    r := [];
    var todo := s;
    while todo != {}
      invariant todo <= s && Elements(r) == s - todo && |r| + |todo| == |s|
      invariant StrictlySorted(r)
      invariant forall x, y :: x in r && y in todo ==> Less(x, y)
      decreases todo
    {
      var m := Least(todo);
      assert Elements(r + [m]) == Elements(r) + {m};
      r := r + [m];
      todo := todo - {m};
    }
  }
}
