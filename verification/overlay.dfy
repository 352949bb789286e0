/** internal/tui/overlay.go: the filtered list, its selection and the rows that are drawn. */
module OverlayList {
  import opened Basics

  type Query = seq<byte>

  /** The fuzzy library: positions of the matching labels, best first. */
  type Matcher = (Query, seq<string>) -> seq<nat>

  ghost predicate InRange(s: seq<nat>, n: nat) {
    forall i :: 0 <= i < |s| ==> s[i] < n
  }

  ghost predicate GoodMatcher(m: Matcher) {
    forall q, labels :: NoRepeats(m(q, labels)) && InRange(m(q, labels), |labels|)
  }

  /** `textInput` stands for a non-nil onSubmit. */
  datatype Overlay = Overlay(entries: seq<string>, textInput: bool, query: Query, filtered: seq<nat>, sel: int)

  function Clamp(sel: int, n: nat): int {
    if sel < 0 || n == 0 then 0 else if sel >= n then n - 1 else sel
  }

  function Refilter(o: Overlay, m: Matcher): Overlay {
    var f := if o.query == [] then seq(|o.entries|, i => i) else m(o.query, o.entries);
    o.(filtered := f, sel := Clamp(o.sel, |f|))
  }

  function Move(o: Overlay, d: int): Overlay {
    if o.filtered == [] then o else o.(sel := Clamp(o.sel + d, |o.filtered|))
  }

  /** The list shows distinct entries, and the selection is one of its rows, or 0 when it has none. */
  ghost predicate OverlayOk(o: Overlay) {
    && NoRepeats(o.filtered) && InRange(o.filtered, |o.entries|)
    && (if o.filtered == [] then o.sel == 0 else 0 <= o.sel < |o.filtered|)
  }

  lemma RefilterEstablishes(o: Overlay, m: Matcher)
    requires GoodMatcher(m)
    ensures OverlayOk(Refilter(o, m))
    ensures Refilter(o, m).(filtered := o.filtered, sel := o.sel) == o
    ensures o.query == [] ==> |Refilter(o, m).filtered| == |o.entries| && forall i :: 0 <= i < |o.entries| ==> Refilter(o, m).filtered[i] == i
    ensures o.query != [] ==> Refilter(o, m).filtered == m(o.query, o.entries)
    ensures 0 <= o.sel < |Refilter(o, m).filtered| ==> Refilter(o, m).sel == o.sel
    ensures o.sel >= |Refilter(o, m).filtered| > 0 ==> Refilter(o, m).sel == |Refilter(o, m).filtered| - 1
    ensures o.sel < 0 ==> Refilter(o, m).sel == 0
  {
  }

  /** Moving keeps the list, and goes exactly d rows unless an end of the list is in the way. */
  lemma MoveStaysInside(o: Overlay, d: int)
    requires OverlayOk(o)
    ensures OverlayOk(Move(o, d)) && Move(o, d).filtered == o.filtered
    ensures 0 <= o.sel + d < |o.filtered| ==> Move(o, d).sel == o.sel + d
    ensures o.sel + d < 0 ==> Move(o, d).sel == 0
    ensures o.filtered != [] && o.sel + d >= |o.filtered| ==> Move(o, d).sel == |o.filtered| - 1
  {
  }

  class Box {
    const entries: seq<string>
    const textInput: bool
    var query: Query
    var filtered: seq<nat>
    var sel: int

    ghost function View(): Overlay
      reads this
    {
      Overlay(entries, textInput, query, filtered, sel)
    }

    constructor (o: Overlay)
      ensures View() == o
    {
      entries, textInput, query, filtered, sel := o.entries, o.textInput, o.query, o.filtered, o.sel;
    }

    method RefilterNow(m: Matcher)
      modifies this`filtered, this`sel
      ensures View() == Refilter(old(View()), m)
    {
      filtered := [];
      if query == [] {
        for i := 0 to |entries|
          invariant filtered == seq(i, k => k)
          invariant sel == old(sel) && query == old(query)
        {
          filtered := filtered + [i];
        }
      } else {
        var found := m(query, entries);
        for i := 0 to |found|
          invariant filtered == found[..i]
          invariant sel == old(sel) && query == old(query)
        {
          filtered := filtered + [found[i]];
        }
        assert found[..|found|] == found;
      }
      if sel >= |filtered| {
        sel := |filtered| - 1;
      }
      if sel < 0 {
        sel := 0;
      }
    }

    method MoveBy(d: int)
      modifies this`sel
      ensures View() == Move(old(View()), d)
    {
      if |filtered| == 0 {
        return;
      }
      sel := sel + d;
      if sel < 0 {
        sel := 0;
      }
      if sel >= |filtered| {
        sel := |filtered| - 1;
      }
    }

    /** overlayList: the rows drawn in `height` lines, as positions in the filtered list. */
    method Window(height: nat) returns (rows: seq<nat>)
      requires height >= 1 && OverlayOk(View())
      ensures |rows| == if |filtered| <= height then |filtered| else height
      ensures filtered != [] ==> sel in rows
      ensures forall i :: 0 <= i < |rows| ==> rows[i] == rows[0] + i && rows[i] < |filtered|
    {
      rows := [];
      if |filtered| == 0 {
        return;
      }
      var top := 0;
      if sel >= height {
        top := sel - height + 1;
      }
      var i := top;
      while i < |filtered| && i < top + height
        invariant top <= i <= Min(|filtered|, top + height)
        invariant |rows| == i - top
        invariant forall k :: 0 <= k < |rows| ==> rows[k] == top + k
      {
        rows := rows + [i];
        i := i + 1;
      }
      assert rows[sel - top] == sel;
    }
  }
}
