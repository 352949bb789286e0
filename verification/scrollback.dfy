/** internal/session/scrollback.go: a byte-bounded buffer of recent session output. */
module Scrollback {
  import opened Basics

  const BYTES_PER_LINE: int := 256

  /** Go's int arithmetic on a 64-bit machine. */
  function Wrap64(x: int): int {
    (x + 0x8000_0000_0000_0000) % 0x1_0000_0000_0000_0000 - 0x8000_0000_0000_0000
  }

  /** The wrapped value is the one of its residue class that an int can hold. */
  lemma Wrap64Is(x: int, y: int)
    requires -0x8000_0000_0000_0000 <= y < 0x8000_0000_0000_0000
    ensures Wrap64(x) == y <==> (x - y) % 0x1_0000_0000_0000_0000 == 0
  {
  }

  /** Trimming early loses nothing that trimming late would keep. */
  lemma LastOfLast<T>(history: seq<T>, p: seq<T>, cap: nat)
    ensures Last(Last(history, cap) + p, cap) == Last(history + p, cap)
  {
    if |history| > cap {
      var cut := |history| - cap;
      assert history + p == history[..cut] + (history[cut..] + p);
    }
  }

  /** Appending and then cutting the front off to the cap leaves a tail of all of it. */
  lemma KeptTail(history: seq<byte>, p: seq<byte>, before: seq<byte>, after: seq<byte>, cap: nat)
    requires before == Last(history, cap)
    requires |before| + |p| <= cap ==> after == before + p
    requires |before| + |p| > cap ==> after == (before + p)[|before| + |p| - cap..]
    ensures after == Last(history + p, cap)
    ensures |after| == (if |history + p| <= cap then |history + p| else cap)
    ensures after == (history + p)[|history + p| - |after|..]
  {
    LastOfLast(history, p, cap);
    LastIs(before + p, cap);
    LastIs(history + p, cap);
    hide Last;
  }

  /** The buffer after a list of writes, one trim per write. */
  function AfterWrites(buf: seq<byte>, writes: seq<seq<byte>>, cap: nat): seq<byte>
    decreases |writes|
  {
    if writes == [] then buf
    else Last(AfterWrites(buf, writes[..|writes| - 1], cap) + writes[|writes| - 1], cap)
  }

  lemma {:induction false} BufferIsTail(history: seq<byte>, writes: seq<seq<byte>>, cap: nat)
    ensures AfterWrites(Last(history, cap), writes, cap) == Last(history + Flatten(writes), cap)
    decreases |writes|
  {
    if writes == [] {
      assert history + Flatten(writes) == history;
    } else {
      hide Last;
      var front, p := writes[..|writes| - 1], writes[|writes| - 1];
      var all := history + Flatten(front);
      BufferIsTail(history, front, cap);
      LastOfLast(all, p, cap);
      assert all + p == history + Flatten(writes);
    }
  }

  /** However the output was cut into writes, the buffer is a tail of all of it, of cap bytes when there are
      that many and all of it otherwise. */
  lemma BufferIsTailOfAllWrites(writes: seq<seq<byte>>, cap: nat)
    ensures var buf, all := AfterWrites([], writes, cap), Flatten(writes);
      && |buf| == (if |all| <= cap then |all| else cap)
      && buf == all[|all| - |buf|..]
  {
    hide AfterWrites, Flatten, Last;
    NothingKept(cap);
    BufferIsTail([], writes, cap);
    assert [] + Flatten(writes) == Flatten(writes);
    LastIs(Flatten(writes), cap);
  }

  lemma NothingKept(cap: nat)
    ensures Last<byte>([], cap) == []
  {
  }

  /** Two ways of chunking the same output leave the same buffer. */
  lemma ChunkingIsInvisible(history: seq<byte>, w1: seq<seq<byte>>, w2: seq<seq<byte>>, cap: nat)
    requires Flatten(w1) == Flatten(w2)
    ensures AfterWrites(Last(history, cap), w1, cap) == AfterWrites(Last(history, cap), w2, cap)
  {
    BufferIsTail(history, w1, cap);
    BufferIsTail(history, w2, cap);
  }

  class RingScrollback {
    var data: array<byte>   // the array under the slice buf
    var len: nat            // len(buf)
    const cap: int

    ghost var history: seq<byte>  // everything ever written

    ghost predicate Valid()
      reads this, data
    {
      && cap > 0
      && len <= data.Length
      && data[..len] == Last(history, cap)
    }

    ghost function Contents(): (s: seq<byte>)
      reads this, data
      requires Valid()
    {
      data[..len]
    }

    constructor (lines: int)
      ensures Valid() && fresh(data)
      ensures cap == if Wrap64(lines * 256) <= 0 then 256 else Wrap64(lines * 256)
      ensures history == [] && Contents() == []
    {
      var c := Wrap64(lines * BYTES_PER_LINE);
      cap := if c <= 0 then BYTES_PER_LINE else c;
      data := new byte[0];
      len := 0;
      history := [];
    }

    /** A longer array with the same contents. */
    method Grow(room: nat)
      requires len <= data.Length && len <= room
      modifies this`data
      ensures fresh(data) && data.Length == 2 * room
      ensures data[..len] == old(data[..len])
    {
      var bigger := new byte[2 * room];
      for i := 0 to len
        invariant data == old(data) && len == old(len) && fresh(bigger)
        invariant data[..len] == old(data[..len]) && bigger[..i] == data[..i]
      {
        bigger[i] := data[i];
      }
      data := bigger;
    }

    /** append(buf, p...), reallocating when the backing array is too short. */
    method Append(p: seq<byte>)
      requires len <= data.Length
      modifies this`data, this`len, data
      ensures data == old(data) || fresh(data)
      ensures len == old(len) + |p| <= data.Length
      ensures data[..len] == old(data[..len]) + p
    {
      ghost var was := data[..len];
      if data.Length < len + |p| {
        Grow(len + |p|);
      }
      for i := 0 to |p|
        invariant data == old(data) || fresh(data)
        invariant len == old(len) && len + |p| <= data.Length
        invariant data[..len + i] == was + p[..i]
      {
        data[len + i] := p[i];
        assert data[..len + i + 1] == data[..len + i] + [p[i]];
        assert p[..i + 1] == p[..i] + [p[i]];
      }
      assert p[..|p|] == p;
      len := len + |p|;
    }

    /** append(buf[:0], buf[trim:]...): move the tail to the front, in place. */
    method DropFront(trim: nat)
      requires trim <= len <= data.Length
      modifies this`len, data
      ensures len == old(len) - trim <= data.Length
      ensures data[..len] == old(data[trim..len])
    {
      for i := 0 to len - trim
        invariant data[..i] == old(data[trim..trim + i])
        invariant forall j :: i <= j < data.Length ==> data[j] == old(data[j])
        invariant len == old(len)
      {
        data[i] := data[trim + i];
        assert data[..i + 1] == data[..i] + [data[i]];
        assert old(data[trim..trim + i + 1]) == old(data[trim..trim + i]) + [old(data[trim + i])];
      }
      len := len - trim;
    }

    method Write(p: seq<byte>)
      requires Valid()
      modifies this, data
      ensures Valid() && (data == old(data) || fresh(data))
      ensures history == old(history) + p
      ensures len == (if |history| <= cap then |history| else cap)
      ensures Contents() == history[|history| - len..]
    {
      hide Last;
      ghost var before := Contents();
      Append(p);
      Trim();
      KeptTail(history, p, before, data[..len], cap);
      history := history + p;
    }

    /** The front goes when the buffer is over its cap. */
    method Trim()
      requires cap > 0 && len <= data.Length
      modifies this`len, data
      ensures len == (if old(len) <= cap then old(len) else cap) <= data.Length
      ensures old(len) <= cap ==> data[..len] == old(data[..len])
      ensures old(len) > cap ==> data[..len] == old(data[..len])[old(len) - cap..]
    {
      if len > cap {
        var trim := len - cap;
        assert data[trim..len] == data[..len][trim..];
        DropFront(trim);
      }
    }

    /** A copy: later writes leave it alone. */
    method Snapshot() returns (out: array<byte>)
      requires Valid()
      ensures fresh(out) && out.Length == (if |history| <= cap then |history| else cap)
      ensures out[..] == history[|history| - out.Length..]
    {
      out := new byte[len];
      for i := 0 to len
        invariant out[..i] == data[..i]
        invariant data[..len] == old(data[..len])
      {
        out[i] := data[i];
      }
      assert out[..] == out[..len] == Last(history, cap);
    }

    method Len() returns (n: nat)
      requires Valid()
      ensures n == |Contents()| == if |history| <= cap then |history| else cap
    {
      n := len;
    }
  }
}
