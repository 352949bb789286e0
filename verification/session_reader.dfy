/** What the PTY delivered is what the session passes on, and when a session may end. */
module SessionReader {
  import opened Basics
  import opened LiveSession
  import opened SessionProtocol
  import opened SessionInvariant

  /** What the reads of a run returned, but for the empty ones. */
  function Reads(trace: seq<Action>): seq<Chunk> {
    if trace == [] then []
    else (if trace[0].ReadPty? && trace[0].data != [] then [trace[0].data] else []) + Reads(trace[1..])
  }

  /** Read, and not yet written to scrollback. */
  function InHand(r: Reader): seq<Chunk> {
    if r.Got? then [r.data] else []
  }

  lemma ReadStep(s: State, a: Action)
    requires Enabled(s, a)
    ensures Next(s, a).written + InHand(Next(s, a).reader) == s.written + InHand(s.reader) + Reads([a])
  {
    assert [a][1..] == [];
    match a
    case ReadPty(_, _) =>
    case WriteScrollback =>
    case LockForBroadcast =>
    case UnlockBroadcast =>
    case CloseReadErr =>
    case Offer(_) =>
    case _ => SameReader(s, a);
  }

  lemma SameReader(s: State, a: Action)
    requires Enabled(s, a) && !ReaderOnly(a) && !a.WriteScrollback? && !a.Offer?
    ensures Next(s, a).reader == s.reader && Next(s, a).written == s.written
  {
  }

  lemma ReadsFirst(trace: seq<Action>)
    requires trace != []
    ensures Reads(trace) == Reads([trace[0]]) + Reads(trace[1..])
  {
    assert [trace[0]][1..] == [];
  }

  lemma {:induction false} ReadsAccumulate(s: State, trace: seq<Action>, t: State)
    requires Runs(s, trace, t)
    ensures t.written + InHand(t.reader) == s.written + InHand(s.reader) + Reads(trace)
    decreases |trace|
  {
    if trace == [] {
    } else {
      var u := Next(s, trace[0]);
      ReadStep(s, trace[0]);
      ReadsAccumulate(u, trace[1..], t);
      ReadsFirst(trace);
      hide Reads, InHand, Next, Enabled;
      assert s.written + InHand(s.reader) + Reads([trace[0]]) + Reads(trace[1..])
          == s.written + InHand(s.reader) + (Reads([trace[0]]) + Reads(trace[1..]));
    }
  }

  /** In every run the chunks written to scrollback are what the PTY delivered, whole and in order; at most the
      last one is still in the reader's hand. */
  lemma WrittenIsWhatWasRead(cap: nat, trace: seq<Action>, t: State)
    requires Runs(Init(cap), trace, t)
    ensures t.written + InHand(t.reader) == Reads(trace)
    ensures |t.written| <= |Reads(trace)| && t.written == Reads(trace)[..|t.written|]
  {
    ReadsAccumulate(Init(cap), trace, t);
    assert t.written == (t.written + InHand(t.reader))[..|t.written|];
  }

  // ----- The end of the reader

  /** The reader has been told of an error. */
  predicate Ending(r: Reader) {
    match r
    case Reading => false
    case Got(_, err) => err
    case Wrote(err) => err
    case Sending(_, err) => err
    case Failed => true
    case Exited => true
  }

  lemma EndingStep(s: State, a: Action)
    requires Enabled(s, a)
    ensures a.ReadPty? ==> !Ending(s.reader) && (Ending(Next(s, a).reader) <==> a.err)
    ensures !a.ReadPty? ==> (Ending(Next(s, a).reader) <==> Ending(s.reader))
  {
    match a
    case ReadPty(_, _) =>
    case WriteScrollback =>
    case LockForBroadcast =>
    case UnlockBroadcast =>
    case CloseReadErr =>
    case Offer(_) =>
    case _ => SameReader(s, a);
  }

  predicate FailedRead(a: Action) { a.ReadPty? && a.err }

  /** A read error is the last read there is, and nothing else ends the reader. */
  lemma {:induction false} ErrorIsTheLastRead(s: State, trace: seq<Action>, t: State)
    requires Runs(s, trace, t)
    ensures Ending(t.reader) <==> Ending(s.reader) || exists i :: 0 <= i < |trace| && FailedRead(trace[i])
    ensures forall i, j :: 0 <= i < j < |trace| && FailedRead(trace[i]) ==> !trace[j].ReadPty?
    ensures Ending(s.reader) ==> forall j :: 0 <= j < |trace| ==> !trace[j].ReadPty?
    decreases |trace|
  {
    if trace == [] {
    } else {
      var u, rest := Next(s, trace[0]), trace[1..];
      EndingStep(s, trace[0]);
      ErrorIsTheLastRead(u, rest, t);
      hide Runs, Next, Enabled, Ending;
      assert forall i :: 1 <= i < |trace| ==> trace[i] == rest[i - 1];
      if i :| 0 <= i < |rest| && FailedRead(rest[i]) {
        assert FailedRead(trace[i + 1]);
      }
      forall i, j | 0 <= i < j < |trace| && FailedRead(trace[i])
        ensures !trace[j].ReadPty?
      {
        if i > 0 {
          assert FailedRead(rest[i - 1]);
        }
      }
    }
  }

  // ----- When a session ends

  predicate Closes(a: Action) { a.DropPty? || a.ClosePty? }

  /** Waking the pump takes a PTY that is done, or a reader that has ended. */
  lemma WokenStep(s: State, a: Action)
    requires Enabled(s, a) && (!s.pump.Waiting? ==> s.done || s.reader.Exited?)
    ensures !Next(s, a).pump.Waiting? ==> Next(s, a).done || Next(s, a).reader.Exited?
    ensures Next(s, a).done ==> s.done || Closes(a)
    ensures a.ClosePty? ==> !s.pump.Waiting?
  {
    match a
    case WakePump =>
    case ClosePty =>
    case DropPty =>
    case _ => DoneStays(s, a);
  }

  lemma DoneStays(s: State, a: Action)
    requires Enabled(s, a) && !a.WakePump? && !Closes(a)
    ensures Next(s, a).done == s.done && (s.reader.Exited? ==> Next(s, a).reader.Exited?)
    ensures Next(s, a).pump.Waiting? <==> s.pump.Waiting?
  {
  }

  lemma {:induction false} WokenIsOver(s: State, trace: seq<Action>, t: State)
    requires Runs(s, trace, t) && (!s.pump.Waiting? ==> s.done || s.reader.Exited?)
    ensures !t.pump.Waiting? ==> t.done || t.reader.Exited?
    ensures s.pump.Waiting? && !s.done && !s.reader.Exited? && !t.pump.Waiting? ==>
      t.reader.Exited? || exists i :: 0 <= i < |trace| && trace[i].DropPty?
    decreases |trace|
  {
    if trace == [] {
    } else {
      var u, rest := Next(s, trace[0]), trace[1..];
      WokenStep(s, trace[0]);
      WokenIsOver(u, rest, t);
      if u.reader.Exited? {
        ExitedStays(u, rest, t);
      }
      hide Runs, Next;
      if i :| 0 <= i < |rest| && rest[i].DropPty? {
        assert trace[i + 1].DropPty?;
      }
      assert trace[0].DropPty? ==> exists i :: 0 <= i < |trace| && trace[i].DropPty?;
    }
  }

  lemma {:induction false} ExitedStays(s: State, trace: seq<Action>, t: State)
    requires Runs(s, trace, t) && s.reader.Exited?
    ensures t.reader.Exited?
    decreases |trace|
  {
    if trace == [] {
    } else {
      ExitedStep(s, trace[0]);
      ExitedStays(Next(s, trace[0]), trace[1..], t);
    }
  }

  lemma ExitedStep(s: State, a: Action)
    requires Enabled(s, a) && s.reader.Exited?
    ensures Next(s, a).reader.Exited?
  {
  }

  /** No session is closed before its PTY dropped or a read from it failed. */
  lemma ClosedOnlyWhenOver(cap: nat, trace: seq<Action>, t: State)
    requires Runs(Init(cap), trace, t) && t.live.closed
    ensures exists i :: 0 <= i < |trace| && (trace[i].DropPty? || FailedRead(trace[i]))
  {
    EveryRunKeepsInv(cap, trace, t);
    assert !t.pump.Waiting?;
    hide Inv, Runs;
    WokenIsOver(Init(cap), trace, t);
    ErrorIsTheLastRead(Init(cap), trace, t);
  }
}
