/** No subscriber's backlog changes what another subscriber gets. */
module SessionIsolation {
  import opened Basics
  import opened LiveSession
  import opened SessionProtocol
  import opened SessionInvariant

  /** A receive by a subscriber other than the one watching channel i. */
  predicate Foreign(a: Action, i: nat) {
    a.Consume? && a.ch != i
  }

  /** The schedule as far as channel i is concerned. */
  function Without(trace: seq<Action>, i: nat): seq<Action> {
    if trace == [] then []
    else (if Foreign(trace[0], i) then [] else [trace[0]]) + Without(trace[1..], i)
  }

  /** Everything but the channels and their records. */
  function Shell(s: State): State { s.(live := s.live.(chans := []), hist := []) }

  /** The same channels, but for the other ones' queues and what their subscribers got or missed. */
  ghost predicate SameChannels(s: State, t: State, i: nat) {
    && |s.hist| == |t.hist| == |s.live.chans| == |t.live.chans|
    && (forall j :: 0 <= j < |s.hist| ==>
          s.hist[j].phase == t.hist[j].phase && s.live.chans[j].closed == t.live.chans[j].closed)
    && (i < |s.hist| ==> s.hist[i] == t.hist[i] && s.live.chans[i] == t.live.chans[i])
  }

  /** Agreement on everything else, and on channel i. */
  ghost predicate SameFor(s: State, t: State, i: nat) {
    Shell(s) == Shell(t) && SameChannels(s, t, i)
  }

  lemma ForeignStepInvisible(s: State, t: State, a: Action, i: nat)
    requires SameFor(s, t, i) && Enabled(s, a) && Foreign(a, i)
    ensures SameFor(Next(s, a), t, i)
  {
  }

  lemma SameSym(s: State, t: State, i: nat)
    requires SameFor(s, t, i)
    ensures SameFor(t, s, i)
  {
  }

  /** An offer changes the channel it goes to, its record, and what is still pending. */
  lemma OfferFacts(s: State, sub: nat)
    requires Inv(s) && Enabled(s, Offer(sub))
    ensures var t, ch := Next(s, Offer(sub)), s.live.subs[sub];
      && Shell(t) == Shell(s).(reader := s.reader.(pending := s.reader.pending - {sub}))
      && |t.hist| == |s.hist| == |t.live.chans| == |s.live.chans| > ch
      && (forall j :: 0 <= j < |s.hist| ==> t.hist[j].phase == s.hist[j].phase && t.live.chans[j].closed == s.live.chans[j].closed)
      && (forall j :: 0 <= j < |s.hist| && j != ch ==> t.hist[j] == s.hist[j] && t.live.chans[j] == s.live.chans[j])
  {
    assert ChannelAt(s, s.live.subs[sub]);
  }

  lemma OfferAt(s: State, sub: nat)
    requires Inv(s) && Enabled(s, Offer(sub))
    ensures var t, ch := Next(s, Offer(sub)), s.live.subs[sub];
      && ch < |s.live.chans| == |t.live.chans| == |t.hist|
      && var room := |s.live.chans[ch].queue| < s.live.chans[ch].cap;
      && t.live.chans[ch] == (if room then s.live.chans[ch].(queue := s.live.chans[ch].queue + [Data(Current(s))]) else s.live.chans[ch])
      && t.hist[ch] == (if room then s.hist[ch] else s.hist[ch].(missed := s.hist[ch].missed + {s.sent}))
  {
    assert ChannelAt(s, s.live.subs[sub]);
  }

  lemma SharedOffer(s: State, t: State, sub: nat, i: nat)
    requires Inv(s) && Inv(t) && SameFor(s, t, i) && Enabled(s, Offer(sub)) && Enabled(t, Offer(sub))
    ensures SameFor(Next(s, Offer(sub)), Next(t, Offer(sub)), i)
  {
    OfferFacts(s, sub);
    OfferFacts(t, sub);
    OfferAt(s, sub);
    OfferAt(t, sub);
    hide Inv, Next;
  }

  lemma SharedSendStopped(s: State, t: State, ch: nat, i: nat)
    requires Inv(s) && Inv(t) && SameFor(s, t, i) && Enabled(s, SendStopped(ch)) && Enabled(t, SendStopped(ch))
    ensures SameFor(Next(s, SendStopped(ch)), Next(t, SendStopped(ch)), i)
  {
    assert ChannelAt(s, ch) && ChannelAt(t, ch);
  }

  lemma SharedCloseStopped(s: State, t: State, i: nat)
    requires Inv(s) && Inv(t) && SameFor(s, t, i) && Enabled(s, CloseStopped) && Enabled(t, CloseStopped)
    ensures SameFor(Next(s, CloseStopped), Next(t, CloseStopped), i)
  {
    assert ChannelAt(s, s.pump.ch) && ChannelAt(t, s.pump.ch);
  }

  lemma SharedCancel(s: State, t: State, sub: nat, i: nat)
    requires Inv(s) && Inv(t) && SameFor(s, t, i) && Enabled(s, CancelNow(sub)) && Enabled(t, CancelNow(sub))
    ensures SameFor(Next(s, CancelNow(sub)), Next(t, CancelNow(sub)), i)
  {
    if sub in s.live.subs {
      assert ChannelAt(s, s.live.subs[sub]) && ChannelAt(t, s.live.subs[sub]);
    }
  }

  lemma SharedNew(s: State, t: State, i: nat)
    requires SameFor(s, t, i) && Enabled(s, SubscribeNow) && Enabled(t, SubscribeNow)
    ensures SameFor(Next(s, SubscribeNow), Next(t, SubscribeNow), i)
  {
  }

  lemma SharedGone(s: State, t: State, i: nat)
    requires SameFor(s, t, i) && Enabled(s, SubscribeGone) && Enabled(t, SubscribeGone)
    ensures SameFor(Next(s, SubscribeGone), Next(t, SubscribeGone), i)
  {
  }

  lemma SharedDetach(s: State, t: State, i: nat)
    requires SameFor(s, t, i) && Enabled(s, EnterFinalize) && Enabled(t, EnterFinalize)
    ensures SameFor(Next(s, EnterFinalize), Next(t, EnterFinalize), i)
  {
    DetachShell(s);
    DetachShell(t);
    DetachAt(s);
    DetachAt(t);
    hide Next;
  }

  lemma DetachShell(s: State)
    requires Enabled(s, EnterFinalize)
    ensures Enabled(Shell(s), EnterFinalize) && Shell(Next(s, EnterFinalize)) == Next(Shell(s), EnterFinalize)
  {
  }

  lemma DetachAt(s: State)
    requires Enabled(s, EnterFinalize)
    ensures var t := Next(s, EnterFinalize);
      && |t.hist| == |s.hist| && t.live.chans == s.live.chans
      && forall j :: 0 <= j < |s.hist| ==>
           t.hist[j] == if !s.live.closed && j in s.live.subs.Values then s.hist[j].(phase := Detached(s.sent)) else s.hist[j]
  {
  }

  /** The receive of subscriber i itself. */
  lemma SharedOwn(s: State, t: State, i: nat)
    requires SameFor(s, t, i) && Enabled(s, Consume(i)) && Enabled(t, Consume(i))
    ensures SameFor(Next(s, Consume(i)), Next(t, Consume(i)), i)
  {
  }

  lemma SharedSnapshot(s: State, t: State, ch: nat, i: nat)
    requires SameFor(s, t, i) && Enabled(s, SnapshotFor(ch)) && Enabled(t, SnapshotFor(ch))
    ensures SameFor(Next(s, SnapshotFor(ch)), Next(t, SnapshotFor(ch)), i)
  {
  }

  /** A step that reaches no channel acts on the shell alone. */
  lemma ShellStep(s: State, a: Action)
    requires Enabled(s, a) && Quiet(a)
    ensures Enabled(Shell(s), a) && Shell(Next(s, a)) == Next(Shell(s), a)
  {
  }

  lemma SharedQuiet(s: State, t: State, a: Action, i: nat)
    requires SameFor(s, t, i) && Enabled(s, a) && Enabled(t, a) && Quiet(a)
    ensures SameFor(Next(s, a), Next(t, a), i)
  {
    hide Next, Enabled, Quiet;
    ShellStep(s, a);
    ShellStep(t, a);
    QuietStep(s, a);
    QuietStep(t, a);
  }

  lemma SharedStep(s: State, t: State, a: Action, i: nat)
    requires Inv(s) && Inv(t) && SameFor(s, t, i) && Enabled(s, a) && Enabled(t, a) && !Foreign(a, i)
    ensures SameFor(Next(s, a), Next(t, a), i)
  {
    match a
    case Offer(sub) => SharedOffer(s, t, sub, i);
    case SendStopped(ch) => SharedSendStopped(s, t, ch, i);
    case CloseStopped => SharedCloseStopped(s, t, i);
    case CancelNow(sub) => SharedCancel(s, t, sub, i);
    case SubscribeNow => SharedNew(s, t, i);
    case SubscribeGone => SharedGone(s, t, i);
    case EnterFinalize => SharedDetach(s, t, i);
    case Consume(_) => SharedOwn(s, t, i);
    case SnapshotFor(ch) => SharedSnapshot(s, t, ch, i);
    case _ => SharedQuiet(s, t, a, i);
  }

  lemma {:induction false} SameSchedule(s: State, t: State, p: seq<Action>, q: seq<Action>, u: State, v: State, i: nat)
    requires Inv(s) && Inv(t) && SameFor(s, t, i)
    requires Runs(s, p, u) && Runs(t, q, v) && Without(p, i) == Without(q, i)
    ensures SameFor(u, v, i)
    decreases |p| + |q|
  {
    if p != [] && Foreign(p[0], i) {
      ForeignStepInvisible(s, t, p[0], i);
      StepKeepsInv(s, p[0]);
      SameSchedule(Next(s, p[0]), t, p[1..], q, u, v, i);
    } else if q != [] && Foreign(q[0], i) {
      SameSym(s, t, i);
      ForeignStepInvisible(t, s, q[0], i);
      SameSym(Next(t, q[0]), s, i);
      StepKeepsInv(t, q[0]);
      SameSchedule(s, Next(t, q[0]), p, q[1..], u, v, i);
    } else if p != [] && q != [] {
      assert p[0] == Without(p, i)[0] && q[0] == Without(q, i)[0];
      assert Without(p, i)[1..] == Without(p[1..], i) && Without(q, i)[1..] == Without(q[1..], i);
      SharedStep(s, t, p[0], i);
      StepKeepsInv(s, p[0]);
      StepKeepsInv(t, p[0]);
      SameSchedule(Next(s, p[0]), Next(t, p[0]), p[1..], q[1..], u, v, i);
    }
  }

  /** Two runs that differ only in when, and whether, other subscribers receive leave subscriber i with
      the same channel and the same history. */
  lemma BacklogsAreIsolated(cap: nat, p: seq<Action>, q: seq<Action>, u: State, v: State, i: nat)
    requires Runs(Init(cap), p, u) && Runs(Init(cap), q, v) && Without(p, i) == Without(q, i)
    ensures |u.live.chans| == |v.live.chans| == |u.hist| == |v.hist|
    ensures i < |u.hist| ==> u.live.chans[i] == v.live.chans[i] && u.hist[i] == v.hist[i]
  {
    hide Runs, Without;
    SameSchedule(Init(cap), Init(cap), p, q, u, v, i);
  }
}
