/** internal/remote/dialer.go: the trust-on-first-use known_hosts log. */
module KnownHosts {
  import opened Basics

  type Pins = map<string, string>

  /** bufio.MaxScanTokenSize: a line this long stops the scanner with an error. */
  const MAX_LINE: nat := 65536

  /** The white space that Unicode defines. */
  predicate IsSpace(c: char) {
    '\t' <= c <= '\r' || c == ' ' || c == '\U{85}' || c == '\U{A0}' || c == '\U{1680}' || '\U{2000}' <= c <= '\U{200A}'
    || c == '\U{2028}' || c == '\U{2029}' || c == '\U{202F}' || c == '\U{205F}' || c == '\U{3000}'
  }

  /** The length of the longest prefix without c. */
  function Before(s: string, stop: char -> bool): (n: nat)
    ensures n <= |s| && (forall i :: 0 <= i < n ==> !stop(s[i])) && (n < |s| ==> stop(s[n]))
  {
    if s == [] || stop(s[0]) then 0 else 1 + Before(s[1..], stop)
  }

  predicate IsNewline(c: char) { c == '\n' }

  /** bufio.ScanLines: a last line needs no newline. */
  function Lines(text: string): seq<string>
    decreases |text|
  {
    if text == [] then []
    else
      var n := Before(text, IsNewline);
      if n == |text| then [text] else [text[..n]] + Lines(text[n + 1..])
  }

  function DropCr(line: string): string {
    if line != [] && line[|line| - 1] == '\r' then line[..|line| - 1] else line
  }

  /** The words between white space. */
  function Fields(s: string): seq<string>
    decreases |s|
  {
    if s == [] then []
    else if IsSpace(s[0]) then Fields(s[1..])
    else
      var n := Before(s, IsSpace);
      [s[..n]] + Fields(s[n..])
  }

  datatype Parsed = Pinned(pins: Pins) | LineTooLong

  /** One line's effect: host, key type and key, or nothing when it has fewer fields. */
  function WithLine(pins: Pins, line: string): Pins {
    var f := Fields(DropCr(line));
    if |f| < 3 then pins else pins[f[0] := f[2]]
  }

  function ReadLines(lines: seq<string>): Parsed {
    if lines == [] then Pinned(map[])
    else
      var front, line := lines[..|lines| - 1], lines[|lines| - 1];
      match ReadLines(front)
      case LineTooLong => LineTooLong
      case Pinned(pins) => if |line| >= MAX_LINE then LineTooLong else Pinned(WithLine(pins, line))
  }

  function Read(file: string): Parsed { ReadLines(Lines(file)) }

  function Entry(host: string, keyType: string, key: string): string {
    host + " " + keyType + " " + key
  }

  function Appended(file: string, host: string, keyType: string, key: string): string {
    file + Entry(host, keyType, key) + "\n"
  }

  /** A host offers a key: accepted, with the file as it then is, or rejected. */
  datatype Verdict = Accepted(file: string) | Rejected

  function Check(file: string, host: string, keyType: string, key: string): Verdict {
    match Read(file)
    case LineTooLong => Rejected
    case Pinned(pins) =>
      if host in pins then (if pins[host] == key then Accepted(file) else Rejected)
      else Accepted(Appended(file, host, keyType, key))
  }

  /** A key is accepted exactly when the file can be read and pins nothing else for the host. Only on first contact
      is anything written: one line, at the end. */
  lemma AcceptedIff(file: string, host: string, keyType: string, key: string)
    ensures var v, p := Check(file, host, keyType, key), Read(file);
      && (v.Accepted? <==> p.Pinned? && (host in p.pins ==> p.pins[host] == key))
      && (v.Accepted? ==> v.file == if host in p.pins then file else file + host + " " + keyType + " " + key + "\n")
  {
    assert file + (host + " " + keyType + " " + key) + "\n" == file + host + " " + keyType + " " + key + "\n";
  }

  // ----- Lines and fields of what is appended

  ghost predicate Closed(file: string) {
    file == [] || file[|file| - 1] == '\n'
  }

  predicate Word(s: string) {
    s != [] && forall i :: 0 <= i < |s| ==> !IsSpace(s[i])
  }

  predicate NoNewline(s: string) {
    forall i :: 0 <= i < |s| ==> s[i] != '\n'
  }

  lemma {:induction false} BeforeIs(s: string, stop: char -> bool, n: nat)
    requires n <= |s| && (forall i :: 0 <= i < n ==> !stop(s[i])) && (n < |s| ==> stop(s[n]))
    ensures Before(s, stop) == n
  {
    if n == 0 {
    } else {
      BeforeIs(s[1..], stop, n - 1);
    }
  }

  lemma FirstLine(head: string, tail: string)
    requires NoNewline(head)
    ensures Lines(head + "\n" + tail) == [head] + Lines(tail)
  {
    var text := head + "\n" + tail;
    BeforeIs(text, IsNewline, |head|);
    assert text[..|head|] == head && text[|head| + 1..] == tail;
  }

  /** The lines of a text: none when it is empty, one when it has no newline, and otherwise what is before the
      first newline and then the lines of what is after it. */
  lemma LinesAre(head: string, tail: string)
    requires NoNewline(head)
    ensures Lines("") == [] && (head != "" ==> Lines(head) == [head])
    ensures Lines(head + "\n" + tail) == [head] + Lines(tail)
  {
    BeforeIs(head, IsNewline, |head|);
    FirstLine(head, tail);
  }

  lemma SplitFirstLine(file: string) returns (head: string, tail: string)
    requires Closed(file) && file != []
    ensures file == head + "\n" + tail && NoNewline(head) && Closed(tail) && |tail| < |file|
  {
    var n := Before(file, IsNewline);
    assert IsNewline(file[|file| - 1]);
    head, tail := file[..n], file[n + 1..];
  }

  /** Appending to a file whose last line is complete appends to the lines. */
  lemma {:induction false} LinesOfAppended(file: string, text: string)
    requires Closed(file)
    ensures Lines(file + text) == Lines(file) + Lines(text)
    decreases |file|
  {
    hide Lines;
    if file == [] {
      assert file + text == text;
      NoLines();
    } else {
      var head, tail := SplitFirstLine(file);
      LinesOfAppended(tail, text);
      FirstLine(head, tail);
      FirstLine(head, tail + text);
      assert file + text == head + "\n" + (tail + text);
      assert [head] + (Lines(tail) + Lines(text)) == [head] + Lines(tail) + Lines(text);
    }
  }

  lemma OneLine(line: string)
    requires NoNewline(line)
    ensures Lines(line + "\n") == [line]
  {
    FirstLine(line, []);
    assert line + "\n" + [] == line + "\n";
  }

  lemma NoLines()
    ensures Lines([]) == []
  {
  }

  /** A word at the front is the first field. */
  lemma FirstField(s: string, n: nat)
    requires 0 < n <= |s| && Word(s[..n]) && (n < |s| ==> IsSpace(s[n]))
    ensures Fields(s) == [s[..n]] + Fields(s[n..])
  {
    assert forall i :: 0 <= i < n ==> s[..n][i] == s[i];
    BeforeIs(s, IsSpace, n);
  }

  /** The fields of a text: none when it is empty, those of the rest when it begins with white space, and
      otherwise the longest word at the front and the fields of the rest. */
  lemma FieldsAre(c: char, word: string, rest: string)
    requires Word(word) && (rest != [] ==> IsSpace(rest[0]))
    ensures Fields("") == [] && (IsSpace(c) ==> Fields([c] + rest) == Fields(rest))
    ensures Fields(word + rest) == [word] + Fields(rest)
  {
    assert ([c] + rest)[1..] == rest;
    var s := word + rest;
    assert s[..|word|] == word && s[|word|..] == rest;
    FirstField(s, |word|);
  }

  /** The code points with the White_Space property of Unicode. */
  const WHITE_SPACE: set<int> := {
    0x9, 0xA, 0xB, 0xC, 0xD, 0x20, 0x85, 0xA0, 0x1680, 0x2000, 0x2001, 0x2002, 0x2003, 0x2004, 0x2005, 0x2006, 0x2007,
    0x2008, 0x2009, 0x200A, 0x2028, 0x2029, 0x202F, 0x205F, 0x3000}

  lemma WhiteSpaceIs(c: char)
    ensures IsSpace(c) <==> c as int in WHITE_SPACE
  {
  }

  lemma {:induction false} FieldsOfSpaced(a: string, b: string)
    ensures Fields(a + " " + b) == Fields(a) + Fields(b)
    decreases |a|
  {
    var text := a + " " + b;
    if a == [] {
      assert text == " " + b && text[1..] == b && Fields(a) == [];
      assert [] + Fields(b) == Fields(b);
    } else if IsSpace(a[0]) {
      assert text[1..] == a[1..] + " " + b;
      FieldsOfSpaced(a[1..], b);
    } else {
      var n := Before(a, IsSpace);
      assert forall i :: 0 <= i < n ==> a[..n][i] == a[i];
      FieldsOfSpaced(a[n..], b);
      SpacedField(a, b, n);
    }
  }

  lemma SpacedField(a: string, b: string, n: nat)
    requires 0 < n <= |a| && Word(a[..n]) && (n < |a| ==> IsSpace(a[n]))
    requires Fields(a[n..] + " " + b) == Fields(a[n..]) + Fields(b)
    ensures Fields(a + " " + b) == Fields(a) + Fields(b)
  {
    hide Fields, Word, IsSpace;
    var text := a + " " + b;
    assert text[..n] == a[..n] && text[n..] == a[n..] + " " + b;
    BlankIsSpace();
    FirstField(a, n);
    FirstField(text, n);
    assert [a[..n]] + (Fields(a[n..]) + Fields(b)) == [a[..n]] + Fields(a[n..]) + Fields(b);
  }

  lemma BlankIsSpace()
    ensures IsSpace(' ')
  {
  }

  lemma FieldsOfWord(w: string)
    requires Word(w)
    ensures Fields(w) == [w]
  {
    BeforeIs(w, IsSpace, |w|);
    assert w[..|w|] == w && Fields(w[|w|..]) == [];
  }

  /** Every field is a word. */
  lemma {:induction false} FieldsAreWords(s: string)
    ensures forall f :: f in Fields(s) ==> Word(f)
    decreases |s|
  {
    if s == [] {
    } else {
      if IsSpace(s[0]) {
        FieldsAreWords(s[1..]);
      } else {
        var n := Before(s, IsSpace);
        FieldsAreWords(s[n..]);
        assert Word(s[..n]);
      }
    }
  }

  /** The fields of an entry: those of the host, then the key type and the key. */
  lemma FieldsOfEntry(host: string, keyType: string, key: string)
    requires Word(keyType) && Word(key)
    ensures Fields(DropCr(Entry(host, keyType, key))) == Fields(host) + [keyType, key]
  {
    var e := Entry(host, keyType, key);
    assert e[|e| - 1] == key[|key| - 1] && !IsSpace(key[|key| - 1]);
    assert e == host + " " + (keyType + " " + key);
    FieldsOfSpaced(host, keyType + " " + key);
    FieldsOfSpaced(keyType, key);
    FieldsOfWord(keyType);
    FieldsOfWord(key);
    assert [keyType] + [key] == [keyType, key];
  }

  // ----- What one acceptance does to the pins

  /** What an entry's line does to the pins: the first word of the host gets whatever comes third. */
  function WithEntry(pins: Pins, host: string, keyType: string, key: string): Pins {
    var f := Fields(host);
    if f == [] then pins else pins[f[0] := (f + [keyType, key])[2]]
  }

  /** Appending an entry for any host name without a newline. A line over the limit makes the file unreadable. */
  lemma AppendedEntry(file: string, host: string, keyType: string, key: string)
    requires Closed(file) && NoNewline(host) && Word(keyType) && Word(key)
    ensures Read(Appended(file, host, keyType, key)) ==
      match Read(file)
      case LineTooLong => LineTooLong
      case Pinned(pins) =>
        if |Entry(host, keyType, key)| >= 65536 then LineTooLong else Pinned(WithEntry(pins, host, keyType, key))
  {
    var line := Entry(host, keyType, key);
    EntryIsOneLine(host, keyType, key);
    LinesOfAppended(file, line + "\n");
    OneLine(line);
    assert file + line + "\n" == file + (line + "\n");
    FieldsOfEntry(host, keyType, key);
    var lines := Lines(file);
    hide Lines, Fields, DropCr, Entry, Word;
    assert (lines + [line])[..|lines|] == lines;
  }

  lemma EntryIsOneLine(host: string, keyType: string, key: string)
    requires NoNewline(host) && Word(keyType) && Word(key)
    ensures NoNewline(Entry(host, keyType, key))
  {
  }

  /** A one-word host is pinned, and the parsed map changes nowhere else. */
  lemma AppendPins(file: string, host: string, keyType: string, key: string)
    requires Closed(file) && Word(host) && Word(keyType) && Word(key)
    ensures Read(Appended(file, host, keyType, key)) ==
      match Read(file)
      case LineTooLong => LineTooLong
      case Pinned(pins) =>
        if |Entry(host, keyType, key)| >= 65536 then LineTooLong else Pinned(pins[host := key])
  {
    hide Read, Appended;
    AppendedEntry(file, host, keyType, key);
    FieldsOfWord(host);
  }

  lemma {:induction false} PinnedHostsAreWords(lines: seq<string>, host: string)
    requires ReadLines(lines).Pinned? && host in ReadLines(lines).pins
    ensures Word(host)
    decreases |lines|
  {
    var front, line := lines[..|lines| - 1], lines[|lines| - 1];
    var f := Fields(DropCr(line));
    FieldsAreWords(DropCr(line));
    if !(|f| >= 3 && f[0] == host) {
      PinnedHostsAreWords(front, host);
    }
  }

  /** First contact leaves the host pinned to its key exactly when its name is a single word and its entry
      within the scanner's limit. */
  lemma FirstContactPinsIff(file: string, host: string, keyType: string, key: string)
    requires Closed(file) && Word(keyType) && Word(key)
    requires Read(file).Pinned? && host !in Read(file).pins
    ensures var after := Read(Appended(file, host, keyType, key));
      (after.Pinned? && host in after.pins && after.pins[host] == key) <==>
      Word(host) && |Entry(host, keyType, key)| < 65536
  {
    if Word(host) {
      AppendPins(file, host, keyType, key);
    } else if Read(Appended(file, host, keyType, key)).Pinned? && host in Read(Appended(file, host, keyType, key)).pins {
      PinnedHostsAreWords(Lines(Appended(file, host, keyType, key)), host);
    }
  }

  /** A host whose name is not a single word is never pinned: from a readable file it is accepted with any key. */
  lemma OnlyWordsAreChecked(file: string, host: string, keyType: string, key: string)
    requires Read(file).Pinned? && !Word(host)
    ensures Check(file, host, keyType, key).Accepted?
  {
    if host in Read(file).pins {
      PinnedHostsAreWords(Lines(file), host);
    }
  }

  /** First contact leaves the other hosts' pins alone exactly when no pin is filed under the first word of the
      new name, or that pin is the third word of the new line. */
  lemma FirstContactSparesPinsIff(file: string, host: string, keyType: string, key: string)
    requires Closed(file) && NoNewline(host) && Word(keyType) && Word(key) && |Entry(host, keyType, key)| < MAX_LINE
    requires Read(file).Pinned? && host !in Read(file).pins
    ensures var pins := Read(file).pins; var f := Fields(host);
      && Read(Appended(file, host, keyType, key)).Pinned?
      && ((forall g :: g in pins ==> g in Read(Appended(file, host, keyType, key)).pins
                                     && Read(Appended(file, host, keyType, key)).pins[g] == pins[g]) <==>
          (f == [] || f[0] !in pins || pins[f[0]] == (f + [keyType, key])[2]))
  {
    hide Read, Appended, Fields;
    AppendedEntry(file, host, keyType, key);
  }

  /** Accepting a host of two words files its key type as the pin of the first word. */
  lemma TwoWordsPinTheFirst(file: string, a: string, b: string, keyType: string, key: string)
    requires Closed(file) && Word(a) && Word(b) && Word(keyType) && Word(key)
    requires Read(file).Pinned? && |Entry(a + " " + b, keyType, key)| < MAX_LINE
    ensures Read(Appended(file, a + " " + b, keyType, key)) == Pinned(Read(file).pins[a := keyType])
  {
    var host := a + " " + b;
    hide Read, Appended;
    FieldsOfSpaced(a, b);
    FieldsOfWord(a);
    FieldsOfWord(b);
    AppendedEntry(file, host, keyType, key);
    assert ([a] + [b] + [keyType, key])[2] == keyType;
  }

  // ----- Whole runs

  datatype Handshake = Handshake(host: string, keyType: string, key: string)

  /** The file after a list of handshakes; a rejected one leaves it alone. */
  function FileAfter(file: string, hs: seq<Handshake>): string {
    if hs == [] then file
    else
      var before, h := FileAfter(file, hs[..|hs| - 1]), hs[|hs| - 1];
      match Check(before, h.host, h.keyType, h.key)
      case Accepted(next) => next
      case Rejected => before
  }

  predicate AcceptedAt(file: string, hs: seq<Handshake>, i: nat)
    requires i < |hs|
  {
    Check(FileAfter(file, hs[..i]), hs[i].host, hs[i].keyType, hs[i].key).Accepted?
  }

  /** No line this handshake may append has x as its host. */
  ghost predicate Spares(h: Handshake, x: string) {
    forall l :: l in Lines(Entry(h.host, h.keyType, h.key) + "\n") ==> |Fields(DropCr(l))| < 3 || Fields(DropCr(l))[0] != x
  }

  /** A host of one word spares every other. */
  lemma WordsSpareOthers(h: Handshake, x: string)
    requires Word(h.host) && Word(h.keyType) && Word(h.key) && h.host != x
    ensures Spares(h, x)
  {
    var line := Entry(h.host, h.keyType, h.key);
    assert NoNewline(line);
    OneLine(line);
    FieldsOfEntry(h.host, h.keyType, h.key);
    FieldsOfWord(h.host);
  }

  ghost predicate SpareOrSame(hs: seq<Handshake>, x: string) {
    forall i :: 0 <= i < |hs| ==> hs[i].host == x || Spares(hs[i], x)
  }

  lemma {:induction false} FileStaysClosed(file: string, hs: seq<Handshake>)
    requires Closed(file)
    ensures Closed(FileAfter(file, hs))
    decreases |hs|
  {
    if hs == [] {
    } else {
      var h := hs[|hs| - 1];
      FileStaysClosed(file, hs[..|hs| - 1]);
      AppendedIsClosed(FileAfter(file, hs[..|hs| - 1]), h.host, h.keyType, h.key);
    }
  }

  /** The pin of x is the same in both, as long as the second can be read. */
  ghost predicate Keeps(before: Parsed, after: Parsed, x: string) {
    && (before.LineTooLong? ==> after.LineTooLong?)
    && (before.Pinned? && x in before.pins && after.Pinned? ==> x in after.pins && after.pins[x] == before.pins[x])
  }

  lemma {:induction false} LinesSpare(lines: seq<string>, more: seq<string>, x: string)
    requires forall l :: l in more ==> |Fields(DropCr(l))| < 3 || Fields(DropCr(l))[0] != x
    ensures Keeps(ReadLines(lines), ReadLines(lines + more), x)
    decreases |more|
  {
    if more == [] {
      assert lines + more == lines;
    } else {
      hide Fields, DropCr;
      var front := more[..|more| - 1];
      LinesSpare(lines, front, x);
      assert (lines + more)[..|lines + more| - 1] == lines + front;
      assert more[|more| - 1] in more;
    }
  }

  lemma SparedAppend(file: string, h: Handshake, x: string)
    requires Closed(file) && Spares(h, x)
    ensures Keeps(Read(file), Read(Appended(file, h.host, h.keyType, h.key)), x)
  {
    var text := Entry(h.host, h.keyType, h.key) + "\n";
    LinesOfAppended(file, text);
    assert file + Entry(h.host, h.keyType, h.key) + "\n" == file + text;
    LinesSpare(Lines(file), Lines(text), x);
  }

  /** A pin is for ever, and an unreadable file stays unreadable: nothing is accepted from it. */
  lemma {:induction false} PinStays(file: string, hs: seq<Handshake>, i: nat, x: string)
    requires Closed(file) && SpareOrSame(hs, x) && i <= |hs|
    requires var p := Read(FileAfter(file, hs[..i])); p.LineTooLong? || x in p.pins
    ensures Keeps(Read(FileAfter(file, hs[..i])), Read(FileAfter(file, hs)), x)
    decreases |hs|
  {
    if i == |hs| {
      assert hs[..i] == hs;
    } else {
      var front, h := hs[..|hs| - 1], hs[|hs| - 1];
      assert front[..i] == hs[..i];
      assert SpareOrSame(front, x);
      PinStays(file, front, i, x);
      FileStaysClosed(file, front);
      hide Read, Appended, Spares;
      if h.host != x {
        SparedAppend(FileAfter(file, front), h, x);
      }
    }
  }

  lemma AcceptanceLeavesPin(file: string, host: string, keyType: string, key: string)
    requires Closed(file) && Word(host) && Word(keyType) && Word(key) && Check(file, host, keyType, key).Accepted?
    ensures var after := Read(Check(file, host, keyType, key).file);
      after.Pinned? ==> host in after.pins && after.pins[host] == key
  {
    AppendPins(file, host, keyType, key);
  }

  /** Trust on first use, then pin: over any run of handshakes, two accepted ones for a host carry the same
      key, as long as no other host's lines name it. */
  lemma KeysNeverChange(file: string, hs: seq<Handshake>, i: nat, j: nat)
    requires Closed(file) && i < j < |hs| && hs[i].host == hs[j].host && SpareOrSame(hs, hs[i].host)
    requires Word(hs[i].host) && Word(hs[i].keyType) && Word(hs[i].key)
    requires AcceptedAt(file, hs, i) && AcceptedAt(file, hs, j)
    ensures hs[i].key == hs[j].key
  {
    hide Read, Appended, Word, Spares, Closed;
    var h := hs[i];
    FileStaysClosed(file, hs[..i]);
    AcceptanceLeavesPin(FileAfter(file, hs[..i]), h.host, h.keyType, h.key);
    assert hs[..i + 1][..i] == hs[..i] && hs[..i + 1][i] == h;
    var run := hs[..j];
    assert run[..i + 1] == hs[..i + 1];
    assert SpareOrSame(run, h.host);
    PinStays(file, run, i + 1, h.host);
  }

  /** A pin in the file survives every run whose other hosts' lines do not name it. */
  lemma OtherPinsNeverChange(file: string, hs: seq<Handshake>, x: string)
    requires Closed(file) && Read(file).Pinned? && x in Read(file).pins && SpareOrSame(hs, x)
    ensures Read(FileAfter(file, hs)).Pinned? ==>
      x in Read(FileAfter(file, hs)).pins && Read(FileAfter(file, hs)).pins[x] == Read(file).pins[x]
  {
    assert hs[..0] == [];
    PinStays(file, hs, 0, x);
  }

  /** A host named in two words takes another's pin: a keeps the same key and is turned away. */
  lemma TwoWordHostTakesAPin()
    ensures var hs := [Handshake("a", "t", "K"), Handshake("a b", "t", "L"), Handshake("a", "t", "K")];
      AcceptedAt([], hs, 0) && AcceptedAt([], hs, 1) && !AcceptedAt([], hs, 2)
  {
    var h0, h1 := Handshake("a", "t", "K"), Handshake("a b", "t", "L");
    var hs := [h0, h1, h0];
    var f1 := Appended([], "a", "t", "K");
    var f2 := Appended(f1, "a b", "t", "L");
    ReadNothing();
    AppendedIsClosed([], "a", "t", "K");
    hide Read, Appended;
    assert |Entry("a", "t", "K")| == 5 && |Entry("a b", "t", "L")| == 7;
    AppendPins([], "a", "t", "K");
    TwoWordsPinTheFirst(f1, "a", "b", "t", "L");
    assert "a" + " " + "b" == "a b";
    assert |"a"| != |"a b"|;
    assert hs[..0] == [] && hs[..1] == [h0] && [h0][..0] == [] && hs[..2] == [h0, h1] && [h0, h1][..1] == [h0];
    assert FileAfter([], [h0]) == f1;
    assert FileAfter([], [h0, h1]) == f2;
  }

  lemma ReadNothing()
    ensures Read([]) == Pinned(map[]) && Closed([])
  {
  }

  lemma AppendedIsClosed(file: string, host: string, keyType: string, key: string)
    ensures Closed(Appended(file, host, keyType, key))
  {
  }

  // ----- The loops

  method ReadKnownHosts(file: string) returns (r: Parsed)
    ensures r == Read(file)
  {
    hide Lines, Fields, DropCr;
    var pins: Pins := map[];
    var lines := Lines(file);
    for i := 0 to |lines|
      invariant ReadLines(lines[..i]) == Pinned(pins)
    {
      assert lines[..i + 1][..i] == lines[..i];
      if |lines[i]| >= MAX_LINE {
        TooLongStays(lines, i + 1);
        return LineTooLong;
      }
      var fields := Fields(DropCr(lines[i]));
      if |fields| >= 3 {
        pins := pins[fields[0] := fields[2]];
      }
    }
    assert lines[..|lines|] == lines;
    r := Pinned(pins);
  }

  lemma {:induction false} TooLongStays(lines: seq<string>, i: nat)
    requires i <= |lines| && ReadLines(lines[..i]).LineTooLong?
    ensures ReadLines(lines).LineTooLong?
    decreases |lines|
  {
    if i == |lines| {
      assert lines[..i] == lines;
    } else {
      assert lines[..|lines| - 1][..i] == lines[..i];
      TooLongStays(lines[..|lines| - 1], i);
    }
  }

  /** What the file system does: opening for reading fails other than for a missing file, or opening for
      appending does. */
  datatype Io = Works | ReadFails | AppendFails

  class Log {
    var file: string

    constructor (file: string)
      ensures this.file == file
    {
      this.file := file;
    }

    /** The host key callback, under keyMu. An error of the file system refuses the host. */
    method HostKey(host: string, keyType: string, key: string, io: Io) returns (accepted: bool)
      modifies this
      ensures match Check(old(file), host, keyType, key)
        case Accepted(next) =>
          if io.Works? || (io.AppendFails? && next == old(file)) then accepted && file == next
          else !accepted && file == old(file)
        case Rejected => !accepted && file == old(file)
    {
      if io.ReadFails? {
        return false;
      }
      var known := ReadKnownHosts(file);
      if known.LineTooLong? {
        return false;
      }
      if host in known.pins {
        return known.pins[host] == key;
      }
      assert |Appended(file, host, keyType, key)| > |file|;
      if io.AppendFails? {
        return false;
      }
      file := file + host + " " + keyType + " " + key + "\n";
      assert file == Appended(old(file), host, keyType, key);
      accepted := true;
    }
  }
}
