/** shellQuote, of internal/remote/dialer.go and internal/project/indexer.go, against the word rules of
    POSIX.1-2017, Shell Command Language, sections 2.2 and 2.3. */
module ShellQuote {

  const QUOTE: char := '\''

  /** Every single quote becomes: end the quotation, an escaped quote, begin it again. */
  function Replaced(s: string): string {
    if s == [] then [] else (if s[0] == QUOTE then "'\\''" else [s[0]]) + Replaced(s[1..])
  }

  function Quote(s: string): string {
    "'" + Replaced(s) + "'"
  }

  /** Reading one word. An expansion ends the reading with `Expands`: the word is then not a literal. */
  datatype Lexed = Word(word: string, rest: string) | Expands | Unterminated

  predicate EndsWord(c: char) {
    c == ' ' || c == '\t' || c == '\n' || c == '|' || c == '&' || c == ';' || c == '<' || c == '>' || c == '(' || c == ')'
  }

  /** Unquoted, these start an expansion or a pattern. */
  predicate Special(c: char) {
    c == '$' || c == '`' || c == '*' || c == '?' || c == '[' || c == '~' || c == '#'
  }

  /** Outside quotes: section 2.2.1 for the backslash, 2.2.2 and 2.2.3 for the quotes. */
  function Lex(acc: string, input: string): Lexed
    decreases |input|
  {
    if input == [] then Word(acc, [])
    else if EndsWord(input[0]) then Word(acc, input)
    else if input[0] == QUOTE then InSingle(acc, input[1..])
    else if input[0] == '"' then InDouble(acc, input[1..])
    else if input[0] == '\\' then
      if |input| == 1 then Unterminated
      else if input[1] == '\n' then Lex(acc, input[2..])
      else Lex(acc + [input[1]], input[2..])
    else if Special(input[0]) then Expands
    else Lex(acc + [input[0]], input[1..])
  }

  /** Section 2.2.2: everything up to the next single quote stands for itself. */
  function InSingle(acc: string, input: string): Lexed
    decreases |input|
  {
    if input == [] then Unterminated
    else if input[0] == QUOTE then Lex(acc, input[1..])
    else InSingle(acc + [input[0]], input[1..])
  }

  /** Section 2.2.3. */
  function InDouble(acc: string, input: string): Lexed
    decreases |input|
  {
    if input == [] then Unterminated
    else if input[0] == '"' then Lex(acc, input[1..])
    else if input[0] == '$' || input[0] == '`' then Expands
    else if input[0] == '\\' && |input| > 1 && input[1] == '\n' then InDouble(acc, input[2..])
    else if input[0] == '\\' && |input| > 1 && (input[1] == '$' || input[1] == '`' || input[1] == '"' || input[1] == '\\')
    then InDouble(acc + [input[1]], input[2..])
    else InDouble(acc + [input[0]], input[1..])
  }

  /** Inside the quotes, the replaced text reads back as the text. */
  lemma {:induction false} ReplacedReadsBack(acc: string, s: string, rest: string)
    ensures InSingle(acc, Replaced(s) + "'" + rest) == Lex(acc + s, rest)
    decreases |s|
  {
    var input := Replaced(s) + "'" + rest;
    if s == [] {
      assert input == "'" + rest && acc + s == acc;
    } else {
      var tail := Replaced(s[1..]) + "'" + rest;
      assert acc + s == acc + [s[0]] + s[1..];
      ReplacedReadsBack(acc + [s[0]], s[1..], rest);
      if s[0] == QUOTE {
        assert input == "'\\''" + tail && input[1..] == "\\''" + tail;
        assert ("\\''" + tail)[2..] == "'" + tail && ("'" + tail)[1..] == tail;
        assert Lex(acc + [QUOTE], "'" + tail) == InSingle(acc + [QUOTE], tail);
        assert Lex(acc, "\\''" + tail) == Lex(acc + [QUOTE], "'" + tail);
      } else {
        assert input == [s[0]] + tail && input[1..] == tail;
      }
    }
  }

  /** A quoted string adds exactly itself to the word being read, wherever it stands and whatever follows. */
  lemma QuoteIsTransparent(acc: string, s: string, rest: string)
    ensures Lex(acc, Quote(s) + rest) == Lex(acc + s, rest)
  {
    assert Quote(s) + rest == "'" + (Replaced(s) + "'" + rest);
    assert (Quote(s) + rest)[1..] == Replaced(s) + "'" + rest;
    ReplacedReadsBack(acc, s, rest);
  }

  /** Followed by a blank, a quoted string is one word, and that word is the string. */
  lemma QuoteRoundTrip(s: string, rest: string)
    ensures Lex("", Quote(s) + " " + rest) == Word(s, " " + rest)
  {
    QuoteIsTransparent("", s, " " + rest);
    assert Quote(s) + " " + rest == Quote(s) + (" " + rest) && "" + s == s;
  }

  lemma QuoteIsInjective(s: string, t: string)
    requires Quote(s) == Quote(t)
    ensures s == t
  {
    QuoteRoundTrip(s, "");
    QuoteRoundTrip(t, "");
  }

  lemma {:induction false} PlainLettersReadBack(acc: string, word: string, rest: string)
    requires forall i :: 0 <= i < |word| ==> 'a' <= word[i] <= 'z'
    ensures Lex(acc, word + rest) == Lex(acc + word, rest)
    decreases |word|
  {
    if word == [] {
      assert word + rest == rest && acc + word == acc;
    } else {
      assert (word + rest)[1..] == word[1..] + rest;
      PlainLettersReadBack(acc + [word[0]], word[1..], rest);
      assert acc + [word[0]] + word[1..] == acc + word;
    }
  }

  /** The command Open runs in a project: cd's argument is the directory, and the shell's next word starts
      the && that follows, whatever characters the directory has. */
  lemma CdGetsItsDirectory(dir: string)
    ensures var cmd := "cd " + Quote(dir) + " && exec $SHELL -l";
      Lex("", cmd) == Word("cd", cmd[2..]) && Lex("", cmd[3..]) == Word(dir, " && exec $SHELL -l")
  {
    var tail := " && exec $SHELL -l";
    var cmd := "cd " + Quote(dir) + tail;
    assert cmd == "cd" + cmd[2..];
    PlainLettersReadBack("", "cd", cmd[2..]);
    assert "" + "cd" == "cd" && cmd[2..] == " " + Quote(dir) + tail;
    assert cmd[3..] == Quote(dir) + tail;
    QuoteIsTransparent("", dir, tail);
    assert "" + dir == dir;
  }
}
