/** Quoting a path for a shell (commands/platform_commands.rs). */
module ShellQuote {
  import opened Wrappers

  /** `raw.replace('\'', escaped)`. */
  function ReplaceApostrophes(raw: string, escaped: string): string {
    if raw == [] then []
    else (if raw[0] == '\'' then escaped else [raw[0]]) + ReplaceApostrophes(raw[1..], escaped)
  }

  const POSIX_APOSTROPHE := "'\"'\"'"

  const POWERSHELL_APOSTROPHE := "''"

  function QuoteArgument(raw: string, powershell: bool): string {
    "'" + ReplaceApostrophes(raw, if powershell then POWERSHELL_APOSTROPHE else POSIX_APOSTROPHE) + "'"
  }

  function Invocation(quoted: string, powershell: bool): string {
    if powershell then "& " + quoted else quoted
  }

  // ----- a POSIX shell reading words

  datatype Quoting = Outside | InWord | Single | Double

  predicate IsBlank(c: char) {
    c == ' ' || c == '\t' || c == '\n'
  }

  /** The characters that mean more than themselves outside quotes. */
  predicate IsSpecial(c: char) {
    c in "|&;<>()$`\\*?[#~=%"
  }

  /** The characters that mean more than themselves in double quotes. */
  predicate ExpandsInDouble(c: char) {
    c == '$' || c == '`' || c == '\\'
  }

  /** The words of a line, after sections 2.2.2 and 2.2.3 of the POSIX.1-2017 Shell
      Command Language; `None` when a quote is left open or a character would have
      to be interpreted. `word` is what has been read of the current word. */
  function ReadWords(line: string, quoting: Quoting, word: string): Option<seq<string>>
    decreases line
  {
    if line == [] then
      match quoting
      case Outside => Some([])
      case InWord => Some([word])
      case _ => None
    else
      var c, rest := line[0], line[1..];
      match quoting
      case Single => if c == '\'' then ReadWords(rest, InWord, word) else ReadWords(rest, Single, word + [c])
      case Double =>
        if c == '"' then ReadWords(rest, InWord, word)
        else if ExpandsInDouble(c) then None
        else ReadWords(rest, Double, word + [c])
      case _ =>
        if c == '\'' then ReadWords(rest, Single, word)
        else if c == '"' then ReadWords(rest, Double, word)
        else if IsSpecial(c) then None
        else if !IsBlank(c) then ReadWords(rest, InWord, word + [c])
        else if quoting == Outside then ReadWords(rest, Outside, [])
        else
          match ReadWords(rest, Outside, [])
          case None => None
          case Some(words) => Some([word] + words)
  }

  function ShellWords(line: string): Option<seq<string>> {
    ReadWords(line, Outside, [])
  }

  lemma ApostropheReadsBack(rest: string, word: string)
    ensures ReadWords(POSIX_APOSTROPHE + rest, Single, word) == ReadWords(rest, Single, word + ['\''])
  {
    var s0 := POSIX_APOSTROPHE + rest;
    var s1 := "\"'\"'" + rest;
    var s2 := "'\"'" + rest;
    var s3 := "\"'" + rest;
    var s4 := "'" + rest;
    assert s0[1..] == s1 && s1[1..] == s2 && s2[1..] == s3 && s3[1..] == s4 && s4[1..] == rest;
    assert s0[0] == '\'' && s1[0] == '"' && s2[0] == '\'' && s3[0] == '"' && s4[0] == '\'';
    assert ReadWords(s0, Single, word) == ReadWords(s1, InWord, word);
    assert ReadWords(s1, InWord, word) == ReadWords(s2, Double, word);
    assert ReadWords(s2, Double, word) == ReadWords(s3, Double, word + ['\'']);
    assert ReadWords(s3, Double, word + ['\'']) == ReadWords(s4, InWord, word + ['\'']);
    assert ReadWords(s4, InWord, word + ['\'']) == ReadWords(rest, Single, word + ['\'']);
  }

  lemma {:induction false} QuotedBodyReadsBack(raw: string, word: string)
    ensures ReadWords(ReplaceApostrophes(raw, POSIX_APOSTROPHE) + "'", Single, word) == Some([word + raw])
    decreases |raw|
  {
    if raw == [] {
      assert ReplaceApostrophes(raw, POSIX_APOSTROPHE) + "'" == "'";
      assert "'"[1..] == [] && word + raw == word;
      assert ReadWords("'", Single, word) == ReadWords([], InWord, word);
    } else {
      var tail := ReplaceApostrophes(raw[1..], POSIX_APOSTROPHE) + "'";
      QuotedBodyReadsBack(raw[1..], word + [raw[0]]);
      assert word + [raw[0]] + raw[1..] == word + raw;
      var line := ReplaceApostrophes(raw, POSIX_APOSTROPHE) + "'";
      if raw[0] == '\'' {
        assert line == POSIX_APOSTROPHE + tail;
        ApostropheReadsBack(tail, word);
      } else {
        assert line == [raw[0]] + tail;
        assert line[1..] == tail;
      }
    }
  }

  /** For every string, a shell reads the quoted form as exactly one word, equal to
      the string: also when it is empty or full of blanks and quotes. */
  lemma PosixRoundTrip(raw: string)
    ensures ShellWords(Invocation(QuoteArgument(raw, false), false)) == Some([raw])
  {
    var body := ReplaceApostrophes(raw, POSIX_APOSTROPHE) + "'";
    var line := QuoteArgument(raw, false);
    assert line == "'" + body;
    assert line[0] == '\'' && line[1..] == body;
    QuotedBodyReadsBack(raw, []);
    assert [] + raw == raw;
  }

  // ----- PowerShell reading a verbatim string

  /** What follows the opening quote of a verbatim string that takes up the whole
      rest of the text. Any of `closers` ends it, unless another one follows: then
      the two stand for the first. */
  function ReadVerbatim(closers: set<char>, s: string): Option<string>
    decreases s
  {
    if s == [] then None
    else if s[0] !in closers then
      match ReadVerbatim(closers, s[1..])
      case None => None
      case Some(text) => Some([s[0]] + text)
    else if |s| == 1 then Some([])
    else if s[1] !in closers then None
    else
      match ReadVerbatim(closers, s[2..])
      case None => None
      case Some(text) => Some([s[0]] + text)
  }

  function ReadCall(closers: set<char>, line: string): Option<string> {
    if |line| >= 3 && line[..3] == "& '" then ReadVerbatim(closers, line[3..]) else None
  }

  predicate OnlyApostrophesClose(closers: set<char>, raw: string) {
    forall k :: 0 <= k < |raw| && raw[k] in closers ==> raw[k] == '\''
  }

  lemma {:induction false} VerbatimBodyReadsBack(closers: set<char>, raw: string)
    requires '\'' in closers && OnlyApostrophesClose(closers, raw)
    ensures ReadVerbatim(closers, ReplaceApostrophes(raw, POWERSHELL_APOSTROPHE) + "'") == Some(raw)
    decreases |raw|
  {
    var s := ReplaceApostrophes(raw, POWERSHELL_APOSTROPHE) + "'";
    if raw == [] {
      assert s == "'";
    } else {
      var tail := ReplaceApostrophes(raw[1..], POWERSHELL_APOSTROPHE) + "'";
      VerbatimBodyReadsBack(closers, raw[1..]);
      assert [raw[0]] + raw[1..] == raw;
      if raw[0] == '\'' {
        assert s == POWERSHELL_APOSTROPHE + tail;
        assert s[2..] == tail;
      } else {
        assert s == [raw[0]] + tail;
        assert s[1..] == tail;
      }
    }
  }

  /** How many characters of the text are closers. */
  function Closers(closers: set<char>, s: string): nat {
    if s == [] then 0 else (if s[0] in closers then 1 else 0) + Closers(closers, s[1..])
  }

  /** A closer is read in pairs but for the last, so the length of what is read
      follows from the number of closers. */
  lemma {:induction false} ReadLength(closers: set<char>, s: string)
    requires ReadVerbatim(closers, s).Some?
    ensures 2 * |ReadVerbatim(closers, s).value| + Closers(closers, s) + 1 == 2 * |s|
    decreases |s|
  {
    if s[0] !in closers {
      ReadLength(closers, s[1..]);
    } else if |s| == 1 {
      assert s[1..] == [];
      assert Closers(closers, s) == 1 + Closers(closers, s[1..]);
    } else {
      ReadLength(closers, s[2..]);
      assert s[1..][1..] == s[2..];
      assert Closers(closers, s[1..]) == 1 + Closers(closers, s[2..]);
    }
  }

  lemma {:induction false} ClosersOfSum(closers: set<char>, a: string, b: string)
    ensures Closers(closers, a + b) == Closers(closers, a) + Closers(closers, b)
    decreases |a|
  {
    if a == [] {
      assert a + b == b;
    } else {
      ClosersOfSum(closers, a[1..], b);
      assert (a + b)[1..] == a[1..] + b;
    }
  }

  /** The closers of a string other than the apostrophe. */
  function Others(closers: set<char>, s: string): (n: nat)
    ensures n == 0 <==> OnlyApostrophesClose(closers, s)
  {
    if s == [] then 0
    else
      assert OnlyApostrophesClose(closers, s) <==>
             (s[0] in closers ==> s[0] == '\'') && OnlyApostrophesClose(closers, s[1..]) by {
        assert s == [s[0]] + s[1..];
        if OnlyApostrophesClose(closers, s) {
          forall k | 0 <= k < |s[1..]| && s[1..][k] in closers ensures s[1..][k] == '\'' {
            assert s[k + 1] == s[1..][k];
          }
        }
      }
      (if s[0] in closers && s[0] != '\'' then 1 else 0) + Others(closers, s[1..])
  }

  lemma {:induction false} DoubledCounts(closers: set<char>, raw: string)
    requires '\'' in closers
    ensures var doubled := ReplaceApostrophes(raw, POWERSHELL_APOSTROPHE);
            2 * |doubled| - Closers(closers, doubled) == 2 * |raw| - Others(closers, raw)
    decreases |raw|
  {
    if raw != [] {
      DoubledCounts(closers, raw[1..]);
      var tail := ReplaceApostrophes(raw[1..], POWERSHELL_APOSTROPHE);
      if raw[0] == '\'' {
        assert POWERSHELL_APOSTROPHE[1..] == "'" && "'"[1..] == [];
        assert Closers(closers, "'") == 1 && Closers(closers, POWERSHELL_APOSTROPHE) == 2;
        ClosersOfSum(closers, POWERSHELL_APOSTROPHE, tail);
      } else {
        assert [raw[0]][1..] == [];
        ClosersOfSum(closers, [raw[0]], tail);
      }
    }
  }

  /** The quoted form is read back as the string exactly when the string holds no
      character, other than the ASCII apostrophe, that closes the literal. */
  lemma PowerShellRoundTripIff(closers: set<char>, raw: string)
    requires '\'' in closers
    ensures ReadCall(closers, Invocation(QuoteArgument(raw, true), true)) == Some(raw)
            <==> OnlyApostrophesClose(closers, raw)
  {
    var line := Invocation(QuoteArgument(raw, true), true);
    var doubled := ReplaceApostrophes(raw, POWERSHELL_APOSTROPHE);
    assert line == "& '" + (doubled + "'");
    assert line[..3] == "& '" && line[3..] == doubled + "'";
    if OnlyApostrophesClose(closers, raw) {
      VerbatimBodyReadsBack(closers, raw);
    } else if ReadVerbatim(closers, doubled + "'") == Some(raw) {
      ReadLength(closers, doubled + "'");
      ClosersOfSum(closers, doubled, "'");
      assert "'"[1..] == [];
      assert Closers(closers, "'") == 1;
      DoubledCounts(closers, raw);
    }
  }
}
