/** Sending an argument list through a remote shell, and bounding what comes back. */
module RemoteArgs {
  import opened Words

  const NUL: char := '\0'

  // ----- quoting -----

  /** An embedded single quote is closed, double-quoted and reopened. */
  const ESCAPED_QUOTE := "'\"'\"'"

  function Escaped(argument: string): string {
    if argument == "" then ""
    else (if argument[0] == '\'' then ESCAPED_QUOTE else [argument[0]]) + Escaped(argument[1..])
  }

  function Quoted(argument: string): string {
    "'" + Escaped(argument) + "'"
  }

  function JoinWithSpaces(parts: seq<string>): string {
    if parts == [] then "" else if |parts| == 1 then parts[0] else parts[0] + " " + JoinWithSpaces(parts[1..])
  }

  function QuotedAll(argv: seq<string>): seq<string> {
    seq(|argv|, i requires 0 <= i < |argv| => Quoted(argv[i]))
  }

  /** The command line sent for an argument list. */
  method JoinRemoteArgs(argv: seq<string>) returns (line: string)
    ensures line == JoinWithSpaces(QuotedAll(argv))
  {
    var quoted := new string[|argv|](_ => "");
    for index := 0 to |argv|
      invariant forall i :: 0 <= i < index ==> quoted[i] == Quoted(argv[i])
    {
      quoted[index] := "'" + Escaped(argv[index]) + "'";
    }
    assert quoted[..] == QuotedAll(argv);
    line := JoinWithSpaces(quoted[..]);
  }

  // ----- how a shell reads a line -----

  datatype Mode = Unquoted | SingleQuoted | DoubleQuoted

  /** Characters that, unquoted, do more than stand for themselves. */
  predicate IsSpecial(c: char) {
    c in "|&;<>()$`\n*?[]#~=%!{}"
  }

  function Word(current: Option<string>): string {
    if current.Some? then current.value else ""
  }

  function Finished(current: Option<string>): seq<string> {
    if current.Some? then [current.value] else []
  }

  /** Reads a line into words by the POSIX Shell Command Language, sections 2.2 and 2.3. A
      line that is not made of plain words only (an operator, an expansion, a pattern, an
      unfinished quotation) gives none. */
  function Scan(s: string, mode: Mode, current: Option<string>, words: seq<string>): Option<seq<string>>
    decreases |s|
  {
    if s == "" then
      if mode.Unquoted? then Some(words + Finished(current)) else None
    else
      var c, rest := s[0], s[1..];
      match mode
      case Unquoted =>
        if c == '\'' then Scan(rest, SingleQuoted, Some(Word(current)), words)
        else if c == '\"' then Scan(rest, DoubleQuoted, Some(Word(current)), words)
        else if c == ' ' || c == '\t' then Scan(rest, Unquoted, None, words + Finished(current))
        else if c == '\\' then
          if rest == "" then None
          else if rest[0] == '\n' then Scan(rest[1..], Unquoted, current, words)
          else Scan(rest[1..], Unquoted, Some(Word(current) + [rest[0]]), words)
        else if IsSpecial(c) then None
        else Scan(rest, Unquoted, Some(Word(current) + [c]), words)
      case SingleQuoted =>
        if c == '\'' then Scan(rest, Unquoted, current, words)
        else Scan(rest, SingleQuoted, Some(Word(current) + [c]), words)
      case DoubleQuoted =>
        if c == '\"' then Scan(rest, Unquoted, current, words)
        else if c == '$' || c == '`' then None
        else if c == '\\' && rest != "" && rest[0] in "$`\"\\" then
          Scan(rest[1..], DoubleQuoted, Some(Word(current) + [rest[0]]), words)
        else if c == '\\' && rest != "" && rest[0] == '\n' then Scan(rest[1..], DoubleQuoted, current, words)
        else Scan(rest, DoubleQuoted, Some(Word(current) + [c]), words)
  }

  /** The words of a line; a line cannot carry the NUL character. */
  function Tokenize(line: string): Option<seq<string>> {
    if NUL in line then None else Scan(line, Unquoted, None, [])
  }

  // ----- the round trip -----

  lemma ScanChar(c: char, rest: string, w: string, words: seq<string>)
    requires c != '\''
    ensures Scan([c] + rest, SingleQuoted, Some(w), words) == Scan(rest, SingleQuoted, Some(w + [c]), words)
  {
    assert ([c] + rest)[1..] == rest;
  }

  lemma OpenQuote(rest: string, current: Option<string>, words: seq<string>)
    ensures Scan("'" + rest, Unquoted, current, words) == Scan(rest, SingleQuoted, Some(Word(current)), words)
  {
    assert ("'" + rest)[1..] == rest;
  }

  lemma CloseQuote(rest: string, w: string, words: seq<string>)
    ensures Scan("'" + rest, SingleQuoted, Some(w), words) == Scan(rest, Unquoted, Some(w), words)
  {
    assert ("'" + rest)[1..] == rest;
  }

  lemma DoubledQuote(rest: string, w: string, words: seq<string>)
    ensures Scan("\"'\"" + rest, Unquoted, Some(w), words) == Scan(rest, Unquoted, Some(w + ['\'']), words)
  {
    var one := "'\"" + rest;
    var two := "\"" + rest;
    assert "\"'\"" + rest == "\"" + one && ("\"" + one)[1..] == one;
    assert one == "'" + two && one[1..] == two && two[1..] == rest;
    assert Scan(one, DoubleQuoted, Some(w), words) == Scan(two, DoubleQuoted, Some(w + ['\'']), words);
  }

  /** An escaped quote adds one quote to the word. */
  lemma ScanQuote(rest: string, w: string, words: seq<string>)
    ensures Scan(ESCAPED_QUOTE + rest, SingleQuoted, Some(w), words) == Scan(rest, SingleQuoted, Some(w + ['\'']), words)
  {
    var inner := "\"'\"" + ("'" + rest);
    assert ESCAPED_QUOTE + rest == "'" + inner;
    CloseQuote(inner, w, words);
    DoubledQuote("'" + rest, w, words);
    OpenQuote(rest, Some(w + ['\'']), words);
  }

  /** Reading the inside of a quoted argument adds exactly the argument to the word. */
  lemma {:induction false} ScanEscaped(argument: string, rest: string, w: string, words: seq<string>)
    ensures Scan(Escaped(argument) + rest, SingleQuoted, Some(w), words)
            == Scan(rest, SingleQuoted, Some(w + argument), words)
  {
    if argument == "" {
      assert Escaped(argument) + rest == rest && w + argument == w;
    } else {
      var c, tail := argument[0], argument[1..];
      assert argument == [c] + tail;
      assert (w + [c]) + tail == w + argument;
      if c == '\'' {
        assert Escaped(argument) + rest == ESCAPED_QUOTE + (Escaped(tail) + rest);
        ScanQuote(Escaped(tail) + rest, w, words);
      } else {
        assert Escaped(argument) + rest == [c] + (Escaped(tail) + rest);
        ScanChar(c, Escaped(tail) + rest, w, words);
      }
      ScanEscaped(tail, rest, w + [c], words);
    }
  }

  /** Reading a quoted argument gives that argument as one word. */
  lemma ScanQuoted(argument: string, rest: string, words: seq<string>)
    ensures Scan(Quoted(argument) + rest, Unquoted, None, words) == Scan(rest, Unquoted, Some(argument), words)
  {
    assert Quoted(argument) + rest == "'" + (Escaped(argument) + ("'" + rest));
    OpenQuote(Escaped(argument) + ("'" + rest), None, words);
    ScanEscaped(argument, "'" + rest, "", words);
    assert "" + argument == argument;
    CloseQuote(rest, argument, words);
  }

  lemma ScanSpace(rest: string, w: string, words: seq<string>)
    ensures Scan(" " + rest, Unquoted, Some(w), words) == Scan(rest, Unquoted, None, words + [w])
  {
    assert (" " + rest)[1..] == rest;
  }

  lemma {:induction false} ScanJoined(argv: seq<string>, words: seq<string>)
    requires argv != []
    ensures Scan(JoinWithSpaces(QuotedAll(argv)), Unquoted, None, words) == Some(words + argv)
  {
    var parts := QuotedAll(argv);
    assert parts[1..] == QuotedAll(argv[1..]);
    assert argv == [argv[0]] + argv[1..];
    if |argv| == 1 {
      assert Quoted(argv[0]) + "" == Quoted(argv[0]) && argv == [argv[0]];
      ScanQuoted(argv[0], "", words);
    } else {
      var rest := JoinWithSpaces(parts[1..]);
      assert JoinWithSpaces(parts) == Quoted(argv[0]) + (" " + rest);
      ScanQuoted(argv[0], " " + rest, words);
      ScanSpace(rest, argv[0], words);
      ScanJoined(argv[1..], words + [argv[0]]);
      assert words + [argv[0]] + argv[1..] == words + argv;
    }
  }

  predicate NulFree(argv: seq<string>) {
    forall i :: 0 <= i < |argv| ==> NUL !in argv[i]
  }

  lemma {:induction false} EscapedNul(argument: string)
    ensures NUL in Escaped(argument) <==> NUL in argument
  {
    if argument == "" {
    } else {
      EscapedNul(argument[1..]);
      assert argument == [argument[0]] + argument[1..];
      assert NUL !in ESCAPED_QUOTE;
    }
  }

  lemma QuotedNul(argument: string)
    ensures NUL in Quoted(argument) <==> NUL in argument
  {
    EscapedNul(argument);
  }

  lemma {:induction false} JoinedNul(argv: seq<string>)
    ensures NUL in JoinWithSpaces(QuotedAll(argv)) <==> !NulFree(argv)
  {
    if argv == [] {
    } else {
      var parts := QuotedAll(argv);
      assert parts[1..] == QuotedAll(argv[1..]);
      QuotedNul(argv[0]);
      JoinedNul(argv[1..]);
      assert NulFree(argv) <==> NUL !in argv[0] && NulFree(argv[1..]) by {
        assert argv == [argv[0]] + argv[1..];
        assert forall i :: 0 <= i < |argv[1..]| ==> argv[1..][i] == argv[i + 1];
      }
      if |argv| == 1 { assert NulFree(argv[1..]); }
    }
  }

  /** The round trip: a shell reads the line back as exactly the arguments, including empty
      ones, quotes, spaces and newlines, exactly when no argument holds a NUL. */
  lemma QuotingRoundTrip(argv: seq<string>)
    ensures Tokenize(JoinWithSpaces(QuotedAll(argv))) == if NulFree(argv) then Some(argv) else None
  {
    JoinedNul(argv);
    if argv == [] {
      assert QuotedAll(argv) == [];
    } else {
      ScanJoined(argv, []);
      assert [] + argv == argv;
    }
  }

  /** So no two argument lists are sent as the same line. */
  lemma QuotingInjective(a: seq<string>, b: seq<string>)
    requires NulFree(a) && NulFree(b)
    requires JoinWithSpaces(QuotedAll(a)) == JoinWithSpaces(QuotedAll(b))
    ensures a == b
  {
    QuotingRoundTrip(a);
    QuotingRoundTrip(b);
  }

  // ----- bounded output -----

  /** What a buffer with a limit keeps of everything written to it. */
  function Kept(written: seq<u8>, limit: int): seq<u8> {
    if limit < 0 then [] else written[..Min(limit, |written|)]
  }

  /** It keeps the beginning: all of it when it fits, and as much as fits otherwise. */
  lemma KeptIsBeginning(written: seq<u8>, limit: int)
    ensures Kept(written, limit) <= written && |Kept(written, limit)| <= Max(limit, 0)
    ensures |written| <= limit ==> Kept(written, limit) == written
    ensures |written| > limit >= 0 ==> |Kept(written, limit)| == limit
  {
  }

  class BoundedBuffer {
    var buffer: seq<u8>
    const limit: int
    var exceeded: bool
    /** Everything written so far, and how often. */
    ghost var written: seq<u8>
    ghost var writes: nat

    ghost predicate Valid()
      reads this
    {
      && buffer == Kept(written, limit)
      && (exceeded <==> |written| > limit && writes > 0)
      && (writes == 0 ==> written == [])
    }

    constructor (limit: int)
      ensures Valid() && this.limit == limit && written == [] && writes == 0
    {
      this.limit := limit;
      buffer, exceeded, written, writes := [], false, [], 0;
    }

    /** Keeps what fits; the writer is always told that everything was written. */
    method Write(data: seq<u8>) returns (n: nat)
      requires Valid()
      modifies this
      ensures Valid() && n == |data|
      ensures written == old(written) + data && writes == old(writes) + 1
    {
      written, writes := written + data, writes + 1;
      if |buffer| + |data| > limit {
        var remaining := limit - |buffer|;
        if remaining > 0 {
          buffer := buffer + data[..remaining];
        }
        exceeded := true;
        return |data|;
      }
      buffer := buffer + data;
      return |data|;
    }
  }
}
