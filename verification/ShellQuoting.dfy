/** The copy-ready command lines that quickstart and plan print, and how a POSIX
    shell reads them: IEEE Std 1003.1, Shell Command Language, sections 2.2 and 2.3. */
module ShellQuoting {
  import opened Text

  // ---- Quoting ----

  const QUOTED_APOSTROPHE := "'\"'\"'"

  /** strings.ReplaceAll(value, "'", replacement). */
  function ReplaceApostrophes(value: string, replacement: string): string {
    if value == "" then ""
    else (if value[0] == '\'' then replacement else [value[0]]) + ReplaceApostrophes(value[1..], replacement)
  }

  function QuoteCommandPath(value: string, platform: string): string {
    if platform == "windows" then "'" + ReplaceApostrophes(value, "''") + "'"
    else "'" + ReplaceApostrophes(value, QUOTED_APOSTROPHE) + "'"
  }

  /** strings.Join(words, " "). */
  function JoinWithSpaces(words: seq<string>): string {
    if words == [] then ""
    else if |words| == 1 then words[0]
    else words[0] + " " + JoinWithSpaces(words[1..])
  }

  function QuotedAll(arguments: seq<string>, platform: string): seq<string> {
    seq(|arguments|, i requires 0 <= i < |arguments| => QuoteCommandPath(arguments[i], platform))
  }

  // ---- Reading ----

  datatype Mode = Plain | InSingle | InDouble

  /** Characters that end a word or need more than quoting to read: operators,
      the newline token and expansions.  A line that uses one is not read here. */
  predicate IsSpecial(c: char) {
    || c == '\n' || c == '|' || c == '&' || c == ';' || c == '<' || c == '>' || c == '(' || c == ')'
    || c == '$' || c == '`'
  }

  predicate EscapedInDouble(c: char) {
    c == '$' || c == '`' || c == '"' || c == '\\'
  }

  function Finish(words: seq<string>, word: Option<string>): seq<string> {
    if word.Some? then words + [word.value] else words
  }

  function Add(word: Option<string>, text: string): Option<string> {
    Some((if word.Some? then word.value else "") + text)
  }

  /** The words of a simple command line; None when a quote is left open or the
      line uses an operator, an expansion or a comment. */
  function Lex(line: string, mode: Mode, word: Option<string>, words: seq<string>): Option<seq<string>>
    decreases |line|
  {
    if line == "" then
      if mode.Plain? then Some(Finish(words, word)) else None
    else
      var c, rest := line[0], line[1..];
      match mode
      case InSingle =>
        // Section 2.2.2: every character up to the closing quote stands for itself.
        if c == '\'' then Lex(rest, Plain, word, words) else Lex(rest, InSingle, Add(word, [c]), words)
      case InDouble =>
        // Section 2.2.3: a backslash escapes only $ ` " \ and the newline.
        if c == '"' then Lex(rest, Plain, word, words)
        else if c == '$' || c == '`' then None
        else if c == '\\' && rest != "" && rest[0] == '\n' then Lex(rest[1..], InDouble, word, words)
        else if c == '\\' && rest != "" && EscapedInDouble(rest[0]) then
          Lex(rest[1..], InDouble, Add(word, [rest[0]]), words)
        else Lex(rest, InDouble, Add(word, [c]), words)
      case Plain =>
        // Section 2.3: blanks delimit words, quotes start or continue one.
        if c == ' ' || c == '\t' then Lex(rest, Plain, None, Finish(words, word))
        else if c == '\'' then Lex(rest, InSingle, Add(word, ""), words)
        else if c == '"' then Lex(rest, InDouble, Add(word, ""), words)
        else if IsSpecial(c) || (c == '#' && word.None?) then None
        else if c == '\\' then
          if rest == "" then None
          else if rest[0] == '\n' then Lex(rest[1..], Plain, word, words)
          else Lex(rest[1..], Plain, Add(word, [rest[0]]), words)
        else Lex(rest, Plain, Add(word, [c]), words)
  }

  function ShellWords(line: string): Option<seq<string>> {
    Lex(line, Plain, None, [])
  }

  // ---- The round trip ----

  /** Five characters close the quote, add an apostrophe and open it again. */
  lemma ApostropheReads(so: string, rest: string, words: seq<string>)
    ensures Lex(QUOTED_APOSTROPHE + rest, InSingle, Some(so), words) == Lex(rest, InSingle, Some(so + "'"), words)
  {
    var line := QUOTED_APOSTROPHE + rest;
    assert line[1..][1..][1..][1..][1..] == rest;
    assert line[1..][0] == '"' && line[2..][0] == '\'' && line[3..][0] == '"' && line[4..][0] == '\'';
    calc {
      Lex(line, InSingle, Some(so), words);
      Lex(line[1..], Plain, Some(so), words);
      { assert so + "" == so; }
      Lex(line[1..][1..], InDouble, Some(so), words);
      Lex(line[1..][1..][1..], InDouble, Some(so + "'"), words);
      Lex(line[1..][1..][1..][1..], Plain, Some(so + "'"), words);
      { assert so + "'" + "" == so + "'"; }
      Lex(rest, InSingle, Some(so + "'"), words);
    }
  }

  lemma {:induction false} InsideReads(value: string, so: string, rest: string, words: seq<string>)
    ensures Lex(ReplaceApostrophes(value, QUOTED_APOSTROPHE) + "'" + rest, InSingle, Some(so), words)
         == Lex(rest, Plain, Some(so + value), words)
    decreases |value|
  {
    var line := ReplaceApostrophes(value, QUOTED_APOSTROPHE) + "'" + rest;
    if value == "" {
      assert line == "'" + rest && line[1..] == rest && so + value == so;
    } else {
      var tail := ReplaceApostrophes(value[1..], QUOTED_APOSTROPHE) + "'" + rest;
      InsideReads(value[1..], so + [value[0]], rest, words);
      assert so + [value[0]] + value[1..] == so + value;
      if value[0] == '\'' {
        assert line == QUOTED_APOSTROPHE + tail;
        ApostropheReads(so, tail, words);
      } else {
        assert line == [value[0]] + tail && line[1..] == tail;
      }
    }
  }

  lemma QuotedReads(value: string, platform: string, rest: string, words: seq<string>)
    requires platform != "windows"
    ensures Lex(QuoteCommandPath(value, platform) + rest, Plain, None, words) == Lex(rest, Plain, Some(value), words)
  {
    var inside := ReplaceApostrophes(value, QUOTED_APOSTROPHE) + "'" + rest;
    var line := QuoteCommandPath(value, platform) + rest;
    assert line == "'" + inside && line[1..] == inside;
    InsideReads(value, "", rest, words);
    var nothing: string := "";
    assert nothing + nothing == nothing && nothing + value == value;
    assert Lex(line, Plain, None, words) == Lex(inside, InSingle, Some(nothing), words);
  }

  lemma {:induction false} JoinedReads(arguments: seq<string>, platform: string, words: seq<string>)
    requires platform != "windows"
    ensures Lex(JoinWithSpaces(QuotedAll(arguments, platform)), Plain, None, words) == Some(words + arguments)
    decreases |arguments|
  {
    var quoted := QuotedAll(arguments, platform);
    if arguments == [] {
      assert words + arguments == words;
    } else if |arguments| == 1 {
      QuotedReads(arguments[0], platform, "", words);
      assert quoted[0] + "" == quoted[0] && words + arguments == words + [arguments[0]];
    } else {
      var rest := JoinWithSpaces(quoted[1..]);
      assert quoted[1..] == QuotedAll(arguments[1..], platform);
      assert JoinWithSpaces(quoted) == quoted[0] + (" " + rest) && (" " + rest)[1..] == rest;
      QuotedReads(arguments[0], platform, " " + rest, words);
      JoinedReads(arguments[1..], platform, words + [arguments[0]]);
      assert words + [arguments[0]] + arguments[1..] == words + arguments;
    }
  }

  /** Whatever the arguments hold, a POSIX shell reads the printed line as
      exactly those arguments. */
  lemma PrintedLineReadsBack(arguments: seq<string>, platform: string)
    requires platform != "windows"
    ensures ShellWords(JoinWithSpaces(QuotedAll(arguments, platform))) == Some(arguments)
  {
    JoinedReads(arguments, platform, []);
    assert [] + arguments == arguments;
  }

  method QuoteArgumentVector(arguments: seq<string>, platform: string) returns (line: string)
    ensures line == JoinWithSpaces(QuotedAll(arguments, platform))
    ensures platform != "windows" ==> ShellWords(line) == Some(arguments)
  {
    var quoted := new string[|arguments|];
    for index := 0 to |arguments|
      invariant quoted[..index] == QuotedAll(arguments, platform)[..index]
    {
      quoted[index] := QuoteCommandPath(arguments[index], platform);
    }
    assert quoted[..] == quoted[..|arguments|] == QuotedAll(arguments, platform);
    line := JoinWithSpaces(quoted[..]);
    if platform != "windows" {
      PrintedLineReadsBack(arguments, platform);
    }
  }
}
