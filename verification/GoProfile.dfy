/** Rows of a Go coverage profile: `file:sl.sc,el.ec statements count`. */
module GoProfile {
  import opened Text

  datatype Span = Span(startLine: nat, startColumn: nat, endLine: nat, endColumn: nat)

  datatype Row = Row(file: string, span: Span, statements: nat, count: nat)

  // ---- Decimal numbers ----

  /** The zeros of some scripts; the other nine digits of each follow its zero. */
  datatype Scripts = Scripts(zeros: seq<int>)

  /** The decimal digits beyond ASCII (Unicode 15.0, category Nd). */
  const OTHER_SCRIPTS := Scripts([
    0x660, 0x6F0, 0x7C0, 0x966, 0x9E6, 0xA66, 0xAE6, 0xB66, 0xBE6, 0xC66, 0xCE6, 0xD66, 0xDE6, 0xE50, 0xED0,
    0xF20, 0x1040, 0x1090, 0x17E0, 0x1810, 0x1946, 0x19D0, 0x1A80, 0x1A90, 0x1B50, 0x1BB0, 0x1C40, 0x1C50,
    0xA620, 0xA8D0, 0xA900, 0xA9D0, 0xA9F0, 0xAA50, 0xABF0, 0xFF10, 0x104A0, 0x10D30, 0x11066, 0x110F0, 0x11136,
    0x111D0, 0x112F0, 0x11450, 0x114D0, 0x11650, 0x116C0, 0x11730, 0x118E0, 0x11950, 0x11C50, 0x11D50, 0x11DA0,
    0x11F50, 0x16A60, 0x16AC0, 0x16B50, 0x1D7CE, 0x1D7D8, 0x1D7E2, 0x1D7EC, 0x1D7F6, 0x1E140, 0x1E2F0, 0x1E4F0,
    0x1E950, 0x1FBF0
  ])

  function DigitFrom(zeros: seq<int>, c: char): (d: Option<nat>)
    ensures d.Some? ==> d.value < 10
  {
    if zeros == [] then None
    else if zeros[0] <= c as int < zeros[0] + 10 then Some(c as int - zeros[0])
    else DigitFrom(zeros[1..], c)
  }

  /** What the pattern's digits are, and what `int` makes of each. */
  function Digit(c: char): (d: Option<nat>)
    ensures d.Some? ==> d.value < 10
    ensures c < '\U{80}' ==> d == if '0' <= c <= '9' then Some(c as int - '0' as int) else None
  {
    if c < '\U{80}' then
      if '0' <= c <= '9' then Some(c as int - '0' as int) else None
    else DigitFrom(OTHER_SCRIPTS.zeros, c)
  }

  predicate IsDigit(c: char) {
    Digit(c).Some?
  }

  function Decimal(n: nat): string {
    if n < 10 then [('0' as int + n) as char] else Decimal(n / 10) + [('0' as int + n % 10) as char]
  }

  function Value(digits: string): nat
    requires forall c :: c in digits ==> IsDigit(c)
  {
    if digits == "" then 0
    else
      var last := digits[|digits| - 1];
      assert last in digits && IsDigit(last);
      10 * Value(digits[..|digits| - 1]) + Digit(last).value
  }

  lemma {:induction false} DecimalReadsBack(n: nat)
    ensures Decimal(n) != "" && forall c :: c in Decimal(n) ==> IsDigit(c)
    ensures Value(Decimal(n)) == n
  {
    if n < 10 {
      assert Decimal(n)[..0] == "";
    } else {
      DecimalReadsBack(n / 10);
      var front := Decimal(n / 10);
      assert Decimal(n)[..|front|] == front;
    }
  }

  function DigitsIn(s: string): (n: nat)
    ensures n <= |s| && (forall c :: c in s[..n] ==> IsDigit(c)) && (n < |s| ==> !IsDigit(s[n]))
  {
    if s == "" || !IsDigit(s[0]) then 0
    else
      var n := DigitsIn(s[1..]);
      assert s[..n + 1] == [s[0]] + s[1..][..n];
      n + 1
  }

  // ---- The numeric tail ----

  function RenderNumbers(numbers: seq<nat>, separators: string): string
    requires |numbers| == |separators| + 1
  {
    if separators == "" then Decimal(numbers[0])
    else Decimal(numbers[0]) + [separators[0]] + RenderNumbers(numbers[1..], separators[1..])
  }

  function ParseNumbers(s: string, separators: string): (r: Option<seq<nat>>)
    ensures r.Some? ==> |r.value| == |separators| + 1
    decreases |separators|
  {
    var n := DigitsIn(s);
    if n == 0 then None
    else if separators == "" then
      if n == |s| then Some([Value(s[..n])]) else None
    else if n == |s| || s[n] != separators[0] then None
    else
      match ParseNumbers(s[n + 1..], separators[1..])
      case None => None
      case Some(rest) => Some([Value(s[..n])] + rest)
  }

  predicate IsSeparator(c: char) {
    c == '.' || c == ',' || c == ' '
  }

  lemma {:induction false} NumbersReadBack(numbers: seq<nat>, separators: string)
    requires |numbers| == |separators| + 1 && forall c :: c in separators ==> IsSeparator(c)
    ensures ParseNumbers(RenderNumbers(numbers, separators), separators) == Some(numbers)
    decreases |separators|
  {
    if separators == "" {
      LastNumberReadsBack(numbers[0]);
      assert numbers == [numbers[0]];
    } else {
      assert separators[0] in separators && forall c :: c in separators[1..] ==> c in separators;
      NumbersReadBack(numbers[1..], separators[1..]);
      NextNumberReadsBack(numbers[0], separators, RenderNumbers(numbers[1..], separators[1..]));
      assert numbers == [numbers[0]] + numbers[1..];
    }
  }

  lemma {:induction false} NumbersHaveNoColon(numbers: seq<nat>, separators: string)
    requires |numbers| == |separators| + 1 && forall c :: c in separators ==> IsSeparator(c)
    ensures ':' !in RenderNumbers(numbers, separators)
    decreases |separators|
  {
    DecimalReadsBack(numbers[0]);
    assert !IsDigit(':');
    if separators != "" {
      assert separators[0] in separators && forall c :: c in separators[1..] ==> c in separators;
      NumbersHaveNoColon(numbers[1..], separators[1..]);
    }
  }

  lemma LastNumberReadsBack(n: nat)
    ensures ParseNumbers(Decimal(n), "") == Some([n])
  {
    DecimalReadsBack(n);
    LastNumberIsParsed(Decimal(n));
  }

  lemma NextNumberReadsBack(n: nat, separators: string, rest: string)
    requires separators != "" && IsSeparator(separators[0])
    ensures ParseNumbers(Decimal(n) + [separators[0]] + rest, separators) == WithFirst(n, ParseNumbers(rest, separators[1..]))
  {
    DecimalReadsBack(n);
    NextNumberIsParsed(Decimal(n), separators, rest);
  }

  predicate AllDigits(s: string) {
    s != "" && forall c :: c in s ==> IsDigit(c)
  }

  function WithFirst(n: nat, rest: Option<seq<nat>>): Option<seq<nat>> {
    if rest.None? then None else Some([n] + rest.value)
  }

  lemma LastNumberIsParsed(head: string)
    requires AllDigits(head)
    ensures ParseNumbers(head, "") == Some([Value(head)])
  {
    DigitsEndAt(head, "");
    assert head + "" == head && head[..|head|] == head;
  }

  lemma NextNumberIsParsed(head: string, separators: string, rest: string)
    requires AllDigits(head) && separators != "" && IsSeparator(separators[0])
    ensures ParseNumbers(head + [separators[0]] + rest, separators) == WithFirst(Value(head), ParseNumbers(rest, separators[1..]))
  {
    var s := head + [separators[0]] + rest;
    assert s == head + ([separators[0]] + rest);
    DigitsEndAt(head, [separators[0]] + rest);
    assert s[..|head|] == head && s[|head| + 1..] == rest;
  }

  lemma {:induction false} DigitsEndAt(digits: string, rest: string)
    requires (forall c :: c in digits ==> IsDigit(c)) && (rest != "" ==> !IsDigit(rest[0]))
    ensures DigitsIn(digits + rest) == |digits|
  {
    if digits == "" {
      assert digits + rest == rest;
    } else {
      DigitsEndAt(digits[1..], rest);
      assert (digits + rest)[1..] == digits[1..] + rest;
    }
  }

  // ---- Rows ----

  datatype Layout = Layout(separators: string)

  /** What stands between the six numbers of a row. */
  const ROW := Layout(".,.  ")

  function LastColon(line: string): (i: nat)
    ensures i <= |line| && (i < |line| ==> line[i] == ':' && ':' !in line[i + 1..]) && (i == |line| ==> ':' !in line)
  {
    if line == "" then 0
    else
      var i := LastColon(line[1..]);
      if i < |line| - 1 then
        assert line[1..][i + 1..] == line[i + 2..];
        i + 1
      else if line[0] == ':' then 0
      else |line|
  }

  function NumbersOf(row: Row): seq<nat> {
    [row.span.startLine, row.span.startColumn, row.span.endLine, row.span.endColumn, row.statements, row.count]
  }

  function FormatRow(row: Row): string {
    row.file + ":" + RenderNumbers(NumbersOf(row), ROW.separators)
  }

  /** PROFILE_RE.fullmatch, and the numbers of its groups. */
  function ParseRow(line: string): Option<Row> {
    var colon := LastColon(line);
    if colon == |line| || colon == 0 then None
    else
      match ParseNumbers(line[colon + 1..], ROW.separators)
      case None => None
      case Some(n) => Some(Row(line[..colon], Span(n[0], n[1], n[2], n[3]), n[4], n[5]))
  }

  lemma {:induction false} LastColonIs(file: string, rest: string)
    requires rest != "" && rest[0] == ':' && ':' !in rest[1..]
    ensures LastColon(file + rest) == |file|
    decreases |file|
  {
    if file == "" {
      assert file + rest == rest;
    } else {
      LastColonIs(file[1..], rest);
      assert (file + rest)[1..] == file[1..] + rest;
    }
  }

  lemma LastColonAfter(file: string, tail: string)
    requires ':' !in tail
    ensures LastColon(file + ":" + tail) == |file|
  {
    assert file + ":" + tail == file + (":" + tail) && (":" + tail)[1..] == tail;
    LastColonIs(file, ":" + tail);
  }

  lemma ColonSplits(file: string, tail: string)
    ensures var line := file + ":" + tail;
            |file| < |line| && line[..|file|] == file && line[|file| + 1..] == tail
  {
  }

  lemma TailReadsBack(file: string, numbers: seq<nat>, separators: string)
    requires |numbers| == |separators| + 1 && forall c :: c in separators ==> IsSeparator(c)
    ensures var line := file + ":" + RenderNumbers(numbers, separators);
            && LastColon(line) == |file| < |line| && line[..|file|] == file
            && ParseNumbers(line[|file| + 1..], separators) == Some(numbers)
  {
    NumbersReadBack(numbers, separators);
    NumbersHaveNoColon(numbers, separators);
    LastColonAfter(file, RenderNumbers(numbers, separators));
    ColonSplits(file, RenderNumbers(numbers, separators));
  }

  lemma SeparatorsSeparate()
    ensures |ROW.separators| == 5 && forall c :: c in ROW.separators ==> IsSeparator(c)
  {
  }

  lemma RowsReadBack(row: Row)
    ensures ParseRow(FormatRow(row)) == if row.file == "" then None else Some(row)
  {
    SeparatorsSeparate();
    TailReadsBack(row.file, NumbersOf(row), ROW.separators);
  }

  // ---- Exactly which lines are rows ----

  /** A number may be spelled in many ways: leading zeros, any script's digits. */
  ghost predicate Spells(text: string, number: nat) {
    AllDigits(text) && Value(text) == number
  }

  /** The text is the numbers, spelled somehow, with the separators between them. */
  ghost predicate SpellsAll(s: string, separators: string, numbers: seq<nat>)
    decreases |separators|
  {
    && |numbers| == |separators| + 1
    && if separators == "" then Spells(s, numbers[0])
       else exists n :: SpellsFirst(s, n, separators[0], numbers[0]) && SpellsAll(s[n + 1..], separators[1..], numbers[1..])
  }

  ghost predicate SpellsFirst(s: string, n: int, separator: char, number: nat) {
    0 < n < |s| && s[n] == separator && Spells(s[..n], number)
  }

  lemma ParsedSplits(s: string, separators: string) returns (n: nat)
    requires ParseNumbers(s, separators).Some?
    ensures n <= |s| && AllDigits(s[..n])
    ensures separators == "" ==> s[..n] == s && ParseNumbers(s, separators) == Some([Value(s)])
    ensures separators != "" ==>
              && n < |s| && s[n] == separators[0] && ParseNumbers(s[n + 1..], separators[1..]).Some?
              && ParseNumbers(s, separators) == WithFirst(Value(s[..n]), ParseNumbers(s[n + 1..], separators[1..]))
  {
    n := DigitsIn(s);
    if n == |s| {
      assert s[..n] == s;
    }
  }

  lemma SpellsMore(s: string, n: int, separators: string, first: nat, rest: seq<nat>)
    requires separators != "" && SpellsFirst(s, n, separators[0], first) && SpellsAll(s[n + 1..], separators[1..], rest)
    ensures SpellsAll(s, separators, [first] + rest)
  {
    var numbers := [first] + rest;
    assert numbers[1..] == rest && numbers[0] == first;
  }

  lemma {:induction false} ParsedNumbersAreSpelled(s: string, separators: string)
    requires ParseNumbers(s, separators).Some?
    ensures SpellsAll(s, separators, ParseNumbers(s, separators).value)
    decreases |separators|
  {
    var n := ParsedSplits(s, separators);
    if separators == "" {
      assert s[..n] == s && Spells(s, Value(s));
    } else {
      ParsedNumbersAreSpelled(s[n + 1..], separators[1..]);
      SpellsMore(s, n, separators, Value(s[..n]), ParseNumbers(s[n + 1..], separators[1..]).value);
    }
  }

  lemma SpelledFirstIsParsed(s: string, n: nat, separators: string, numbers: seq<nat>)
    requires separators != "" && IsSeparator(separators[0]) && |numbers| == |separators| + 1
    requires SpellsFirst(s, n, separators[0], numbers[0])
    requires ParseNumbers(s[n + 1..], separators[1..]) == Some(numbers[1..]) && ':' !in s[n + 1..]
    ensures ParseNumbers(s, separators) == Some([numbers[0]] + numbers[1..]) && ':' !in s
  {
    var head, rest := s[..n], s[n + 1..];
    NextNumberIsParsed(head, separators, rest);
    NoColonInDigits(head);
    assert s == head + [separators[0]] + rest;
  }

  lemma {:induction false} SpelledNumbersAreParsed(s: string, separators: string, numbers: seq<nat>)
    requires SpellsAll(s, separators, numbers) && forall c :: c in separators ==> IsSeparator(c)
    ensures ParseNumbers(s, separators) == Some(numbers) && ':' !in s
    decreases |separators|
  {
    if separators == "" {
      LastNumberIsParsed(s);
      NoColonInDigits(s);
      assert numbers == [numbers[0]];
    } else {
      var n :| SpellsFirst(s, n, separators[0], numbers[0]) && SpellsAll(s[n + 1..], separators[1..], numbers[1..]);
      assert separators[0] in separators && forall c :: c in separators[1..] ==> c in separators;
      SpelledNumbersAreParsed(s[n + 1..], separators[1..], numbers[1..]);
      SpelledFirstIsParsed(s, n, separators, numbers);
      assert numbers == [numbers[0]] + numbers[1..];
    }
  }

  lemma NoColonInDigits(text: string)
    requires AllDigits(text)
    ensures ':' !in text
  {
    assert !IsDigit(':');
  }

  /** A row: a file name, a colon, and its six numbers between the separators. */
  ghost predicate IsRow(line: string, row: Row) {
    row.file != "" && exists tail :: line == row.file + ":" + tail && SpellsAll(tail, ROW.separators, NumbersOf(row))
  }

  lemma AtColon(line: string, colon: nat)
    requires colon < |line| && line[colon] == ':'
    ensures line == line[..colon] + ":" + line[colon + 1..]
  {
  }

  lemma RowSplits(line: string) returns (colon: nat, numbers: seq<nat>)
    requires ParseRow(line).Some?
    ensures 0 < colon < |line| && line == line[..colon] + ":" + line[colon + 1..]
    ensures ParseNumbers(line[colon + 1..], ROW.separators) == Some(numbers)
    ensures NumbersOf(ParseRow(line).value) == numbers && ParseRow(line).value.file == line[..colon]
  {
    colon := LastColon(line);
    AtColon(line, colon);
    SeparatorsSeparate();
    numbers := ParseNumbers(line[colon + 1..], ROW.separators).value;
    SixNumbers(numbers, ParseRow(line).value);
  }

  lemma ParsedRowIsRow(line: string, row: Row)
    requires ParseRow(line) == Some(row)
    ensures IsRow(line, row)
  {
    var colon, numbers := RowSplits(line);
    ParsedNumbersAreSpelled(line[colon + 1..], ROW.separators);
    IsRowWith(line, row, line[colon + 1..], numbers);
  }

  lemma IsRowWith(line: string, row: Row, tail: string, numbers: seq<nat>)
    requires line == row.file + ":" + tail && row.file != "" && NumbersOf(row) == numbers
    requires SpellsAll(tail, ROW.separators, numbers)
    ensures IsRow(line, row)
  {
  }

  lemma RowIsParsed(line: string, row: Row)
    requires IsRow(line, row)
    ensures ParseRow(line) == Some(row)
  {
    SeparatorsSeparate();
    var tail :| line == row.file + ":" + tail && SpellsAll(tail, ROW.separators, NumbersOf(row));
    SpelledNumbersAreParsed(tail, ROW.separators, NumbersOf(row));
    LastColonAfter(row.file, tail);
    ColonSplits(row.file, tail);
  }

  /** The pattern takes exactly the rows, and reads them as what they say. */
  lemma ParsesExactlyRows(line: string, row: Row)
    ensures ParseRow(line) == Some(row) <==> IsRow(line, row)
  {
    if ParseRow(line) == Some(row) {
      ParsedRowIsRow(line, row);
    }
    if IsRow(line, row) {
      RowIsParsed(line, row);
    }
  }

  lemma SixNumbers(n: seq<nat>, row: Row)
    requires |n| == 6 && row.span == Span(n[0], n[1], n[2], n[3]) && row.statements == n[4] && row.count == n[5]
    ensures n == NumbersOf(row)
  {
  }

  // ---- Sums over sets of blocks ----

  /** A source block; `statements` is part of what identifies it to the gate. */
  datatype Block = Block(file: string, span: Span, statements: nat)

  ghost function Total(blocks: set<Block>): nat {
    if blocks == {} then 0
    else
      var b :| b in blocks;
      Total(blocks - {b}) + b.statements
  }

  lemma {:induction false} TotalWithout(blocks: set<Block>, b: Block)
    requires b in blocks
    ensures Total(blocks) == Total(blocks - {b}) + b.statements
    decreases |blocks|
  {
    var c :| c in blocks && Total(blocks) == Total(blocks - {c}) + c.statements;
    if c != b {
      TotalWithout(blocks - {c}, b);
      TotalWithout(blocks - {b}, c);
      assert blocks - {c} - {b} == blocks - {b} - {c};
    }
  }

  lemma TotalWith(blocks: set<Block>, b: Block)
    requires b !in blocks
    ensures Total(blocks + {b}) == Total(blocks) + b.statements
  {
    TotalWithout(blocks + {b}, b);
    assert blocks + {b} - {b} == blocks;
  }

  lemma {:induction false} TotalSplits(blocks: set<Block>, part: set<Block>)
    requires part <= blocks
    ensures Total(blocks) == Total(part) + Total(blocks - part)
    decreases |part|
  {
    if part == {} {
      assert blocks - part == blocks;
    } else {
      var b :| b in part;
      TotalSplits(blocks - {b}, part - {b});
      TotalWithout(blocks, b);
      TotalWithout(part, b);
      assert blocks - {b} - (part - {b}) == blocks - part;
    }
  }

  lemma {:induction false} TotalIsZero(blocks: set<Block>)
    ensures Total(blocks) == 0 <==> forall b :: b in blocks ==> b.statements == 0
    decreases |blocks|
  {
    if blocks != {} {
      var b :| b in blocks;
      TotalWithout(blocks, b);
      TotalIsZero(blocks - {b});
    }
  }
}
