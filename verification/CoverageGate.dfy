/** The coverage gate's reading of a Go profile: each source block once. */
module CoverageGate {
  import opened Text
  import opened GoProfile

  /** What the gate knows of the sources: the names a profile may use for each
      file, the generated files, and the package that owns each file. */
  datatype Sources = Sources(fileMap: map<string, string>, generated: set<string>, owner: map<string, string>, packages: seq<string>) {
    ghost predicate Valid() {
      forall f :: f in owner ==> owner[f] in packages
    }
  }

  function SlashesOnly(name: string): (r: string)
    ensures |r| == |name| && forall i :: 0 <= i < |name| ==> r[i] == if name[i] == '\\' then '/' else name[i]
  {
    seq(|name|, i requires 0 <= i < |name| => if name[i] == '\\' then '/' else name[i])
  }

  /** A line of nothing but white space, which the parser skips. */
  predicate Blank(line: string) {
    forall c :: c in line ==> PythonSpace(c)
  }

  predicate Reversed(span: Span) {
    span.startLine > span.endLine || (span.startLine == span.endLine && span.startColumn > span.endColumn)
  }

  datatype Reading = Invalid | Generated | Hit(block: Block, covered: bool)

  /** What one row says, apart from the other rows. */
  function ReadRow(sources: Sources, line: string): Reading {
    match ParseRow(line)
    case None => Invalid
    case Some(row) =>
      var name := SlashesOnly(row.file);
      if name !in sources.fileMap then Invalid
      else if sources.fileMap[name] in sources.generated then Generated
      else if Reversed(row.span) then Invalid
      else Hit(Block(sources.fileMap[name], row.span, row.statements), row.count > 0)
  }

  predicate HasHeader(lines: seq<string>) {
    && lines != [] && |lines[0]| >= 6 && lines[0][..6] == "mode: "
    && Strip(lines[0][6..]) in {"set", "count", "atomic"}
  }

  lemma BlankIffNothingIsLeft(line: string)
    ensures Blank(line) <==> Strip(line) == ""
  {
    var lead, trail := StripCuts(line);
    if Strip(line) == "" {
      assert line == lead + trail;
    } else {
      var i := |lead|;
      assert line[i] == Strip(line)[0] && line[i] in line;
    }
  }

  ghost predicate Padded(text: string, core: string) {
    exists lead, trail :: text == lead + core + trail && Blank(lead) && Blank(trail)
  }

  predicate IsMode(mode: string) {
    mode == "set" || mode == "count" || mode == "atomic"
  }

  lemma ModesAreSolid(mode: string)
    requires IsMode(mode)
    ensures mode != "" && !PythonSpace(mode[0]) && !PythonSpace(mode[|mode| - 1])
  {
  }

  lemma StripIffPadded(text: string, mode: string)
    requires IsMode(mode)
    ensures Strip(text) == mode <==> Padded(text, mode)
  {
    ModesAreSolid(mode);
    if Strip(text) == mode {
      var lead, trail := StripCuts(text);
      assert Blank(lead) && Blank(trail);
    }
    if Padded(text, mode) {
      var lead, trail :| text == lead + mode + trail && Blank(lead) && Blank(trail);
      StripOfPadded(lead, mode, trail);
    }
  }

  /** A header names one of the three modes, with white space around it or none. */
  lemma HeaderIff(lines: seq<string>)
    ensures HasHeader(lines) <==>
            lines != [] && exists rest, mode :: lines[0] == "mode: " + rest && IsMode(mode) && Padded(rest, mode)
  {
    if HasHeader(lines) {
      var rest := lines[0][6..];
      assert lines[0] == "mode: " + rest;
      StripIffPadded(rest, Strip(rest));
    }
    if lines != [] {
      forall rest, mode | lines[0] == "mode: " + rest && IsMode(mode) && Padded(rest, mode) ensures HasHeader(lines) {
        StripIffPadded(rest, mode);
        assert lines[0][6..] == rest && lines[0][..6] == "mode: ";
      }
    }
  }

  lemma CutFirst(a: string, b: string, c: string)
    requires a != ""
    ensures (a + b + c)[1..] == a[1..] + b + c && (a + b + c)[0] == a[0]
  {
  }

  lemma CutLast(a: string, b: string, c: string)
    requires c != ""
    ensures (a + b + c)[..|a + b + c| - 1] == a + b + c[..|c| - 1] && (a + b + c)[|a + b + c| - 1] == c[|c| - 1]
  {
  }

  lemma {:induction false} StripOfPadded(lead: string, core: string, trail: string)
    requires Blank(lead) && Blank(trail) && core != "" && !PythonSpace(core[0]) && !PythonSpace(core[|core| - 1])
    ensures Strip(lead + core + trail) == core
    decreases |lead| + |trail|
  {
    if lead != "" {
      CutFirst(lead, core, trail);
      StripOfPadded(lead[1..], core, trail);
    } else if trail != "" {
      CutLast(lead, core, trail);
      assert (lead + core + trail)[0] == core[0];
      StripOfPadded(lead, core, trail[..|trail| - 1]);
    } else {
      assert lead + core + trail == core;
    }
  }

  /** What the rows of a profile say, in order; blank lines say nothing. */
  function Readings(sources: Sources, rows: seq<string>): seq<Reading> {
    if rows == [] then []
    else
      var last := rows[|rows| - 1];
      Readings(sources, rows[..|rows| - 1]) + if Blank(last) then [] else [ReadRow(sources, last)]
  }

  /** The end is not before the start. */
  predicate InOrder(span: Span) {
    span.startLine < span.endLine || (span.startLine == span.endLine && span.startColumn <= span.endColumn)
  }

  /** The row means the block, under the names the map knows. */
  predicate Means(sources: Sources, row: Row, block: Block) {
    var name := SlashesOnly(row.file);
    && name in sources.fileMap && sources.fileMap[name] == block.file
    && block.span == row.span && block.statements == row.statements
  }

  predicate MeansHit(sources: Sources, row: Row, block: Block, covered: bool) {
    && Means(sources, row, block) && (covered <==> row.count > 0)
    && block.file !in sources.generated && InOrder(block.span)
  }

  lemma HitByRow(sources: Sources, line: string, block: Block, covered: bool)
    ensures ReadRow(sources, line) == Hit(block, covered) <==>
            ParseRow(line).Some? && MeansHit(sources, ParseRow(line).value, block, covered)
  {
  }

  /** A line is taken for a hit exactly if it is a row in order that means a
      block of a file that is not generated; a positive count covers it. */
  lemma LineIsHitIff(sources: Sources, line: string, block: Block, covered: bool)
    ensures ReadRow(sources, line) == Hit(block, covered) <==> exists row :: IsRow(line, row) && MeansHit(sources, row, block, covered)
  {
    HitByRow(sources, line, block, covered);
    LineIsRow(line);
    if row :| IsRow(line, row) && MeansHit(sources, row, block, covered) {
      ParsesExactlyRows(line, row);
    }
  }

  lemma LineIsRow(line: string)
    ensures ParseRow(line).Some? ==> IsRow(line, ParseRow(line).value)
  {
    if ParseRow(line).Some? {
      ParsesExactlyRows(line, ParseRow(line).value);
    }
  }

  /** The row names a generated file. */
  predicate NamesGenerated(sources: Sources, row: Row) {
    SlashesOnly(row.file) in sources.fileMap && sources.fileMap[SlashesOnly(row.file)] in sources.generated
  }

  lemma GeneratedByRow(sources: Sources, line: string)
    ensures ReadRow(sources, line) == Generated <==> ParseRow(line).Some? && NamesGenerated(sources, ParseRow(line).value)
  {
  }

  /** And it is left out exactly if it is a row of a generated file; every other line is invalid. */
  lemma LineIsGeneratedIff(sources: Sources, line: string)
    ensures ReadRow(sources, line) == Generated <==> exists row :: IsRow(line, row) && NamesGenerated(sources, row)
  {
    GeneratedByRow(sources, line);
    LineIsRow(line);
    if row :| IsRow(line, row) && NamesGenerated(sources, row) {
      ParsesExactlyRows(line, row);
    }
  }

  ghost function Written(rows: seq<string>): set<int> {
    set i | 0 <= i < |rows| && !Blank(rows[i])
  }

  /** Every line that is not blank is read once. */
  lemma {:induction false} WrittenLinesAreRead(sources: Sources, rows: seq<string>)
    ensures |Readings(sources, rows)| == |Written(rows)|
  {
    if rows != [] {
      var front, last := rows[..|rows| - 1], rows[|rows| - 1];
      WrittenLinesAreRead(sources, front);
      assert Written(rows) == Written(front) + if Blank(last) then {} else {|rows| - 1};
    }
  }

  // ---- The set-based meaning of a profile ----

  predicate Mentions(readings: seq<Reading>, block: Block) {
    Hit(block, true) in readings || Hit(block, false) in readings
  }

  /** Each block that a row mentions, covered if and only if some row covers it. */
  ghost predicate IsSummaryOf(readings: seq<Reading>, blocks: map<Block, bool>) {
    && (forall b :: b in blocks <==> Mentions(readings, b))
    && (forall b :: b in blocks ==> (blocks[b] <==> Hit(b, true) in readings))
  }

  /** A block's statements never change between rows. */
  ghost predicate Consistent(readings: seq<Reading>) {
    forall a, b :: Mentions(readings, a) && Mentions(readings, b) && a.file == b.file && a.span == b.span ==> a == b
  }

  ghost function CoveredIn(blocks: map<Block, bool>): set<Block> {
    set b | b in blocks && blocks[b]
  }

  ghost function OwnedBy(blocks: set<Block>, sources: Sources, package: string): set<Block> {
    set b | b in blocks && b.file in sources.owner && sources.owner[b.file] == package
  }

  datatype Count = Count(covered: nat, statements: nat)

  ghost predicate AllOwned(sources: Sources, blocks: set<Block>) {
    forall b :: b in blocks ==> b.file in sources.owner
  }

  /** Which profiles pass, given the blocks their rows mention. */
  ghost predicate Accepted(sources: Sources, lines: seq<string>, blocks: map<Block, bool>) {
    HasHeader(lines) && AcceptedRows(sources, Readings(sources, lines[1..]), blocks)
  }

  ghost predicate AcceptedRows(sources: Sources, readings: seq<Reading>, blocks: map<Block, bool>) {
    && Invalid !in readings && Consistent(readings) && IsSummaryOf(readings, blocks)
    && AllOwned(sources, blocks.Keys) && Total(blocks.Keys) > 0
  }

  datatype Sums = Sums(covered: nat, statements: nat, packages: map<string, Count>)

  /** Statements, and covered statements, of distinct blocks: in all and by package. */
  ghost function SumsOf(sources: Sources, blocks: set<Block>, covers: set<Block>): Sums {
    Sums(Total(covers), Total(blocks), CountsOf(sources, blocks, covers))
  }

  ghost function CountOf(sources: Sources, blocks: set<Block>, covers: set<Block>, p: string): Count {
    Count(Total(OwnedBy(covers, sources, p)), Total(OwnedBy(blocks, sources, p)))
  }

  datatype Report = Report(
    mode: string, raw: nat, generated: nat, unique: nat, deduplicated: nat, sums: Sums, blocks: map<Block, bool>)

  ghost predicate Summarizes(sources: Sources, lines: seq<string>, report: Report) {
    && Accepted(sources, lines, report.blocks)
    && report.mode == Strip(lines[0][6..])
    && var readings := Readings(sources, lines[1..]);
    && report.raw == |readings| && report.generated == multiset(readings)[Generated]
    && report.unique == |report.blocks| && report.raw == report.unique + report.deduplicated + report.generated
    && report.sums == SumsOf(sources, report.blocks.Keys, CoveredIn(report.blocks))
  }

  // ---- The parser ----

  ghost predicate CoordinatesOf(blocks: map<Block, bool>, coordinates: map<(string, Span), nat>) {
    && (forall b :: b in blocks ==> (b.file, b.span) in coordinates && coordinates[(b.file, b.span)] == b.statements)
    && (forall at :: at in coordinates ==> Block(at.0, at.1, coordinates[at]) in blocks)
  }

  lemma HitExtendsSummary(readings: seq<Reading>, blocks: map<Block, bool>, block: Block, covered: bool)
    requires IsSummaryOf(readings, blocks)
    ensures IsSummaryOf(readings + [Hit(block, covered)], blocks[block := covered || (block in blocks && blocks[block])])
  {
  }

  lemma HitExtendsCoordinates(blocks: map<Block, bool>, coordinates: map<(string, Span), nat>, block: Block, covered: bool)
    requires CoordinatesOf(blocks, coordinates)
    requires (block.file, block.span) in coordinates ==> coordinates[(block.file, block.span)] == block.statements
    ensures CoordinatesOf(blocks[block := covered], coordinates[(block.file, block.span) := block.statements])
    ensures |blocks[block := covered]| <= |blocks| + 1
  {
  }

  lemma CoordinatesAreConsistent(readings: seq<Reading>, blocks: map<Block, bool>, coordinates: map<(string, Span), nat>)
    requires CoordinatesOf(blocks, coordinates) && IsSummaryOf(readings, blocks)
    ensures Consistent(readings)
  {
  }

  lemma ConflictIsInconsistent(prefix: seq<Reading>, readings: seq<Reading>, blocks: map<Block, bool>,
                               coordinates: map<(string, Span), nat>, block: Block)
    requires prefix <= readings && IsSummaryOf(prefix, blocks) && CoordinatesOf(blocks, coordinates)
    requires Mentions(readings, block) && (block.file, block.span) in coordinates
    requires coordinates[(block.file, block.span)] != block.statements
    ensures !Consistent(readings)
  {
  }

  lemma {:induction false} ReadingsGrow(sources: Sources, rows: seq<string>, i: nat)
    requires i <= |rows|
    ensures Readings(sources, rows[..i]) <= Readings(sources, rows)
    decreases |rows|
  {
    if i < |rows| {
      var front := rows[..|rows| - 1];
      assert front[..i] == rows[..i];
      ReadingsGrow(sources, front, i);
    } else {
      assert rows[..i] == rows;
    }
  }

  /** What the first loop keeps: its two dictionaries against the rows so far. */
  ghost predicate Tracks(readings: seq<Reading>, blocks: map<Block, bool>, coordinates: map<(string, Span), nat>) {
    Invalid !in readings && IsSummaryOf(readings, blocks) && CoordinatesOf(blocks, coordinates)
  }

  /** And its two counters. */
  ghost predicate Counts(readings: seq<Reading>, blocks: map<Block, bool>, coordinates: map<(string, Span), nat>,
                         raw: nat, generated: nat) {
    && Tracks(readings, blocks, coordinates)
    && raw == |readings| && generated == multiset(readings)[Generated] && generated + |blocks| <= raw
  }

  lemma GeneratedCounts(readings: seq<Reading>, blocks: map<Block, bool>, coordinates: map<(string, Span), nat>,
                        raw: nat, generated: nat)
    requires Counts(readings, blocks, coordinates, raw, generated)
    ensures Counts(readings + [Generated], blocks, coordinates, raw + 1, generated + 1)
  {
  }

  /** Records one row's block, unless its statement count contradicts an earlier row. */
  method AddBlock(ghost readings: seq<Reading>, blocks: map<Block, bool>, coordinates: map<(string, Span), nat>,
                  ghost raw: nat, ghost generated: nat, block: Block, covered: bool)
    returns (ok: bool, more: map<Block, bool>, placed: map<(string, Span), nat>)
    requires Counts(readings, blocks, coordinates, raw, generated)
    ensures ok ==> Counts(readings + [Hit(block, covered)], more, placed, raw + 1, generated)
    ensures !ok ==> (block.file, block.span) in coordinates && coordinates[(block.file, block.span)] != block.statements
  {
    ok, more, placed := true, blocks, coordinates;
    var at := (block.file, block.span);
    if at in coordinates && coordinates[at] != block.statements {
      ok := false;
      return;
    }
    var covers := covered || (block in blocks && blocks[block]);
    HitExtendsSummary(readings, blocks, block, covered);
    HitExtendsCoordinates(blocks, coordinates, block, covers);
    placed := placed[at := block.statements];
    more := more[block := covers];
  }

  lemma OneMoreReading(sources: Sources, rows: seq<string>, i: nat)
    requires i < |rows|
    ensures Readings(sources, rows[..i + 1]) ==
            Readings(sources, rows[..i]) + (if Blank(rows[i]) then [] else [ReadRow(sources, rows[i])])
    ensures Readings(sources, rows[..i + 1]) <= Readings(sources, rows)
    ensures !Blank(rows[i]) ==> ReadRow(sources, rows[i]) in Readings(sources, rows)
  {
    assert rows[..i + 1][..i] == rows[..i];
    ReadingsGrow(sources, rows, i + 1);
    if !Blank(rows[i]) {
      var k := |Readings(sources, rows[..i])|;
      assert Readings(sources, rows)[k] == Readings(sources, rows[..i + 1])[k];
    }
  }

  /** What the next row says; nothing, if it is blank. */
  method ReadNext(sources: Sources, rows: seq<string>, i: nat) returns (reading: Option<Reading>)
    requires i < |rows|
    ensures Readings(sources, rows[..i + 1]) == Readings(sources, rows[..i]) + if reading.None? then [] else [reading.value]
    ensures Readings(sources, rows[..i + 1]) <= Readings(sources, rows)
    ensures reading.Some? ==> reading.value in Readings(sources, rows)
  {
    OneMoreReading(sources, rows, i);
    reading := if Blank(rows[i]) then None else Some(ReadRow(sources, rows[i]));
  }

  /** The first loop: deduplicates the rows, and fails on the first bad one. */
  method ReadRows(sources: Sources, rows: seq<string>)
    returns (ok: bool, blocks: map<Block, bool>, raw: nat, generated: nat)
    ensures var readings := Readings(sources, rows);
            && (ok <==> Invalid !in readings && Consistent(readings))
            && (ok ==> IsSummaryOf(readings, blocks) && raw == |readings| && generated == multiset(readings)[Generated])
    ensures ok ==> generated + |blocks| <= raw
  {
    var coordinates: map<(string, Span), nat> := map[];
    ok, blocks, raw, generated := true, map[], 0, 0;
    ghost var readings: seq<Reading> := [];
    for i := 0 to |rows|
      invariant ok && readings == Readings(sources, rows[..i]) && Counts(readings, blocks, coordinates, raw, generated)
    {
      var next := ReadNext(sources, rows, i);
      if next.None? {
        continue;
      }
      raw := raw + 1;
      var reading := next.value;
      if reading.Invalid? {
        return false, blocks, raw, generated;
      }
      if reading.Generated? {
        GeneratedCounts(readings, blocks, coordinates, raw - 1, generated);
        generated := generated + 1;
      } else {
        ghost var before, places := blocks, coordinates;
        ok, blocks, coordinates := AddBlock(readings, blocks, coordinates, raw - 1, generated, reading.block, reading.covered);
        if !ok {
          ConflictIsInconsistent(readings, Readings(sources, rows), before, places, reading.block);
          return;
        }
      }
      readings := readings + [reading];
    }
    assert rows[..|rows|] == rows;
    CoordinatesAreConsistent(readings, blocks, coordinates);
  }

  // ---- The sums ----

  lemma OwnedWith(blocks: set<Block>, b: Block, sources: Sources, p: string)
    requires b !in blocks && b.file in sources.owner
    ensures Total(OwnedBy(blocks + {b}, sources, p)) ==
            Total(OwnedBy(blocks, sources, p)) + if sources.owner[b.file] == p then b.statements else 0
  {
    if sources.owner[b.file] == p {
      assert OwnedBy(blocks + {b}, sources, p) == OwnedBy(blocks, sources, p) + {b};
      TotalWith(OwnedBy(blocks, sources, p), b);
    } else {
      assert OwnedBy(blocks + {b}, sources, p) == OwnedBy(blocks, sources, p);
    }
  }

  /** One more block: its statements count in all and for its package. */
  function Added(sums: Sums, block: Block, isCovered: bool, package: string): Sums
    requires package in sums.packages
  {
    Sums(sums.covered + if isCovered then block.statements else 0, sums.statements + block.statements,
         sums.packages[package := AddedCount(sums.packages[package], block, isCovered)])
  }

  function AddedCount(count: Count, block: Block, isCovered: bool): Count {
    Count(count.covered + if isCovered then block.statements else 0, count.statements + block.statements)
  }

  lemma CountWith(sources: Sources, done: set<Block>, covers: set<Block>, b: Block, isCovered: bool, p: string)
    requires covers <= done && b !in done && b.file in sources.owner
    ensures CountOf(sources, done + {b}, if isCovered then covers + {b} else covers, p)
         == if p == sources.owner[b.file] then AddedCount(CountOf(sources, done, covers, p), b, isCovered)
            else CountOf(sources, done, covers, p)
  {
    OwnedWith(done, b, sources, p);
    OwnedWith(covers, b, sources, p);
  }

  ghost function CountsOf(sources: Sources, blocks: set<Block>, covers: set<Block>): map<string, Count> {
    map p | p in sources.packages :: CountOf(sources, blocks, covers, p)
  }

  lemma CountsWith(sources: Sources, done: set<Block>, covers: set<Block>, b: Block, isCovered: bool)
    requires sources.Valid() && covers <= done && b !in done && b.file in sources.owner
    ensures var package, before := sources.owner[b.file], CountsOf(sources, done, covers);
            package in before && CountsOf(sources, done + {b}, if isCovered then covers + {b} else covers)
                              == before[package := AddedCount(before[package], b, isCovered)]
  {
    forall p | p in sources.packages
      ensures CountOf(sources, done + {b}, if isCovered then covers + {b} else covers, p)
           == if p == sources.owner[b.file] then AddedCount(CountOf(sources, done, covers, p), b, isCovered)
              else CountOf(sources, done, covers, p)
    {
      CountWith(sources, done, covers, b, isCovered, p);
    }
  }

  lemma SumsWith(sources: Sources, done: set<Block>, covers: set<Block>, b: Block, isCovered: bool)
    requires sources.Valid() && covers <= done && b !in done && b.file in sources.owner
    ensures sources.owner[b.file] in SumsOf(sources, done, covers).packages
    ensures SumsOf(sources, done + {b}, if isCovered then covers + {b} else covers)
         == Added(SumsOf(sources, done, covers), b, isCovered, sources.owner[b.file])
  {
    TotalWith(done, b);
    TotalWith(covers, b);
    CountsWith(sources, done, covers, b, isCovered);
  }

  method AddToSums(sums: Sums, block: Block, isCovered: bool, package: string) returns (more: Sums)
    requires package in sums.packages
    ensures more == Added(sums, block, isCovered, package)
  {
    if block.statements == 0 {
      assert sums.packages == sums.packages[package := sums.packages[package]];
      return sums;
    }
    var count := Count(sums.packages[package].covered, sums.packages[package].statements + block.statements);
    more := sums.(statements := sums.statements + block.statements);
    if isCovered {
      more := more.(covered := more.covered + block.statements);
      count := count.(covered := count.covered + block.statements);
    }
    more := more.(packages := more.packages[package := count]);
  }

  lemma NothingSummed(sources: Sources)
    ensures SumsOf(sources, {}, {}) == Sums(0, 0, map p | p in sources.packages :: Count(0, 0))
  {
  }

  /** The sums over the blocks that are no longer waiting. */
  ghost function SumsWithout(sources: Sources, blocks: map<Block, bool>, waiting: set<Block>): Sums {
    SumsOf(sources, blocks.Keys - waiting, CoveredIn(blocks) - waiting)
  }

  lemma NextBlock(sources: Sources, blocks: map<Block, bool>, waiting: set<Block>, b: Block)
    requires sources.Valid() && waiting <= blocks.Keys && b in waiting && b.file in sources.owner
    ensures sources.owner[b.file] in SumsWithout(sources, blocks, waiting).packages
    ensures SumsWithout(sources, blocks, waiting - {b})
         == Added(SumsWithout(sources, blocks, waiting), b, blocks[b], sources.owner[b.file])
  {
    var done, covers := blocks.Keys - waiting, CoveredIn(blocks) - waiting;
    assert blocks.Keys - (waiting - {b}) == done + {b};
    assert CoveredIn(blocks) - (waiting - {b}) == if blocks[b] then covers + {b} else covers;
    SumsWith(sources, done, covers, b, blocks[b]);
  }

  lemma NoneWaiting(sources: Sources, blocks: map<Block, bool>)
    ensures SumsWithout(sources, blocks, {}) == SumsOf(sources, blocks.Keys, CoveredIn(blocks))
    ensures SumsWithout(sources, blocks, blocks.Keys) == Sums(0, 0, map p | p in sources.packages :: Count(0, 0))
  {
    assert blocks.Keys - {} == blocks.Keys && CoveredIn(blocks) - {} == CoveredIn(blocks);
    assert blocks.Keys - blocks.Keys == {} && CoveredIn(blocks) - blocks.Keys == {};
    NothingSummed(sources);
  }

  /** The second loop: each distinct block counts once, for its file's package. */
  method SumBlocks(sources: Sources, blocks: map<Block, bool>) returns (ok: bool, sums: Sums)
    requires sources.Valid()
    ensures ok <==> AllOwned(sources, blocks.Keys)
    ensures ok ==> sums == SumsOf(sources, blocks.Keys, CoveredIn(blocks))
  {
    sums := Sums(0, 0, map p | p in sources.packages :: Count(0, 0));
    NoneWaiting(sources, blocks);
    var waiting := blocks.Keys;
    while waiting != {}
      invariant waiting <= blocks.Keys && AllOwned(sources, blocks.Keys - waiting)
      invariant sums == SumsWithout(sources, blocks, waiting)
      decreases |waiting|
    {
      var block :| block in waiting;
      if block.file !in sources.owner {
        assert block in blocks.Keys;
        return false, sums;
      }
      NextBlock(sources, blocks, waiting, block);
      sums := AddToSums(sums, block, blocks[block], sources.owner[block.file]);
      waiting := waiting - {block};
    }
    ok := true;
  }

  method ParseGoProfile(sources: Sources, lines: seq<string>) returns (report: Option<Report>)
    requires sources.Valid()
    ensures report.Some? ==> Summarizes(sources, lines, report.value)
    ensures report.None? ==> forall blocks :: !Accepted(sources, lines, blocks)
  {
    if !HasHeader(lines) {
      return None;
    }
    var ok, blocks, raw, generated := ReadRows(sources, lines[1..]);
    if !ok {
      return None;
    }
    ghost var readings := Readings(sources, lines[1..]);
    forall other | Accepted(sources, lines, other) ensures other == blocks {
      SummaryIsUnique(readings, blocks, other);
    }
    var owned, sums := SumBlocks(sources, blocks);
    if blocks == map[] || !owned || sums.statements == 0 {
      return None;
    }
    report := Some(Report(Strip(lines[0][6..]), raw, generated, |blocks|, raw - generated - |blocks|, sums, blocks));
  }

  lemma SummaryIsUnique(readings: seq<Reading>, a: map<Block, bool>, b: map<Block, bool>)
    requires IsSummaryOf(readings, a) && IsSummaryOf(readings, b)
    ensures a == b
  {
  }

  // ---- Order and repetition ----

  lemma {:induction false} ReadingsAreOfRows(sources: Sources, rows: seq<string>, r: Reading)
    ensures r in Readings(sources, rows) <==> exists line :: line in rows && !Blank(line) && ReadRow(sources, line) == r
  {
    if rows != [] {
      var front, last := rows[..|rows| - 1], rows[|rows| - 1];
      assert rows == front + [last];
      ReadingsAreOfRows(sources, front, r);
    }
  }

  lemma SameReadingsSameVerdict(sources: Sources, a: seq<Reading>, b: seq<Reading>, blocks: map<Block, bool>)
    requires forall r :: r in a <==> r in b
    ensures AcceptedRows(sources, a, blocks) <==> AcceptedRows(sources, b, blocks)
  {
  }

  /** Permuting or repeating rows changes neither the verdict nor the blocks,
      totals and package counts; only the count of raw rows. */
  lemma RowOrderNeverMatters(sources: Sources, a: seq<string>, b: seq<string>, first: Report, second: Report)
    requires HasHeader(a) && HasHeader(b) && forall line :: line in a[1..] <==> line in b[1..]
    ensures forall blocks :: Accepted(sources, a, blocks) <==> Accepted(sources, b, blocks)
    ensures Summarizes(sources, a, first) && Summarizes(sources, b, second) ==>
              first.blocks == second.blocks && first.sums == second.sums && first.unique == second.unique
  {
    var left, right := Readings(sources, a[1..]), Readings(sources, b[1..]);
    forall r ensures r in left <==> r in right {
      ReadingsAreOfRows(sources, a[1..], r);
      ReadingsAreOfRows(sources, b[1..], r);
    }
    forall blocks ensures Accepted(sources, a, blocks) <==> Accepted(sources, b, blocks) {
      SameReadingsSameVerdict(sources, left, right, blocks);
    }
    if Summarizes(sources, a, first) && Summarizes(sources, b, second) {
      assert Accepted(sources, b, first.blocks);
      SummaryIsUnique(right, first.blocks, second.blocks);
    }
  }

  // ---- Packages against the whole ----

  ghost function OwnedByAny(blocks: set<Block>, sources: Sources, packages: seq<string>): set<Block> {
    set b | b in blocks && b.file in sources.owner && sources.owner[b.file] in packages
  }

  function SumCounts(counts: map<string, Count>, packages: seq<string>): Count
    requires forall p :: p in packages ==> p in counts
  {
    if packages == [] then Count(0, 0)
    else
      var rest, count := SumCounts(counts, packages[..|packages| - 1]), counts[packages[|packages| - 1]];
      Count(rest.covered + count.covered, rest.statements + count.statements)
  }

  lemma {:induction false} PackagesPartition(sources: Sources, blocks: set<Block>, covers: set<Block>, packages: seq<string>)
    requires covers <= blocks && forall p :: p in packages ==> p in sources.packages
    requires forall i, j :: 0 <= i < j < |packages| ==> packages[i] != packages[j]
    ensures SumCounts(CountsOf(sources, blocks, covers), packages)
         == Count(Total(OwnedByAny(covers, sources, packages)), Total(OwnedByAny(blocks, sources, packages)))
    decreases |packages|
  {
    if packages == [] {
      assert OwnedByAny(covers, sources, []) == {} && OwnedByAny(blocks, sources, []) == {};
    } else {
      var front, last := packages[..|packages| - 1], packages[|packages| - 1];
      assert packages == front + [last] && last !in front;
      PackagesPartition(sources, blocks, covers, front);
      OwnedSplits(sources, blocks, front, last);
      OwnedSplits(sources, covers, front, last);
    }
  }

  lemma OwnedSplits(sources: Sources, blocks: set<Block>, front: seq<string>, last: string)
    requires last !in front
    ensures Total(OwnedByAny(blocks, sources, front + [last]))
         == Total(OwnedByAny(blocks, sources, front)) + Total(OwnedBy(blocks, sources, last))
  {
    var all, part := OwnedByAny(blocks, sources, front + [last]), OwnedByAny(blocks, sources, front);
    assert all - part == OwnedBy(blocks, sources, last);
    TotalSplits(all, part);
  }

  /** Every statement belongs to exactly one package. */
  lemma PackageCountsAddUp(sources: Sources, lines: seq<string>, report: Report)
    requires sources.Valid() && Summarizes(sources, lines, report)
    requires forall i, j :: 0 <= i < j < |sources.packages| ==> sources.packages[i] != sources.packages[j]
    ensures SumCounts(report.sums.packages, sources.packages) == Count(report.sums.covered, report.sums.statements)
  {
    var blocks, covers := report.blocks.Keys, CoveredIn(report.blocks);
    PackagesPartition(sources, blocks, covers, sources.packages);
    assert OwnedByAny(blocks, sources, sources.packages) == blocks;
    assert OwnedByAny(covers, sources, sources.packages) == covers;
  }

  // ---- The merged profile ----

  function MergedRow(block: Block, covered: bool): string {
    FormatRow(Row(block.file, block.span, block.statements, if covered then 1 else 0))
  }

  function MergedRows(order: seq<Block>, blocks: map<Block, bool>): seq<string>
    requires forall b :: b in order ==> b in blocks
  {
    if order == [] then []
    else
      var last := order[|order| - 1];
      MergedRows(order[..|order| - 1], blocks) + [MergedRow(last, blocks[last])]
  }

  /** The blocks in some order, each once; the writer sorts them. */
  ghost predicate Lists(order: seq<Block>, blocks: map<Block, bool>) {
    && (forall b :: b in order <==> b in blocks)
    && (forall i, j :: 0 <= i < j < |order| ==> order[i] != order[j])
  }

  function Hits(order: seq<Block>, blocks: map<Block, bool>): (hits: seq<Reading>)
    requires forall b :: b in order ==> b in blocks
    ensures |hits| == |order|
    ensures forall r :: r in hits <==> r.Hit? && r.block in order && r.covered == blocks[r.block]
  {
    if order == [] then []
    else
      var front, last := order[..|order| - 1], order[|order| - 1];
      assert order == front + [last];
      Hits(front, blocks) + [Hit(last, blocks[last])]
  }

  /** A profile that names the file by its relative path means that file. */
  predicate Resolves(sources: Sources, file: string) {
    file != "" && SlashesOnly(file) in sources.fileMap && sources.fileMap[SlashesOnly(file)] == file
  }

  lemma ReadRowIs(sources: Sources, line: string, row: Row)
    requires ParseRow(line) == Some(row) && !Reversed(row.span)
    ensures var name := SlashesOnly(row.file);
            ReadRow(sources, line) ==
            if name !in sources.fileMap then Invalid
            else if sources.fileMap[name] in sources.generated then Generated
            else Hit(Block(sources.fileMap[name], row.span, row.statements), row.count > 0)
  {
  }

  lemma MergedRowIsNotBlank(block: Block, covered: bool)
    ensures !Blank(MergedRow(block, covered))
  {
    var line := MergedRow(block, covered);
    assert line[|block.file|] == ':' && ':' in line;
  }

  lemma MergedRowReadsBack(sources: Sources, block: Block, covered: bool)
    requires block.file !in sources.generated && !Reversed(block.span)
    ensures !Blank(MergedRow(block, covered))
    ensures ReadRow(sources, MergedRow(block, covered)) == Hit(block, covered) <==> Resolves(sources, block.file)
  {
    var row := Row(block.file, block.span, block.statements, if covered then 1 else 0);
    MergedRowIsNotBlank(block, covered);
    RowsReadBack(row);
    if block.file != "" {
      ReadRowIs(sources, MergedRow(block, covered), row);
    }
  }

  predicate Admissible(sources: Sources, block: Block) {
    block.file !in sources.generated && !Reversed(block.span)
  }

  lemma {:induction false} AcceptedBlocksAreAdmissible(sources: Sources, rows: seq<string>, blocks: map<Block, bool>)
    requires IsSummaryOf(Readings(sources, rows), blocks)
    ensures forall b :: b in blocks ==> Admissible(sources, b)
  {
    forall b | b in blocks ensures Admissible(sources, b) {
      ReadingsAreOfRows(sources, rows, Hit(b, true));
      ReadingsAreOfRows(sources, rows, Hit(b, false));
    }
  }

  lemma {:induction false} MergedRowsReadBack(sources: Sources, order: seq<Block>, blocks: map<Block, bool>)
    requires forall b :: b in order ==> b in blocks && Admissible(sources, b)
    ensures Readings(sources, MergedRows(order, blocks)) == Hits(order, blocks) <==>
            forall b :: b in order ==> Resolves(sources, b.file)
    ensures |Readings(sources, MergedRows(order, blocks))| == |order|
    decreases |order|
  {
    if order != [] {
      var front, last := order[..|order| - 1], order[|order| - 1];
      assert order == front + [last];
      MergedRowsReadBack(sources, front, blocks);
      var reading := LastMergedRow(sources, front, last, blocks);
      SameEnds(Readings(sources, MergedRows(front, blocks)), Hits(front, blocks), reading, Hit(last, blocks[last]));
      assert (forall b :: b in order ==> Resolves(sources, b.file)) <==>
             Resolves(sources, last.file) && forall b :: b in front ==> Resolves(sources, b.file);
    }
  }

  lemma LastMergedRow(sources: Sources, front: seq<Block>, last: Block, blocks: map<Block, bool>) returns (reading: Reading)
    requires (forall b :: b in front ==> b in blocks) && last in blocks && Admissible(sources, last)
    ensures Readings(sources, MergedRows(front + [last], blocks)) == Readings(sources, MergedRows(front, blocks)) + [reading]
    ensures Hits(front + [last], blocks) == Hits(front, blocks) + [Hit(last, blocks[last])]
    ensures reading == Hit(last, blocks[last]) <==> Resolves(sources, last.file)
  {
    assert (front + [last])[..|front|] == front;
    var row := MergedRow(last, blocks[last]);
    reading := ReadRow(sources, row);
    MergedRowReadsBack(sources, last, blocks[last]);
    var rows := MergedRows(front + [last], blocks);
    assert rows == MergedRows(front, blocks) + [row];
    assert rows[..|rows| - 1] == MergedRows(front, blocks);
  }

  lemma SameEnds(a: seq<Reading>, b: seq<Reading>, x: Reading, y: Reading)
    requires |a| == |b|
    ensures a + [x] == b + [y] <==> a == b && x == y
  {
    assert (a + [x])[..|a|] == a && (b + [y])[..|b|] == b;
    assert (a + [x])[|a|] == x && (b + [y])[|b|] == y;
  }

  function MergedProfile(order: seq<Block>, blocks: map<Block, bool>): seq<string>
    requires forall b :: b in order ==> b in blocks
  {
    ["mode: set"] + MergedRows(order, blocks)
  }

  lemma MergedHasHeader(order: seq<Block>, blocks: map<Block, bool>)
    requires forall b :: b in order ==> b in blocks
    ensures HasHeader(MergedProfile(order, blocks)) && MergedProfile(order, blocks)[1..] == MergedRows(order, blocks)
    ensures Strip(MergedProfile(order, blocks)[0][6..]) == "set"
  {
  }

  lemma HitsSummarize(order: seq<Block>, blocks: map<Block, bool>)
    requires Lists(order, blocks)
    ensures IsSummaryOf(Hits(order, blocks), blocks) && Invalid !in Hits(order, blocks)
  {
  }

  /** Every row of the merged profile reads back as its own block if and only if
      every block's file resolves to itself; and then the merged profile is
      accepted with the same blocks, so with the same totals and package counts,
      and with nothing left to deduplicate. */
  lemma MergedProfileParsesBack(sources: Sources, lines: seq<string>, report: Report, order: seq<Block>)
    requires Summarizes(sources, lines, report) && Lists(order, report.blocks)
    ensures var merged := MergedProfile(order, report.blocks);
            && (Readings(sources, merged[1..]) == Hits(order, report.blocks) <==>
                forall b :: b in report.blocks ==> Resolves(sources, b.file))
            && ((forall b :: b in report.blocks ==> Resolves(sources, b.file)) ==>
                Summarizes(sources, merged, Report("set", report.unique, 0, report.unique, 0, report.sums, report.blocks)))
  {
    AcceptedBlocksAreAdmissible(sources, lines[1..], report.blocks);
    MergedRowsReadBack(sources, order, report.blocks);
    MergedHasHeader(order, report.blocks);
    if forall b :: b in report.blocks ==> Resolves(sources, b.file) {
      MergedProfileIsSummarized(sources, lines, report, order);
    }
  }

  lemma HitsAreAccepted(sources: Sources, readings: seq<Reading>, order: seq<Block>, blocks: map<Block, bool>)
    requires AcceptedRows(sources, readings, blocks) && Lists(order, blocks)
    ensures AcceptedRows(sources, Hits(order, blocks), blocks)
    ensures |Hits(order, blocks)| == |blocks| && multiset(Hits(order, blocks))[Generated] == 0
  {
    HitsSummarize(order, blocks);
    SameBlocksStayConsistent(readings, Hits(order, blocks), blocks);
    ListLength(order, blocks);
    NoneGenerated(Hits(order, blocks));
  }

  lemma MergedProfileIsSummarized(sources: Sources, lines: seq<string>, report: Report, order: seq<Block>)
    requires Summarizes(sources, lines, report) && Lists(order, report.blocks)
    requires Readings(sources, MergedRows(order, report.blocks)) == Hits(order, report.blocks)
    ensures Summarizes(sources, MergedProfile(order, report.blocks),
                       Report("set", report.unique, 0, report.unique, 0, report.sums, report.blocks))
  {
    MergedHasHeader(order, report.blocks);
    HitsAreAccepted(sources, Readings(sources, lines[1..]), order, report.blocks);
  }

  lemma SameBlocksStayConsistent(a: seq<Reading>, b: seq<Reading>, blocks: map<Block, bool>)
    requires IsSummaryOf(a, blocks) && IsSummaryOf(b, blocks) && Consistent(a)
    ensures Consistent(b)
  {
  }

  lemma NoneGenerated(readings: seq<Reading>)
    requires Generated !in readings
    ensures multiset(readings)[Generated] == 0
  {
  }

  lemma {:induction false} DistinctCount<T>(order: seq<T>)
    requires forall i, j :: 0 <= i < j < |order| ==> order[i] != order[j]
    ensures |set x | x in order| == |order|
  {
    if order != [] {
      var front, last := order[..|order| - 1], order[|order| - 1];
      assert order == front + [last] && last !in front;
      DistinctCount(front);
      var before := set x | x in front;
      assert last !in before && |before| == |front|;
      assert (set x | x in order) == before + {last};
    }
  }

  lemma ListLength(order: seq<Block>, blocks: map<Block, bool>)
    requires Lists(order, blocks)
    ensures |order| == |blocks|
  {
    DistinctCount(order);
    assert (set b | b in order) == blocks.Keys;
  }
}
