/** The quality index's own reading of a Go profile: it poisons a block whose
    rows disagree instead of failing, and reports values file by file. */
module QualityProfile {
  import opened Text
  import opened GoProfile
  import Gate = CoverageGate
  import GoSources
  import Ordering

  datatype Place = Place(file: string, span: Span)

  datatype Reading = Error | Hit(at: Place, statements: nat, covered: bool)

  datatype Measured = Measured(statements: nat, covered: bool)

  type Resolver = string -> Option<string>

  // ---- Which source a profile's name means ----

  /** lstrip("./"). */
  function StripLead(s: string): string {
    if s != "" && (s[0] == '.' || s[0] == '/') then StripLead(s[1..]) else s
  }

  function Matches(paths: set<string>, normal: string): set<string> {
    set p | p in paths && (GoSources.EndsWith(normal, "/" + p) || normal == p)
  }

  /** The name with slashes only; an absolute one is taken relative to the root
      (`relate`), where it can be. */
  function Normal(relate: string -> string, name: string): string {
    var slashes := Gate.SlashesOnly(name);
    StripLead(if slashes != "" && slashes[0] == '/' then relate(slashes) else slashes)
  }

  /** A source path itself, or else the one source path that the name ends with. */
  function ResolvePath(paths: set<string>, relate: string -> string, name: string): Option<string> {
    var normal := Normal(relate, name);
    if normal in paths then Some(normal)
    else if m :| m in Matches(paths, normal) && Matches(paths, normal) == {m} then Some(m)
    else None
  }

  function ResolverFor(paths: set<string>, relate: string -> string): Resolver {
    name => ResolvePath(paths, relate, name)
  }

  /** Taking a path relative to the root drops components and adds none. */
  ghost predicate AddsNoBackslash(relate: string -> string) {
    forall s :: '\\' !in s ==> '\\' !in relate(s)
  }

  /** Source paths are relative to the root. */
  ghost predicate AllRelative(paths: set<string>) {
    forall p :: p in paths && p != "" ==> p[0] != '/'
  }

  lemma {:induction false} StripLeadOnlyDrops(s: string)
    ensures |StripLead(s)| <= |s| && forall c :: c in StripLead(s) ==> c in s
    ensures StripLead(s) == "" || (StripLead(s)[0] != '.' && StripLead(s)[0] != '/')
  {
    if s != "" && (s[0] == '.' || s[0] == '/') {
      StripLeadOnlyDrops(s[1..]);
      assert forall c :: c in s[1..] ==> c in s;
    }
  }

  lemma NormalHasNoBackslash(relate: string -> string, name: string)
    requires AddsNoBackslash(relate)
    ensures '\\' !in Normal(relate, name)
  {
    var slashes := Gate.SlashesOnly(name);
    GoSources.SlashesOnlyHasNone(name);
    StripLeadOnlyDrops(if slashes != "" && slashes[0] == '/' then relate(slashes) else slashes);
  }

  lemma MatchIsTail(paths: set<string>, normal: string, p: string)
    requires p in Matches(paths, normal) && '\\' !in normal
    ensures p in paths && '\\' !in p && |p| <= |normal|
  {
    if GoSources.EndsWith(normal, "/" + p) {
      GoSources.NoBackslashInEnd(normal, "/" + p);
      assert forall c :: c in p ==> c in "/" + p;
    }
  }

  /** A name resolves to a source path that is no longer than the name itself. */
  lemma ResolvedIsASource(paths: set<string>, relate: string -> string, name: string)
    requires AddsNoBackslash(relate) && ResolvePath(paths, relate, name).Some?
    ensures var p := ResolvePath(paths, relate, name).value;
            p in paths && '\\' !in p && |p| <= |Normal(relate, name)|
  {
    NormalHasNoBackslash(relate, name);
    var normal := Normal(relate, name);
    if normal !in paths {
      MatchIsTail(paths, normal, ResolvePath(paths, relate, name).value);
    }
  }

  lemma NormalOfRelative(relate: string -> string, file: string)
    requires '\\' !in file && (file == "" || file[0] != '/')
    ensures Normal(relate, file) == StripLead(file)
    ensures file == "" || file[0] != '.' ==> Normal(relate, file) == file
    ensures file != "" && file[0] == '.' ==> |Normal(relate, file)| < |file|
  {
    assert Gate.SlashesOnly(file) == file;
    if file != "" && file[0] == '.' {
      StripLeadOnlyDrops(file[1..]);
    }
  }

  /** A path resolves to itself exactly when it is a source path without
      backslashes that does not start with a dot. */
  lemma PathResolvesToItselfIff(paths: set<string>, relate: string -> string, file: string)
    requires AddsNoBackslash(relate) && AllRelative(paths)
    ensures ResolvePath(paths, relate, file) == Some(file) <==>
            file in paths && '\\' !in file && (file == "" || file[0] != '.')
  {
    if file in paths && '\\' !in file {
      NormalOfRelative(relate, file);
    }
    if ResolvePath(paths, relate, file) == Some(file) {
      ResolvedIsASource(paths, relate, file);
    }
  }

  /** A name of which one source path is the end resolves to it: the import path
      under which a profile names a file, for one. */
  lemma EndingResolves(paths: set<string>, relate: string -> string, front: string, path: string)
    requires front != "" && front[0] != '.' && front[0] != '/' && '\\' !in front + "/" + path
    requires front + "/" + path !in paths && path in paths
    requires forall p :: p in paths && GoSources.EndsWith(front + "/" + path, "/" + p) ==> p == path
    ensures ResolvePath(paths, relate, front + "/" + path) == Some(path)
  {
    var name := front + "/" + path;
    NormalOfRelative(relate, name);
    assert name == front + ("/" + path);
    GoSources.EndsWithMore(front, "/" + path);
    assert Matches(paths, name) == {path};
  }

  predicate Positive(span: Span) {
    span.startLine >= 1 && span.startColumn >= 1 && span.endLine >= 1 && span.endColumn >= 1
  }

  function ReadRow(resolve: Resolver, line: string): Reading {
    match ParseRow(line)
    case None => Error
    case Some(row) =>
      match resolve(row.file)
      case None => Error
      case Some(file) =>
        if !Positive(row.span) || Gate.Reversed(row.span) then Error
        else Hit(Place(file, row.span), row.statements, row.count > 0)
  }

  function Readings(resolve: Resolver, rows: seq<string>): seq<Reading> {
    if rows == [] then []
    else
      var last := rows[|rows| - 1];
      Readings(resolve, rows[..|rows| - 1]) + if last == "" then [] else [ReadRow(resolve, last)]
  }

  predicate MeansHit(resolve: Resolver, row: Row, at: Place, statements: nat, covered: bool) {
    && resolve(row.file) == Some(at.file) && row.span == at.span && row.statements == statements && (covered <==> row.count > 0)
    && Gate.InOrder(at.span) && at.span.startLine >= 1 && at.span.startColumn >= 1 && at.span.endColumn >= 1
  }

  lemma HitByRow(resolve: Resolver, line: string, at: Place, statements: nat, covered: bool)
    ensures ReadRow(resolve, line) == Hit(at, statements, covered) <==>
            ParseRow(line).Some? && MeansHit(resolve, ParseRow(line).value, at, statements, covered)
  {
  }

  /** A line is taken for a hit exactly if it is a row, in order and with positive
      coordinates, of a file that its name resolves to. */
  lemma LineIsHitIff(resolve: Resolver, line: string, at: Place, statements: nat, covered: bool)
    ensures ReadRow(resolve, line) == Hit(at, statements, covered) <==>
            exists row :: IsRow(line, row) && MeansHit(resolve, row, at, statements, covered)
  {
    HitByRow(resolve, line, at, statements, covered);
    Gate.LineIsRow(line);
    if row :| IsRow(line, row) && MeansHit(resolve, row, at, statements, covered) {
      ParsesExactlyRows(line, row);
    }
  }

  // ---- What the rows say, whatever their order ----

  predicate SaysSize(readings: seq<Reading>, at: Place, n: nat) {
    Hit(at, n, true) in readings || Hit(at, n, false) in readings
  }

  ghost predicate Mentioned(readings: seq<Reading>, at: Place) {
    exists n :: SaysSize(readings, at, n)
  }

  /** Two rows disagree on the statement count of one block. */
  ghost predicate Poisoned(readings: seq<Reading>, at: Place) {
    exists m, n :: m != n && SaysSize(readings, at, m) && SaysSize(readings, at, n)
  }

  /** A block contributes if and only if all its rows agree, and is covered if
      and only if some row covers it. */
  ghost predicate IsValueOf(readings: seq<Reading>, blocks: map<Place, Measured>) {
    && (forall at :: at in blocks <==> Mentioned(readings, at) && !Poisoned(readings, at))
    && (forall at :: at in blocks ==> SaysSize(readings, at, blocks[at].statements)
                                      && (blocks[at].covered <==> Hit(at, blocks[at].statements, true) in readings))
  }

  lemma ValueIsUnique(readings: seq<Reading>, a: map<Place, Measured>, b: map<Place, Measured>)
    requires IsValueOf(readings, a) && IsValueOf(readings, b)
    ensures a == b
  {
  }

  lemma SoundBlockAgrees(readings: seq<Reading>, at: Place, m: nat, n: nat)
    requires !Poisoned(readings, at) && SaysSize(readings, at, m) && SaysSize(readings, at, n)
    ensures m == n
  {
  }

  // ---- The first loop ----

  ghost predicate Tracks(readings: seq<Reading>, blocks: map<Place, Measured>, invalid: set<Place>) {
    && IsValueOf(readings, blocks)
    && forall at :: at in invalid <==> Poisoned(readings, at)
  }

  lemma OneMore(readings: seq<Reading>, r: Reading)
    ensures forall at, n :: SaysSize(readings + [r], at, n) <==> SaysSize(readings, at, n) || (r.Hit? && r.at == at && r.statements == n)
    ensures forall at :: Mentioned(readings + [r], at) <==> Mentioned(readings, at) || (r.Hit? && r.at == at)
    ensures forall at :: Poisoned(readings, at) ==> Poisoned(readings + [r], at)
    ensures forall at :: Poisoned(readings + [r], at) ==> Poisoned(readings, at) || (r.Hit? && r.at == at)
  {
    var longer := readings + [r];
    assert forall x :: x in longer <==> x in readings || x == r;
    if r.Hit? {
      assert SaysSize(longer, r.at, r.statements);
    }
    forall at | Mentioned(readings, at) ensures Mentioned(longer, at) {
      var n :| SaysSize(readings, at, n);
      assert SaysSize(longer, at, n);
    }
    forall at | Poisoned(readings, at) ensures Poisoned(longer, at) {
      var m, n :| m != n && SaysSize(readings, at, m) && SaysSize(readings, at, n);
      assert SaysSize(longer, at, m) && SaysSize(longer, at, n);
    }
  }

  lemma ErrorKeepsTrack(readings: seq<Reading>, blocks: map<Place, Measured>, invalid: set<Place>)
    requires Tracks(readings, blocks, invalid)
    ensures Tracks(readings + [Error], blocks, invalid)
  {
    OneMore(readings, Error);
    assert forall x :: x in readings + [Error] <==> x in readings || x == Error;
  }

  lemma PoisonKeepsTrack(readings: seq<Reading>, blocks: map<Place, Measured>, invalid: set<Place>, r: Reading)
    requires Tracks(readings, blocks, invalid) && r.Hit? && Poisoned(readings + [r], r.at)
    ensures Tracks(readings + [r], blocks - {r.at}, invalid + {r.at})
  {
    OneMore(readings, r);
    assert forall x :: x in readings + [r] <==> x in readings || x == r;
  }

  lemma AgreementKeepsTrack(readings: seq<Reading>, blocks: map<Place, Measured>, invalid: set<Place>, r: Reading)
    requires Tracks(readings, blocks, invalid) && r.Hit? && r.at !in invalid
    requires r.at in blocks ==> blocks[r.at].statements == r.statements
    ensures Tracks(readings + [r],
                   blocks[r.at := Measured(r.statements, r.covered || (r.at in blocks && blocks[r.at].covered))], invalid)
  {
    var longer := readings + [r];
    OneMore(readings, r);
    assert forall x :: x in longer <==> x in readings || x == r;
    FirstOrSame(readings, blocks, invalid, r);
    assert Hit(r.at, r.statements, true) in readings ==> r.at in blocks && blocks[r.at].covered by {
      if Hit(r.at, r.statements, true) in readings {
        assert SaysSize(readings, r.at, r.statements);
      }
    }
    assert SaysSize(longer, r.at, r.statements);
  }

  lemma FirstOrSame(readings: seq<Reading>, blocks: map<Place, Measured>, invalid: set<Place>, r: Reading)
    requires Tracks(readings, blocks, invalid) && r.Hit? && r.at !in invalid
    requires r.at in blocks ==> blocks[r.at].statements == r.statements
    ensures forall n :: SaysSize(readings, r.at, n) ==> n == r.statements
    ensures !Poisoned(readings + [r], r.at)
  {
    OneMore(readings, r);
    forall n | SaysSize(readings, r.at, n) ensures n == r.statements {
      assert Mentioned(readings, r.at);
      SoundBlockAgrees(readings, r.at, n, blocks[r.at].statements);
    }
  }

  /** One row against the dictionary and the poisoned set. */
  method AddHit(ghost readings: seq<Reading>, blocks: map<Place, Measured>, invalid: set<Place>, at: Place, n: nat, covered: bool)
    returns (clean: bool, more: map<Place, Measured>, poisoned: set<Place>)
    requires Tracks(readings, blocks, invalid)
    ensures Tracks(readings + [Hit(at, n, covered)], more, poisoned)
    ensures clean ==> poisoned == invalid
    ensures !clean ==> at in poisoned
  {
    clean, more, poisoned := true, blocks, invalid;
    ghost var r := Hit(at, n, covered);
    OneMore(readings, r);
    if at in invalid {
      PoisonKeepsTrack(readings, blocks, invalid, r);
      assert blocks - {at} == blocks && invalid + {at} == invalid;
      return;
    }
    if at in blocks && blocks[at].statements != n {
      assert SaysSize(readings + [r], at, blocks[at].statements) && SaysSize(readings + [r], at, n);
      PoisonKeepsTrack(readings, blocks, invalid, r);
      more, poisoned := blocks - {at}, invalid + {at};
      clean := false;
      return;
    }
    AgreementKeepsTrack(readings, blocks, invalid, r);
    more := blocks[at := Measured(n, covered || (at in blocks && blocks[at].covered))];
  }

  /** The first loop.  `clean` is that no error was recorded. */
  method ReadRows(resolve: Resolver, rows: seq<string>) returns (blocks: map<Place, Measured>, clean: bool)
    ensures var readings := Readings(resolve, rows);
            IsValueOf(readings, blocks) && (clean <==> Error !in readings && forall at :: !Poisoned(readings, at))
  {
    var invalid: set<Place> := {};
    blocks, clean := map[], true;
    ghost var readings: seq<Reading> := [];
    for i := 0 to |rows|
      invariant readings == Readings(resolve, rows[..i]) && Tracks(readings, blocks, invalid)
      invariant clean <==> Error !in readings && invalid == {}
    {
      var line := rows[i];
      assert rows[..i + 1][..i] == rows[..i];
      if line == "" {
        continue;
      }
      var reading := ReadRow(resolve, line);
      if reading.Error? {
        ErrorKeepsTrack(readings, blocks, invalid);
        clean := false;
      } else {
        var sound;
        sound, blocks, invalid := AddHit(readings, blocks, invalid, reading.at, reading.statements, reading.covered);
        clean := clean && sound;
      }
      readings := readings + [reading];
    }
    assert rows[..|rows|] == rows;
    assert forall at :: at in invalid <==> Poisoned(readings, at);
  }

  // ---- The second loop: values by file ----

  /** `gaps` in the order of their places. */
  datatype FileValue = FileValue(statements: nat, covered: nat, gaps: seq<Block>)

  function BlockAt(at: Place, m: Measured): Block {
    Block(at.file, at.span, m.statements)
  }

  function BlocksOf(blocks: map<Place, Measured>): set<Block> {
    set at | at in blocks :: BlockAt(at, blocks[at])
  }

  function CoveredOf(blocks: map<Place, Measured>): set<Block> {
    set at | at in blocks && blocks[at].covered :: BlockAt(at, blocks[at])
  }

  function OfFile(blocks: set<Block>, file: string): set<Block> {
    set b | b in blocks && b.file == file
  }

  function FilesIn(blocks: set<Block>): set<string> {
    set b | b in blocks :: b.file
  }

  function GapsIn(blocks: set<Block>, covers: set<Block>, file: string): set<Block> {
    set b | b in blocks && b !in covers && b.file == file && b.statements > 0
  }

  ghost function ValueOf(blocks: set<Block>, covers: set<Block>, file: string): FileValue {
    FileValue(Total(OfFile(blocks, file)), Total(OfFile(covers, file)), Ascending(GapsIn(blocks, covers, file)))
  }

  ghost function ValuesOf(blocks: set<Block>, covers: set<Block>): map<string, FileValue> {
    map f | f in FilesIn(blocks) :: ValueOf(blocks, covers, f)
  }

  lemma OfFileWith(blocks: set<Block>, b: Block, file: string)
    requires b !in blocks
    ensures Total(OfFile(blocks + {b}, file)) == Total(OfFile(blocks, file)) + if b.file == file then b.statements else 0
  {
    if b.file == file {
      assert OfFile(blocks + {b}, file) == OfFile(blocks, file) + {b};
      TotalWith(OfFile(blocks, file), b);
    } else {
      assert OfFile(blocks + {b}, file) == OfFile(blocks, file);
    }
  }

  // ---- The order of places ----

  predicate SpanBefore(a: Span, b: Span) {
    || a.startLine < b.startLine
    || (a.startLine == b.startLine
        && (|| a.startColumn < b.startColumn
            || (a.startColumn == b.startColumn
                && (a.endLine < b.endLine || (a.endLine == b.endLine && a.endColumn < b.endColumn)))))
  }

  /** The order of tuples of a file name and coordinates. */
  predicate Before(a: Block, b: Block) {
    Ordering.Less(a.file, b.file) || (a.file == b.file && SpanBefore(a.span, b.span))
  }

  lemma BeforeOrders(a: Block, b: Block, c: Block)
    ensures !(Before(a, b) && Before(b, a))
    ensures a.file != b.file || a.span != b.span ==> Before(a, b) || Before(b, a)
    ensures Before(a, b) && Before(b, c) ==> Before(a, c)
  {
    Ordering.LessIsTotal(a.file, b.file);
    Ordering.LessIsTotal(b.file, c.file);
    if Ordering.Less(a.file, b.file) && Ordering.Less(b.file, c.file) {
      Ordering.LessIsTransitive(a.file, b.file, c.file);
    }
  }

  predicate IsFirst(b: Block, blocks: set<Block>) {
    b in blocks && forall o :: o in blocks && o != b ==> Before(b, o)
  }

  predicate IsLast(b: Block, blocks: set<Block>) {
    b in blocks && forall o :: o in blocks && o != b ==> Before(o, b)
  }

  ghost predicate OneSizeEach(blocks: set<Block>) {
    forall a, b :: a in blocks && b in blocks && a.file == b.file && a.span == b.span ==> a == b
  }

  lemma {:induction false} FirstExists(blocks: set<Block>)
    requires blocks != {} && OneSizeEach(blocks)
    ensures exists b :: IsFirst(b, blocks)
    decreases |blocks|
  {
    var x :| x in blocks;
    if blocks == {x} {
      assert IsFirst(x, blocks);
    } else {
      var rest := blocks - {x};
      FirstExists(rest);
      var y :| IsFirst(y, rest);
      BeforeOrders(x, y, y);
      if Before(x, y) {
        forall o | o in blocks && o != x ensures Before(x, o) {
          BeforeOrders(x, y, o);
        }
        assert IsFirst(x, blocks);
      } else {
        assert IsFirst(y, blocks);
      }
    }
  }

  lemma {:induction false} LastExists(blocks: set<Block>)
    requires blocks != {} && OneSizeEach(blocks)
    ensures exists b :: IsLast(b, blocks)
    decreases |blocks|
  {
    var x :| x in blocks;
    if blocks == {x} {
      assert IsLast(x, blocks);
    } else {
      var rest := blocks - {x};
      LastExists(rest);
      var y :| IsLast(y, rest);
      BeforeOrders(x, y, y);
      if Before(y, x) {
        forall o | o in blocks && o != x ensures Before(o, x) {
          BeforeOrders(o, y, x);
        }
        assert IsLast(x, blocks);
      } else {
        assert IsLast(y, blocks);
      }
    }
  }

  /** The blocks in the order of their places. */
  ghost function Ascending(blocks: set<Block>): seq<Block> {
    if b :| IsLast(b, blocks) then Ascending(blocks - {b}) + [b] else []
  }

  lemma AscendingAppends(blocks: set<Block>, b: Block)
    requires b !in blocks && forall o :: o in blocks ==> Before(o, b)
    ensures Ascending(blocks + {b}) == Ascending(blocks) + [b]
  {
    var more := blocks + {b};
    assert IsLast(b, more) && more - {b} == blocks;
    forall c | IsLast(c, more) ensures c == b {
      BeforeOrders(b, c, c);
    }
  }

  /** Every block is listed, and none twice: each comes before all that follow. */
  lemma {:induction false} AscendingLists(blocks: set<Block>)
    requires OneSizeEach(blocks)
    ensures forall b :: b in Ascending(blocks) <==> b in blocks
    ensures forall i, j :: 0 <= i < j < |Ascending(blocks)| ==> Before(Ascending(blocks)[i], Ascending(blocks)[j])
    decreases |blocks|
  {
    if blocks != {} {
      LastExists(blocks);
      var b :| IsLast(b, blocks) && Ascending(blocks) == Ascending(blocks - {b}) + [b];
      AscendingLists(blocks - {b});
      var front := Ascending(blocks - {b});
      forall i | 0 <= i < |front| ensures Before(front[i], b) {
        assert front[i] in front;
      }
    }
  }

  lemma PlacesHaveOneSize(blocks: map<Place, Measured>)
    ensures OneSizeEach(BlocksOf(blocks))
  {
  }

  function AddedTo(value: FileValue, b: Block, isCovered: bool): FileValue {
    FileValue(value.statements + b.statements, value.covered + (if isCovered then b.statements else 0),
              if !isCovered && b.statements > 0 then value.gaps + [b] else value.gaps)
  }

  lemma ValueWith(blocks: set<Block>, covers: set<Block>, b: Block, isCovered: bool, file: string)
    requires covers <= blocks && b !in blocks && forall o :: o in blocks ==> Before(o, b)
    ensures ValueOf(blocks + {b}, if isCovered then covers + {b} else covers, file)
         == if b.file == file then AddedTo(ValueOf(blocks, covers, file), b, isCovered) else ValueOf(blocks, covers, file)
  {
    OfFileWith(blocks, b, file);
    OfFileWith(covers, b, file);
    var gaps := GapsIn(blocks, covers, file);
    var more := GapsIn(blocks + {b}, if isCovered then covers + {b} else covers, file);
    if b.file == file && !isCovered && b.statements > 0 {
      assert more == gaps + {b};
      AscendingAppends(gaps, b);
    } else {
      assert more == gaps;
    }
  }

  lemma NoValue(blocks: set<Block>, covers: set<Block>, file: string)
    requires covers <= blocks && file !in FilesIn(blocks)
    ensures ValueOf(blocks, covers, file) == FileValue(0, 0, [])
  {
  }

  lemma ValuesWith(blocks: set<Block>, covers: set<Block>, b: Block, isCovered: bool)
    requires covers <= blocks && b !in blocks && forall o :: o in blocks ==> Before(o, b)
    ensures var values := ValuesOf(blocks, covers);
            var prior := if b.file in values then values[b.file] else FileValue(0, 0, []);
            ValuesOf(blocks + {b}, if isCovered then covers + {b} else covers) == values[b.file := AddedTo(prior, b, isCovered)]
  {
    forall f ensures f in FilesIn(blocks + {b}) <==> f in FilesIn(blocks) || f == b.file {
      if f in FilesIn(blocks) {
        var c :| c in blocks && c.file == f;
        assert c in blocks + {b};
      }
    }
    if b.file !in FilesIn(blocks) {
      NoValue(blocks, covers, b.file);
    }
    forall f | f in FilesIn(blocks + {b})
      ensures ValueOf(blocks + {b}, if isCovered then covers + {b} else covers, f)
           == if b.file == f then AddedTo(ValueOf(blocks, covers, f), b, isCovered) else ValueOf(blocks, covers, f)
    {
      ValueWith(blocks, covers, b, isCovered, f);
    }
  }

  /** The blocks no longer waiting. */
  ghost function ValuesWithout(blocks: set<Block>, covers: set<Block>, waiting: set<Block>): map<string, FileValue> {
    ValuesOf(blocks - waiting, covers - waiting)
  }

  lemma NextBlock(blocks: set<Block>, covers: set<Block>, waiting: set<Block>, b: Block)
    requires covers <= blocks && waiting <= blocks && IsFirst(b, waiting)
    requires forall d, w :: d in blocks - waiting && w in waiting ==> Before(d, w)
    ensures var values := ValuesWithout(blocks, covers, waiting);
            var prior := if b.file in values then values[b.file] else FileValue(0, 0, []);
            ValuesWithout(blocks, covers, waiting - {b}) == values[b.file := AddedTo(prior, b, b in covers)]
  {
    assert blocks - (waiting - {b}) == blocks - waiting + {b};
    assert covers - (waiting - {b}) == if b in covers then covers - waiting + {b} else covers - waiting;
    ValuesWith(blocks - waiting, covers - waiting, b, b in covers);
  }

  lemma NoneWaiting(blocks: set<Block>, covers: set<Block>)
    requires covers <= blocks
    ensures ValuesWithout(blocks, covers, blocks) == map[]
    ensures ValuesWithout(blocks, covers, {}) == ValuesOf(blocks, covers)
  {
    assert blocks - blocks == {} && blocks - {} == blocks && covers - {} == covers;
  }

  method AddToFile(values: map<string, FileValue>, block: Block, isCovered: bool) returns (more: map<string, FileValue>)
    ensures var prior := if block.file in values then values[block.file] else FileValue(0, 0, []);
            more == values[block.file := AddedTo(prior, block, isCovered)]
  {
    var row := if block.file in values then values[block.file] else FileValue(0, 0, []);
    row := row.(statements := row.statements + block.statements);
    if isCovered {
      row := row.(covered := row.covered + block.statements);
    } else if block.statements > 0 {
      row := row.(gaps := row.gaps + [block]);
    }
    more := values[block.file := row];
  }

  /** The second loop goes over the blocks in the order of their places. */
  method SumFiles(blocks: set<Block>, covers: set<Block>) returns (values: map<string, FileValue>)
    requires covers <= blocks && OneSizeEach(blocks)
    ensures values == ValuesOf(blocks, covers)
  {
    NoneWaiting(blocks, covers);
    values := map[];
    var waiting := blocks;
    while waiting != {}
      invariant waiting <= blocks && values == ValuesWithout(blocks, covers, waiting)
      invariant forall d, w :: d in blocks - waiting && w in waiting ==> Before(d, w)
      decreases |waiting|
    {
      FirstExists(waiting);
      var block :| IsFirst(block, waiting);
      NextBlock(blocks, covers, waiting, block);
      values := AddToFile(values, block, block in covers);
      waiting := waiting - {block};
    }
  }

  predicate HasHeader(lines: seq<string>) {
    Gate.HasHeader(lines)
  }

  method ReadProfile(resolve: Resolver, lines: seq<string>) returns (values: map<string, FileValue>, clean: bool, ghost blocks: map<Place, Measured>)
    ensures !HasHeader(lines) ==> values == map[] && !clean
    ensures HasHeader(lines) ==> IsValueOf(Readings(resolve, lines[1..]), blocks)
                                 && values == ValuesOf(BlocksOf(blocks), CoveredOf(blocks))
    ensures HasHeader(lines) ==> (clean <==> Error !in Readings(resolve, lines[1..])
                                             && forall at :: !Poisoned(Readings(resolve, lines[1..]), at))
  {
    if !HasHeader(lines) {
      return map[], false, map[];
    }
    var found;
    found, clean := ReadRows(resolve, lines[1..]);
    blocks := found;
    PlacesHaveOneSize(found);
    values := SumFiles(BlocksOf(found), CoveredOf(found));
  }

  // ---- Order and repetition ----

  lemma {:induction false} ReadingsAreOfRows(resolve: Resolver, rows: seq<string>, r: Reading)
    ensures r in Readings(resolve, rows) <==> exists line :: line in rows && line != "" && ReadRow(resolve, line) == r
  {
    if rows != [] {
      var front, last := rows[..|rows| - 1], rows[|rows| - 1];
      assert rows == front + [last];
      ReadingsAreOfRows(resolve, front, r);
    }
  }

  lemma SameReadingsSameValue(a: seq<Reading>, b: seq<Reading>, blocks: map<Place, Measured>)
    requires (forall r :: r in a <==> r in b) && IsValueOf(a, blocks)
    ensures IsValueOf(b, blocks)
  {
    assert forall at, n :: SaysSize(a, at, n) <==> SaysSize(b, at, n);
    forall at ensures (Mentioned(a, at) <==> Mentioned(b, at)) && (Poisoned(a, at) <==> Poisoned(b, at)) {
    }
  }

  /** The values do not depend on the order of the rows, nor on how often one
      occurs, poisoned blocks included. */
  lemma RowOrderNeverMatters(resolve: Resolver, a: seq<string>, b: seq<string>, x: map<Place, Measured>, y: map<Place, Measured>)
    requires forall line :: line in a <==> line in b
    requires IsValueOf(Readings(resolve, a), x) && IsValueOf(Readings(resolve, b), y)
    ensures x == y
  {
    forall r ensures r in Readings(resolve, a) <==> r in Readings(resolve, b) {
      ReadingsAreOfRows(resolve, a, r);
      ReadingsAreOfRows(resolve, b, r);
    }
    SameReadingsSameValue(Readings(resolve, a), Readings(resolve, b), x);
    ValueIsUnique(Readings(resolve, b), x, y);
  }

  // ---- The index against the gate ----

  predicate Resolves(resolve: Resolver, blocks: map<Block, bool>) {
    forall b :: b in blocks ==> b.file != "" && resolve(b.file) == Some(b.file)
  }

  function Expected(b: Block, covered: bool): Reading {
    if Positive(b.span) then Hit(Place(b.file, b.span), b.statements, covered) else Error
  }

  lemma MergedRowReads(resolve: Resolver, b: Block, covered: bool)
    requires b.file != "" && resolve(b.file) == Some(b.file) && !Gate.Reversed(b.span)
    ensures Gate.MergedRow(b, covered) != "" && ReadRow(resolve, Gate.MergedRow(b, covered)) == Expected(b, covered)
  {
    RowsReadBack(Row(b.file, b.span, b.statements, if covered then 1 else 0));
  }

  lemma {:induction false} MergedRowsRead(resolve: Resolver, order: seq<Block>, blocks: map<Block, bool>, r: Reading)
    requires Resolves(resolve, blocks) && forall b :: b in order ==> b in blocks && !Gate.Reversed(b.span)
    ensures r in Readings(resolve, Gate.MergedRows(order, blocks)) <==> exists b :: b in order && r == Expected(b, blocks[b])
    decreases |order|
  {
    if order != [] {
      var front, last := order[..|order| - 1], order[|order| - 1];
      assert order == front + [last];
      MergedRowsRead(resolve, front, blocks, r);
      MergedRowReads(resolve, last, blocks[last]);
      var rows := Gate.MergedRows(order, blocks);
      assert rows[..|rows| - 1] == Gate.MergedRows(front, blocks);
    }
  }

  /** The gate's blocks with positive coordinates, by place. */
  ghost predicate IsPositivePart(blocks: map<Block, bool>, found: map<Place, Measured>) {
    && (forall b :: b in blocks && Positive(b.span) ==>
          Place(b.file, b.span) in found && found[Place(b.file, b.span)] == Measured(b.statements, blocks[b]))
    && (forall at :: at in found ==>
          Positive(at.span) && BlockAt(at, found[at]) in blocks && blocks[BlockAt(at, found[at])] == found[at].covered)
  }

  lemma ExpectedSizes(readings: seq<Reading>, order: seq<Block>, blocks: map<Block, bool>, at: Place, n: nat)
    requires forall r :: r in readings <==> exists b :: b in order && b in blocks && r == Expected(b, blocks[b])
    ensures SaysSize(readings, at, n) <==> Positive(at.span) && Block(at.file, at.span, n) in order && Block(at.file, at.span, n) in blocks
  {
  }

  lemma MergedValues(readings: seq<Reading>, order: seq<Block>, blocks: map<Block, bool>, found: map<Place, Measured>)
    requires forall r :: r in readings <==> exists b :: b in order && b in blocks && r == Expected(b, blocks[b])
    requires (forall b :: b in order <==> b in blocks) && OneSizeEach(blocks.Keys) && IsValueOf(readings, found)
    ensures IsPositivePart(blocks, found)
  {
    forall at, n ensures SaysSize(readings, at, n) <==> Positive(at.span) && Block(at.file, at.span, n) in blocks {
      ExpectedSizes(readings, order, blocks, at, n);
    }
    forall b | b in blocks && Positive(b.span)
      ensures Place(b.file, b.span) in found && found[Place(b.file, b.span)].statements == b.statements
    {
      var at := Place(b.file, b.span);
      assert SaysSize(readings, at, b.statements);
      assert !Poisoned(readings, at) by {
        forall m | SaysSize(readings, at, m) ensures m == b.statements {
          assert Block(at.file, at.span, m) in blocks.Keys && b in blocks.Keys;
        }
      }
      assert SaysSize(readings, at, found[at].statements);
      assert Block(at.file, at.span, found[at].statements) in blocks.Keys && b in blocks.Keys;
    }
    forall at | at in found ensures Positive(at.span) && BlockAt(at, found[at]) in blocks && blocks[BlockAt(at, found[at])] == found[at].covered {
      assert SaysSize(readings, at, found[at].statements);
      var b := BlockAt(at, found[at]);
      assert Expected(b, blocks[b]) == Hit(at, found[at].statements, blocks[b]) && Expected(b, blocks[b]) in readings;
    }
  }

  function SumValues(values: map<string, FileValue>, files: seq<string>): Gate.Count
    requires forall f :: f in files ==> f in values
  {
    if files == [] then Gate.Count(0, 0)
    else
      var rest, value := SumValues(values, files[..|files| - 1]), values[files[|files| - 1]];
      Gate.Count(rest.covered + value.covered, rest.statements + value.statements)
  }

  ghost function OfFiles(blocks: set<Block>, files: seq<string>): set<Block> {
    set b | b in blocks && b.file in files
  }

  lemma OfFilesSplits(blocks: set<Block>, front: seq<string>, last: string)
    requires last !in front
    ensures Total(OfFiles(blocks, front + [last])) == Total(OfFiles(blocks, front)) + Total(OfFile(blocks, last))
  {
    var all, part := OfFiles(blocks, front + [last]), OfFiles(blocks, front);
    assert all - part == OfFile(blocks, last);
    TotalSplits(all, part);
  }

  lemma {:induction false} FilesPartition(blocks: set<Block>, covers: set<Block>, files: seq<string>)
    requires covers <= blocks && forall f :: f in files ==> f in FilesIn(blocks)
    requires forall i, j :: 0 <= i < j < |files| ==> files[i] != files[j]
    ensures SumValues(ValuesOf(blocks, covers), files) == Gate.Count(Total(OfFiles(covers, files)), Total(OfFiles(blocks, files)))
    decreases |files|
  {
    if files == [] {
      assert OfFiles(covers, []) == {} && OfFiles(blocks, []) == {};
    } else {
      var front, last := files[..|files| - 1], files[|files| - 1];
      assert files == front + [last] && last !in front;
      FilesPartition(blocks, covers, front);
      OfFilesSplits(blocks, front, last);
      OfFilesSplits(covers, front, last);
    }
  }

  /** The index's values over all files, each listed once. */
  ghost predicate ListsFiles(files: seq<string>, values: map<string, FileValue>) {
    && (forall f :: f in files <==> f in values)
    && (forall i, j :: 0 <= i < j < |files| ==> files[i] != files[j])
  }

  lemma FileValuesAddUp(blocks: set<Block>, covers: set<Block>, files: seq<string>)
    requires covers <= blocks && ListsFiles(files, ValuesOf(blocks, covers))
    ensures SumValues(ValuesOf(blocks, covers), files) == Gate.Count(Total(covers), Total(blocks))
  {
    FilesPartition(blocks, covers, files);
    forall b | b in blocks ensures b.file in files {
      assert b.file in FilesIn(blocks);
    }
    assert OfFiles(blocks, files) == blocks && OfFiles(covers, files) == covers;
  }

  ghost function PositiveOnes(blocks: set<Block>): set<Block> {
    set b | b in blocks && Positive(b.span)
  }

  lemma PositivePartBlocks(blocks: map<Block, bool>, found: map<Place, Measured>)
    requires IsPositivePart(blocks, found)
    ensures BlocksOf(found) == PositiveOnes(blocks.Keys) && CoveredOf(found) == PositiveOnes(Gate.CoveredIn(blocks))
  {
  }

  /** Leaving out the blocks with a zero coordinate keeps the total exactly when
      they have no statements. */
  lemma PositiveTotal(blocks: set<Block>)
    ensures Total(PositiveOnes(blocks)) == Total(blocks) <==> forall b :: b in blocks && !Positive(b.span) ==> b.statements == 0
  {
    TotalSplits(blocks, PositiveOnes(blocks));
    TotalIsZero(blocks - PositiveOnes(blocks));
  }

  /** Every block of an accepted profile lies in a source that the index lists,
      and none in a directory or file whose path starts with a dot. */
  ghost predicate AllListed(blocks: map<Block, bool>, paths: set<string>) {
    forall b :: b in blocks ==> b.file in paths && (b.file == "" || b.file[0] != '.')
  }

  lemma AcceptedFilesResolveInIndex(modulePath: string, root: string, packages: seq<GoSources.Package>,
                                    mapping: map<string, GoSources.Owner>, lines: seq<string>, blocks: map<Block, bool>,
                                    paths: set<string>, relate: string -> string)
    requires GoSources.Listed(packages) && GoSources.IsMapOf(GoSources.Claims(modulePath, root, packages), mapping)
    requires Gate.Accepted(GoSources.SourcesOf(packages, mapping), lines, blocks)
    requires AddsNoBackslash(relate) && AllRelative(paths) && AllListed(blocks, paths)
    ensures Resolves(ResolverFor(paths, relate), blocks)
  {
    GoSources.AcceptedFilesResolve(modulePath, root, packages, mapping, lines, blocks);
    forall b | b in blocks ensures b.file != "" && ResolvePath(paths, relate, b.file) == Some(b.file) {
      PathResolvesToItselfIff(paths, relate, b.file);
    }
  }

  /** The index's values for the merged profile, summed over its files, are the
      gate's totals if and only if blocks with a zero coordinate hold no
      statements (no covered ones, for the covered total). */
  lemma IndexTotalsAreTheGates(modulePath: string, root: string, packages: seq<GoSources.Package>,
                               mapping: map<string, GoSources.Owner>, lines: seq<string>, report: Gate.Report, order: seq<Block>,
                               paths: set<string>, relate: string -> string, found: map<Place, Measured>, files: seq<string>)
    requires GoSources.Listed(packages) && GoSources.IsMapOf(GoSources.Claims(modulePath, root, packages), mapping)
    requires Gate.Summarizes(GoSources.SourcesOf(packages, mapping), lines, report) && Gate.Lists(order, report.blocks)
    requires AddsNoBackslash(relate) && AllRelative(paths) && AllListed(report.blocks, paths)
    requires IsValueOf(Readings(ResolverFor(paths, relate), Gate.MergedRows(order, report.blocks)), found)
    requires ListsFiles(files, ValuesOf(BlocksOf(found), CoveredOf(found)))
    ensures var total := SumValues(ValuesOf(BlocksOf(found), CoveredOf(found)), files);
            && (total.statements == report.sums.statements <==>
                forall b :: b in report.blocks && !Positive(b.span) ==> b.statements == 0)
            && (total.covered == report.sums.covered <==>
                forall b :: b in Gate.CoveredIn(report.blocks) && !Positive(b.span) ==> b.statements == 0)
  {
    var sources := GoSources.SourcesOf(packages, mapping);
    AcceptedFilesResolveInIndex(modulePath, root, packages, mapping, lines, report.blocks, paths, relate);
    MergedIsPositivePart(sources, lines, report, order, ResolverFor(paths, relate), found);
    PositivePartBlocks(report.blocks, found);
    FileValuesAddUp(BlocksOf(found), CoveredOf(found), files);
    PositiveTotal(report.blocks.Keys);
    PositiveTotal(Gate.CoveredIn(report.blocks));
  }

  lemma MergedIsPositivePart(sources: Gate.Sources, lines: seq<string>, report: Gate.Report, order: seq<Block>,
                             resolve: Resolver, found: map<Place, Measured>)
    requires Gate.Summarizes(sources, lines, report) && Gate.Lists(order, report.blocks) && Resolves(resolve, report.blocks)
    requires IsValueOf(Readings(resolve, Gate.MergedRows(order, report.blocks)), found)
    ensures IsPositivePart(report.blocks, found)
  {
    var blocks, readings := report.blocks, Readings(resolve, Gate.MergedRows(order, report.blocks));
    Gate.AcceptedBlocksAreAdmissible(sources, lines[1..], blocks);
    forall r ensures r in readings <==> exists b :: b in order && b in blocks && r == Expected(b, blocks[b]) {
      MergedRowsRead(resolve, order, blocks, r);
    }
    GateBlocksHaveOneSize(Gate.Readings(sources, lines[1..]), blocks);
    MergedValues(readings, order, blocks, found);
  }

  lemma GateBlocksHaveOneSize(readings: seq<Gate.Reading>, blocks: map<Block, bool>)
    requires Gate.IsSummaryOf(readings, blocks) && Gate.Consistent(readings)
    ensures OneSizeEach(blocks.Keys)
  {
  }
}
