/** Argument vectors built from whole flags, and what the flag parser makes of them. */
module Segments {
  import opened Text
  import opened GoFlag

  /** The flags that open and quickstart print. */
  datatype Name =
    | Config | Out | StateDir | NoGitMetadata | Python | NoPython | Clean | NoCache | Force
    | ScipIndex | ScipGenerate | ScipTool | ScipLock | ScipNoPinCheck | TracePath | History

  function Spell(n: Name): string {
    match n
    case Config => "config"
    case Out => "out"
    case StateDir => "state-dir"
    case NoGitMetadata => "no-git-metadata"
    case Python => "python"
    case NoPython => "no-python"
    case Clean => "clean"
    case NoCache => "no-cache"
    case Force => "force"
    case ScipIndex => "scip-index"
    case ScipGenerate => "scip-generate"
    case ScipTool => "scip-tool"
    case ScipLock => "scip-lock"
    case ScipNoPinCheck => "scip-no-pin-check"
    case TracePath => "trace"
    case History => "history"
  }

  function Decode(name: string): Option<Name> {
    if name == "config" then Some(Config)
    else if name == "out" then Some(Out)
    else if name == "state-dir" then Some(StateDir)
    else if name == "no-git-metadata" then Some(NoGitMetadata)
    else if name == "python" then Some(Python)
    else if name == "no-python" then Some(NoPython)
    else if name == "clean" then Some(Clean)
    else if name == "no-cache" then Some(NoCache)
    else if name == "force" then Some(Force)
    else if name == "scip-index" then Some(ScipIndex)
    else if name == "scip-generate" then Some(ScipGenerate)
    else if name == "scip-tool" then Some(ScipTool)
    else if name == "scip-lock" then Some(ScipLock)
    else if name == "scip-no-pin-check" then Some(ScipNoPinCheck)
    else if name == "trace" then Some(TracePath)
    else if name == "history" then Some(History)
    else None
  }

  lemma DecodeSpell(n: Name)
    ensures Decode(Spell(n)) == Some(n)
  {
  }

  /** `--name value`, `--name`, or `--name=false`. */
  datatype Segment = Valued(name: Name, value: string) | Switch(name: Name) | Off(name: Name)

  function Tokens(s: Segment): seq<string> {
    match s
    case Valued(name, value) => ["--" + Spell(name), value]
    case Switch(name) => ["--" + Spell(name)]
    case Off(name) => ["--" + Spell(name) + "=false"]
  }

  function Render(segments: seq<Segment>): seq<string> {
    if segments == [] then [] else Tokens(segments[0]) + Render(segments[1..])
  }

  function Flatten<T>(parts: seq<seq<T>>): seq<T> {
    if parts == [] then [] else parts[0] + Flatten(parts[1..])
  }

  lemma FlattenCons<T>(head: seq<T>, tail: seq<seq<T>>)
    ensures Flatten([head] + tail) == head + Flatten(tail)
  {
  }

  lemma Regroup<T>(a: seq<T>, b: seq<T>, c: seq<T>)
    ensures a + (b + c) == (a + b) + c
  {
  }

  lemma {:induction false} FlattenConcat<T>(a: seq<seq<T>>, b: seq<seq<T>>)
    ensures Flatten(a + b) == Flatten(a) + Flatten(b)
  {
    if a == [] {
      assert a + b == b;
    } else {
      var head, tail := a[0], a[1..];
      FlattenConcat(tail, b);
      Regroup([head], tail, b);
      assert a == [head] + tail;
      FlattenCons(head, tail);
      FlattenCons(head, tail + b);
      Regroup(head, Flatten(tail), Flatten(b));
    }
  }

  function TokenLists(segments: seq<Segment>): seq<seq<string>> {
    seq(|segments|, i requires 0 <= i < |segments| => Tokens(segments[i]))
  }

  lemma {:induction false} RenderFlattens(segments: seq<Segment>)
    ensures Render(segments) == Flatten(TokenLists(segments))
  {
    if segments != [] {
      RenderFlattens(segments[1..]);
      assert TokenLists(segments)[1..] == TokenLists(segments[1..]);
    }
  }

  lemma RenderConcat(a: seq<Segment>, b: seq<Segment>)
    ensures Render(a + b) == Render(a) + Render(b)
  {
    RenderFlattens(a);
    RenderFlattens(b);
    RenderFlattens(a + b);
    TokenListsConcat(a, b);
    FlattenConcat(TokenLists(a), TokenLists(b));
  }

  lemma TokenListsConcat(a: seq<Segment>, b: seq<Segment>)
    ensures TokenLists(a + b) == TokenLists(a) + TokenLists(b)
  {
  }

  function SegmentText(s: Segment): string {
    match s
    case Valued(_, value) => value
    case Switch(_) => "true"
    case Off(_) => "false"
  }

  function AsAssignments(segments: seq<Segment>): seq<Assignment> {
    if segments == [] then []
    else [Assignment(Spell(segments[0].name), SegmentText(segments[0]))] + AsAssignments(segments[1..])
  }

  predicate FlagName(name: string) {
    name != "" && name[0] != '-' && '=' !in name
  }

  lemma SpellIsPlain(n: Name)
    ensures FlagName(Spell(n))
  {
  }

  /** A segment that the registered flag of its name will accept. */
  predicate Legible(registry: Registry, s: Segment) {
    match s
    case Valued(name, value) =>
      || registry(Spell(name)) == Some(PlainText)
      || (registry(Spell(name)) == Some(TextList) && TrimSpace(value) != "")
    case _ => registry(Spell(s.name)) == Some(Boolean)
  }

  ghost predicate AllLegible(registry: Registry, segments: seq<Segment>) {
    forall s :: s in segments ==> Legible(registry, s)
  }

  /** A path argument that no parser can take for a flag. */
  predicate Rooted(path: string) {
    path != "" && path[0] != '-'
  }

  lemma ClassifySegment(s: Segment, name: string)
    requires name == Spell(s.name) && FlagName(name)
    ensures Classify(Tokens(s)[0]) == Flag(name, if s.Off? then Some("false") else None)
  {
    var token := Tokens(s)[0];
    var body := token[2..];
    assert body == name + (if s.Off? then "=false" else "");
    FirstEqualsIs(body, 1, |name|);
    assert body[..|name|] == name;
    if s.Off? {
      assert body[|name| + 1..] == "false";
    }
  }

  lemma ParseStep(registry: Registry, other: (string, string) -> bool, head: seq<string>, name: string,
                  text: Option<string>, value: string, rest: seq<string>)
    requires 0 < |head| <= 2 && Classify(head[0]) == Flag(name, text)
    requires |head| == 2 ==> text.None? && value == head[1]
    requires |head| == 1 ==> value == if text.Some? then text.value else "true"
    requires registry(name).Some? && (registry(name) == Some(Boolean) <==> |head| == 1)
    requires Accepts(registry(name).value, name, value, other)
    ensures Parse(registry, other, head + rest) == Prepend(Assignment(name, value), Parse(registry, other, rest))
  {
  }

  /** Every value survives: rendering legible segments and parsing the result
      gives back exactly those assignments, whatever the values look like. */
  lemma {:induction false} RenderedVectorParsesBack(registry: Registry, other: (string, string) -> bool,
                                                    segments: seq<Segment>, root: string)
    requires AllLegible(registry, segments) && Rooted(root)
    ensures Parse(registry, other, Render(segments) + [root]) == Parsed(AsAssignments(segments), [root])
  {
    var args := Render(segments) + [root];
    if segments == [] {
      assert args == [root];
    } else {
      var s := segments[0];
      assert s in segments && Legible(registry, s);
      SpellIsPlain(s.name);
      ClassifySegment(s, Spell(s.name));
      RenderedVectorParsesBack(registry, other, segments[1..], root);
      assert args == Tokens(s) + (Render(segments[1..]) + [root]);
      ParseStep(registry, other, Tokens(s), Spell(s.name), if s.Off? then Some("false") else None,
                SegmentText(s), Render(segments[1..]) + [root]);
    }
  }

  /** The entries a `stringList` can hold: what Set leaves after trimming. */
  predicate ListEntry(value: string) {
    value != "" && IsTrimmed(value)
  }

  predicate ListEntries(values: seq<string>) {
    forall v :: v in values ==> ListEntry(v)
  }

  // ---- What a printer appends in one go ----

  /** `--name value` always, only when the value is not blank, or only when it
      differs from a default; `--name` when on; `--name=false` when off; and one
      `--name value` for every list entry. */
  datatype Item =
    | Required(name: Name, value: string)
    | Optional(name: Name, value: string)
    | Override(name: Name, value: string, standard: string)
    | TurnOn(name: Name, on: bool)
    | TurnOff(name: Name, on: bool)
    | Repeated(name: Name, values: seq<string>)

  function Entries(name: Name, values: seq<string>): seq<Segment> {
    if values == [] then [] else [Valued(name, values[0])] + Entries(name, values[1..])
  }

  function Pieces(item: Item): seq<Segment> {
    match item
    case Required(name, value) => [Valued(name, value)]
    case Optional(name, value) => if value != "" then [Valued(name, value)] else []
    case Override(name, value, standard) => if value != standard then [Valued(name, value)] else []
    case TurnOn(name, on) => if on then [Switch(name)] else []
    case TurnOff(name, on) => if on then [] else [Off(name)]
    case Repeated(name, values) => Entries(name, values)
  }

  /** A vector in the order its items are appended. */
  datatype Vector = Start | Then(before: Vector, item: Item)
  {
    function And(next: Item): Vector {
      Then(this, next)
    }
  }

  function Expand(v: Vector): seq<Segment> {
    match v
    case Start => []
    case Then(before, item) => Expand(before) + Pieces(item)
  }

  /** The argument vector itself. */
  function Print(v: Vector): seq<string> {
    match v
    case Start => []
    case Then(before, item) => Print(before) + Render(Pieces(item))
  }

  lemma {:induction false} PrintIsRender(v: Vector)
    ensures Print(v) == Render(Expand(v))
  {
    if v.Then? {
      PrintIsRender(v.before);
      RenderConcat(Expand(v.before), Pieces(v.item));
    }
  }

  lemma RenderOne(s: Segment)
    ensures Render([s]) == Tokens(s)
  {
  }
}
