/** open builds quickstart's argument vector and quickstart builds scan's.  Each
    printer is followed by a parser that the printer does not control, so the
    options must survive the trip whatever strings the user supplied. */
module ArgumentVectors {
  import opened Text
  import opened GoFlag
  import opened Admission
  import opened Segments

  datatype OpenOptions = OpenOptions(
    config: string, output: string, state: string,
    enablePython: bool, clean: bool, force: bool, workbench: bool,
    scipIndexes: seq<string>, tracePaths: seq<string>, historyPath: string)

  datatype QuickstartOptions = QuickstartOptions(
    config: string, output: string, state: string,
    noGitMetadata: bool, enablePython: bool, clean: bool, force: bool,
    scipIndexes: seq<string>, scipGenerate: seq<string>,
    scipTool: string, scipLock: string, scipNoPinCheck: bool,
    tracePaths: seq<string>, historyPath: string)
  {
    predicate Valid() {
      ListEntries(scipIndexes) && ListEntries(scipGenerate) && ListEntries(tracePaths)
    }
  }

  /** The variable behind a flag. */
  datatype Value = TextValue(text: string) | BoolValue(on: bool) | ListValue(entries: seq<string>)

  /** What the flag's Set method does to it. */
  function Assign(v: Value, text: string): Value {
    match v
    case TextValue(_) => TextValue(text)
    case BoolValue(_) => BoolValue(ParseBool(text) == Some(true))
    case ListValue(entries) => ListValue(entries + [TrimSpace(text)])
  }

  /** The variable of one flag after the assignments of a parse. */
  function Reading(assignments: seq<Assignment>, name: string, initial: Value): Value
    decreases |assignments|
  {
    if assignments == [] then initial
    else
      Reading(assignments[1..], name,
              if assignments[0].name == name then Assign(initial, assignments[0].text) else initial)
  }

  /** A text flag holds a text, whatever was assigned. */
  lemma {:induction false} TextStaysText(a: seq<Assignment>, flag: string, d: string)
    ensures Reading(a, flag, TextValue(d)).TextValue?
    decreases |a|
  {
    if a != [] {
      TextStaysText(a[1..], flag, if a[0].name == flag then a[0].text else d);
    }
  }

  function TextOf(assignments: seq<Assignment>, name: Name, standard: string): string {
    var v := Reading(assignments, Spell(name), TextValue(standard));
    if v.TextValue? then v.text else ""
  }

  function SwitchOf(assignments: seq<Assignment>, name: Name, standard: bool): bool {
    Reading(assignments, Spell(name), BoolValue(standard)) == BoolValue(true)
  }

  function ListOf(assignments: seq<Assignment>, name: Name): seq<string> {
    var v := Reading(assignments, Spell(name), ListValue([]));
    if v.ListValue? then v.entries else []
  }

  /** Quickstart's variables after a parse. */
  function ReadQuickstart(a: seq<Assignment>, defaultLock: string): QuickstartOptions {
    QuickstartOptions(
      TextOf(a, Config, ""), TextOf(a, Out, ""), TextOf(a, StateDir, ""),
      SwitchOf(a, NoGitMetadata, false), SwitchOf(a, Python, false), SwitchOf(a, Clean, false), SwitchOf(a, Force, true),
      ListOf(a, ScipIndex), ListOf(a, ScipGenerate),
      TextOf(a, ScipTool, ""), TextOf(a, ScipLock, defaultLock), SwitchOf(a, ScipNoPinCheck, false),
      ListOf(a, TracePath), TextOf(a, History, ""))
  }

  predicate IsList(name: Name) {
    name.ScipIndex? || name.ScipGenerate? || name.TracePath?
  }

  lemma ListsAreRegistered(name: Name)
    requires IsList(name)
    ensures QuickstartRegistration(Spell(name)) == Some(TextList)
  {
  }

  /** Whatever quickstart parsed, its lists hold only what Set can leave there. */
  lemma {:induction false} ParsedListIsValid(registry: Registry, other: (string, string) -> bool, args: seq<string>,
                                             name: string, entries: seq<string>)
    requires Parse(registry, other, args).Parsed? && registry(name) == Some(TextList) && ListEntries(entries)
    ensures var v := Reading(Parse(registry, other, args).assignments, name, ListValue(entries));
            v.ListValue? && ListEntries(v.entries)
    decreases |args|
  {
    if args != [] && Classify(args[0]).Flag? {
      var flag, text := Classify(args[0]).name, Classify(args[0]).text;
      var boolean := registry(flag) == Some(Boolean);
      var value := if text.Some? then text.value else if boolean then "true" else args[1];
      var rest := if boolean || text.Some? then args[1..] else args[2..];
      var head := Assignment(flag, value);
      assert Parse(registry, other, args) == Prepend(head, Parse(registry, other, rest));
      TrimSpaceTrims(value);
      ParsedListIsValid(registry, other, rest, name, if flag == name then entries + [TrimSpace(value)] else entries);
      var later := Parse(registry, other, rest).assignments;
      assert ([head] + later)[1..] == later;
    }
  }

  lemma ParsedOptionsAreValid(other: (string, string) -> bool, args: seq<string>, defaultLock: string)
    requires Parse(QuickstartRegistration, other, args).Parsed?
    ensures ReadQuickstart(Parse(QuickstartRegistration, other, args).assignments, defaultLock).Valid()
  {
    ListsAreRegistered(ScipIndex);
    ListsAreRegistered(ScipGenerate);
    ListsAreRegistered(TracePath);
    ParsedListIsValid(QuickstartRegistration, other, args, Spell(ScipIndex), []);
    ParsedListIsValid(QuickstartRegistration, other, args, Spell(ScipGenerate), []);
    ParsedListIsValid(QuickstartRegistration, other, args, Spell(TracePath), []);
  }

  // ---- The printers ----

  function OpenItems(o: OpenOptions, atlas: string, onLinux: bool): Vector {
    Start
    .And(TurnOn(NoGitMetadata, o.workbench && !onLinux))
    .And(Optional(Config, o.config))
    .And(Required(Out, atlas))
    .And(Optional(StateDir, o.state))
    .And(TurnOn(Python, o.enablePython))
    .And(TurnOn(Clean, o.clean))
    .And(TurnOff(Force, o.force))
    .And(Repeated(ScipIndex, o.scipIndexes))
    .And(Repeated(TracePath, o.tracePaths))
    .And(Optional(History, o.historyPath))
  }

  function ScanHeadItems(o: QuickstartOptions, atlas: string, state: string): Vector {
    Start
    .And(Required(Out, atlas))
    .And(Required(StateDir, state))
    .And(Optional(Config, o.config))
    .And(TurnOn(NoGitMetadata, o.noGitMetadata))
    .And(TurnOn(NoPython, !o.enablePython))
    .And(TurnOn(NoCache, o.clean))
    .And(TurnOn(Force, o.force))
  }

  function ScanItems(o: QuickstartOptions, atlas: string, state: string, defaultLock: string): Vector {
    ScanHeadItems(o, atlas, state)
    .And(Repeated(ScipIndex, o.scipIndexes))
    .And(Repeated(ScipGenerate, o.scipGenerate))
    .And(Optional(ScipTool, o.scipTool))
    .And(Override(ScipLock, o.scipLock, defaultLock))
    .And(TurnOn(ScipNoPinCheck, o.scipNoPinCheck))
    .And(Repeated(TracePath, o.tracePaths))
    .And(Optional(History, o.historyPath))
  }

  /** Each helper extends a vector that prints `built` by one item: the append of
      a flag and its value, a switch, or one pair for every entry of a list. */
  method AppendValue(args: seq<string>, ghost built: Vector, name: Name, value: string)
    returns (extended: seq<string>, ghost grown: Vector)
    requires args == Print(built)
    ensures extended == Print(grown) && grown == built.And(Required(name, value))
  {
    grown := built.And(Required(name, value));
    RenderOne(Valued(name, value));
    extended := args + ["--" + Spell(name), value];
  }

  method AppendText(args: seq<string>, ghost built: Vector, name: Name, value: string)
    returns (extended: seq<string>, ghost grown: Vector)
    requires args == Print(built)
    ensures extended == Print(grown) && grown == built.And(Optional(name, value))
  {
    grown := built.And(Optional(name, value));
    RenderOne(Valued(name, value));
    extended := args;
    if value != "" {
      extended := extended + ["--" + Spell(name), value];
    }
  }

  method AppendOverride(args: seq<string>, ghost built: Vector, name: Name, value: string, standard: string)
    returns (extended: seq<string>, ghost grown: Vector)
    requires args == Print(built)
    ensures extended == Print(grown) && grown == built.And(Override(name, value, standard))
  {
    grown := built.And(Override(name, value, standard));
    RenderOne(Valued(name, value));
    extended := args;
    if value != standard {
      extended := extended + ["--" + Spell(name), value];
    }
  }

  method AppendSwitch(args: seq<string>, ghost built: Vector, name: Name, on: bool)
    returns (extended: seq<string>, ghost grown: Vector)
    requires args == Print(built)
    ensures extended == Print(grown) && grown == built.And(TurnOn(name, on))
  {
    grown := built.And(TurnOn(name, on));
    RenderOne(Switch(name));
    extended := args;
    if on {
      extended := extended + ["--" + Spell(name)];
    }
  }

  lemma NextEntry(name: Name, values: seq<string>, i: nat)
    requires i < |values|
    ensures Render(Entries(name, values[i..])) == ["--" + Spell(name), values[i]] + Render(Entries(name, values[i + 1..]))
  {
    assert Entries(name, values[i..]) == [Valued(name, values[i])] + Entries(name, values[i + 1..]);
  }

  method AppendList(args: seq<string>, ghost built: Vector, name: Name, values: seq<string>)
    returns (extended: seq<string>, ghost grown: Vector)
    requires args == Print(built)
    ensures extended == Print(grown) && grown == built.And(Repeated(name, values))
  {
    grown := built.And(Repeated(name, values));
    extended := args;
    for i := 0 to |values|
      invariant extended + Render(Entries(name, values[i..])) == args + Render(Entries(name, values))
    {
      NextEntry(name, values, i);
      extended := extended + ["--" + Spell(name), values[i]];
    }
  }

  /** runQuickstartWithSource, from the resolved paths on. */
  method BuildScanArguments(o: QuickstartOptions, atlas: string, state: string, root: string, defaultLock: string)
    returns (args: seq<string>)
    ensures args == Print(ScanItems(o, atlas, state, defaultLock)) + [root]
  {
    ghost var built := Start;
    args := [];
    args, built := AppendValue(args, built, Out, atlas);
    args, built := AppendValue(args, built, StateDir, state);
    args, built := AppendText(args, built, Config, o.config);
    args, built := AppendSwitch(args, built, NoGitMetadata, o.noGitMetadata);
    args, built := AppendSwitch(args, built, NoPython, !o.enablePython);
    args, built := AppendSwitch(args, built, NoCache, o.clean);
    args, built := AppendSwitch(args, built, Force, o.force);
    args, built := AppendList(args, built, ScipIndex, o.scipIndexes);
    args, built := AppendList(args, built, ScipGenerate, o.scipGenerate);
    args, built := AppendText(args, built, ScipTool, o.scipTool);
    args, built := AppendOverride(args, built, ScipLock, o.scipLock, defaultLock);
    args, built := AppendSwitch(args, built, ScipNoPinCheck, o.scipNoPinCheck);
    args, built := AppendList(args, built, TracePath, o.tracePaths);
    args, built := AppendText(args, built, History, o.historyPath);
    assert built == ScanItems(o, atlas, state, defaultLock);
    args := args + [root];
  }

  /** runOpenContext, from the resolved paths on. */
  method BuildQuickstartArguments(o: OpenOptions, atlas: string, root: string, onLinux: bool) returns (args: seq<string>)
    ensures args == Print(OpenItems(o, atlas, onLinux)) + [root]
  {
    ghost var built := Start;
    args := [];
    args, built := AppendSwitch(args, built, NoGitMetadata, o.workbench && !onLinux);
    args, built := AppendText(args, built, Config, o.config);
    args, built := AppendValue(args, built, Out, atlas);
    args, built := AppendText(args, built, StateDir, o.state);
    args, built := AppendSwitch(args, built, Python, o.enablePython);
    args, built := AppendSwitch(args, built, Clean, o.clean);
    RenderOne(Off(Force));
    if !o.force {
      args := args + ["--" + Spell(Force) + "=false"];
    }
    built := built.And(TurnOff(Force, o.force));
    args, built := AppendList(args, built, ScipIndex, o.scipIndexes);
    args, built := AppendList(args, built, TracePath, o.tracePaths);
    args, built := AppendText(args, built, History, o.historyPath);
    assert built == OpenItems(o, atlas, onLinux);
    args := args + [root];
  }
}
