/** The whole chain open -> quickstart -> scan keeps every option, and the
    admission verdicts on the vectors that it prints. */
module ArgumentChain {
  import opened Text
  import opened GoFlag
  import opened Admission
  import opened Segments
  import opened ArgumentVectors
  import opened ArgumentRoundTrips

  predicate ValidOpen(o: OpenOptions) {
    ListEntries(o.scipIndexes) && ListEntries(o.tracePaths)
  }

  // ---- What open parses ----

  function OpenRegistration(name: string): Option<Kind> {
    if name in {"python", "clean", "force", "no-browser", "workbench", "welcome"} then Some(Boolean)
    else if name in {"config", "out", "state-dir", "addr", "ready-file", "history"} then Some(PlainText)
    else if name in {"scip-index", "trace"} then Some(TextList)
    else None
  }

  /** Open's variables after a parse, as far as quickstart's vector depends on them. */
  function ReadOpen(a: seq<Assignment>): OpenOptions {
    OpenOptions(
      TextOf(a, Config, ""), TextOf(a, Out, ""), TextOf(a, StateDir, ""),
      SwitchOf(a, Python, false), SwitchOf(a, Clean, false), SwitchOf(a, Force, true),
      Reading(a, "workbench", BoolValue(false)) == BoolValue(true),
      ListOf(a, ScipIndex), ListOf(a, TracePath), TextOf(a, History, ""))
  }

  lemma OpenListsAreRegistered()
    ensures OpenRegistration(Spell(ScipIndex)) == Some(TextList) && OpenRegistration(Spell(TracePath)) == Some(TextList)
  {
  }

  lemma ParsedOpenIsValid(other: (string, string) -> bool, args: seq<string>)
    requires Parse(OpenRegistration, other, args).Parsed?
    ensures ValidOpen(ReadOpen(Parse(OpenRegistration, other, args).assignments))
  {
    OpenListsAreRegistered();
    ParsedListIsValid(OpenRegistration, other, args, Spell(ScipIndex), []);
    ParsedListIsValid(OpenRegistration, other, args, Spell(TracePath), []);
  }

  // ---- open -> quickstart ----

  /** The value of each quickstart flag that open prints, over quickstart's default. */
  function QuickstartValueFor(o: OpenOptions, atlas: string, onLinux: bool, name: Name, d: Value): Value
    requires RightKind(name, d)
  {
    match name
    case NoGitMetadata => BoolValue((o.workbench && !onLinux) || d.on)
    case Config => TextValue(Or(o.config, d.text))
    case Out => TextValue(atlas)
    case StateDir => TextValue(Or(o.state, d.text))
    case Python => BoolValue(o.enablePython || d.on)
    case Clean => BoolValue(o.clean || d.on)
    case Force => BoolValue(o.force && d.on)
    case ScipIndex => ListValue(d.entries + o.scipIndexes)
    case TracePath => ListValue(d.entries + o.tracePaths)
    case History => TextValue(Or(o.historyPath, d.text))
    case _ => d
  }

  predicate InOpenHead(name: Name) {
    name.NoGitMetadata? || name.Config? || name.Out? || name.StateDir? || name.Python?
  }

  lemma OpenHead(o: OpenOptions, atlas: string, onLinux: bool, name: Name, d: Value) returns (v: Vector)
    requires RightKind(name, d)
    ensures v == Start.And(TurnOn(NoGitMetadata, o.workbench && !onLinux)).And(Optional(Config, o.config))
                      .And(Required(Out, atlas)).And(Optional(StateDir, o.state)).And(TurnOn(Python, o.enablePython))
    ensures AllFit(v, name, d)
    ensures After(v, name, d) == if InOpenHead(name) then QuickstartValueFor(o, atlas, onLinux, name, d) else d
  {
    v := Start;
    v := Extend(v, TurnOn(NoGitMetadata, o.workbench && !onLinux), name, d);
    v := Extend(v, Optional(Config, o.config), name, d);
    v := Extend(v, Required(Out, atlas), name, d);
    v := Extend(v, Optional(StateDir, o.state), name, d);
    v := Extend(v, TurnOn(Python, o.enablePython), name, d);
  }

  lemma OpenTail(v: Vector, o: OpenOptions, atlas: string, onLinux: bool, name: Name, d: Value) returns (longer: Vector)
    requires ValidOpen(o) && RightKind(name, d) && AllFit(v, name, d)
    requires !InOpenHead(name) ==> After(v, name, d) == d
    ensures longer == v.And(TurnOn(Clean, o.clean)).And(TurnOff(Force, o.force)).And(Repeated(ScipIndex, o.scipIndexes))
                       .And(Repeated(TracePath, o.tracePaths)).And(Optional(History, o.historyPath))
    ensures AllFit(longer, name, d)
    ensures After(longer, name, d) ==
            if InOpenHead(name) then After(v, name, d) else QuickstartValueFor(o, atlas, onLinux, name, d)
  {
    longer := v;
    longer := Extend(longer, TurnOn(Clean, o.clean), name, d);
    longer := Extend(longer, TurnOff(Force, o.force), name, d);
    longer := Extend(longer, Repeated(ScipIndex, o.scipIndexes), name, d);
    longer := Extend(longer, Repeated(TracePath, o.tracePaths), name, d);
    longer := Extend(longer, Optional(History, o.historyPath), name, d);
  }

  lemma OpenItemsMean(o: OpenOptions, atlas: string, onLinux: bool, name: Name, d: Value)
    requires ValidOpen(o) && RightKind(name, d)
    ensures AllFit(OpenItems(o, atlas, onLinux), name, d)
    ensures After(OpenItems(o, atlas, onLinux), name, d) == QuickstartValueFor(o, atlas, onLinux, name, d)
  {
    var v := OpenHead(o, atlas, onLinux, name, d);
    v := OpenTail(v, o, atlas, onLinux, name, d);
  }

  lemma OpenHeadShaped(o: OpenOptions, atlas: string, onLinux: bool) returns (v: Vector)
    ensures v == Start.And(TurnOn(NoGitMetadata, o.workbench && !onLinux)).And(Optional(Config, o.config))
                      .And(Required(Out, atlas)).And(Optional(StateDir, o.state)).And(TurnOn(Python, o.enablePython))
    ensures AllShaped(v, NoPython, NoCache)
  {
    v := Start;
    v := ShapeOneMore(v, TurnOn(NoGitMetadata, o.workbench && !onLinux), NoPython, NoCache);
    v := ShapeOneMore(v, Optional(Config, o.config), NoPython, NoCache);
    v := ShapeOneMore(v, Required(Out, atlas), NoPython, NoCache);
    v := ShapeOneMore(v, Optional(StateDir, o.state), NoPython, NoCache);
    v := ShapeOneMore(v, TurnOn(Python, o.enablePython), NoPython, NoCache);
  }

  lemma OpenItemsShaped(o: OpenOptions, atlas: string, onLinux: bool)
    requires ValidOpen(o)
    ensures AllShaped(OpenItems(o, atlas, onLinux), NoPython, NoCache)
  {
    var v := OpenHeadShaped(o, atlas, onLinux);
    v := ShapeOneMore(v, TurnOn(Clean, o.clean), NoPython, NoCache);
    v := ShapeOneMore(v, TurnOff(Force, o.force), NoPython, NoCache);
    v := ShapeOneMore(v, Repeated(ScipIndex, o.scipIndexes), NoPython, NoCache);
    v := ShapeOneMore(v, Repeated(TracePath, o.tracePaths), NoPython, NoCache);
    v := ShapeOneMore(v, Optional(History, o.historyPath), NoPython, NoCache);
  }

  lemma OpenVectorParses(other: (string, string) -> bool, o: OpenOptions, atlas: string, root: string, onLinux: bool)
    requires ValidOpen(o) && Rooted(root)
    ensures Parse(QuickstartRegistration, other, Print(OpenItems(o, atlas, onLinux)) + [root]) ==
            Parsed(AsAssignments(Expand(OpenItems(o, atlas, onLinux))), [root])
  {
    var items := OpenItems(o, atlas, onLinux);
    PrintIsRender(items);
    OpenItemsShaped(o, atlas, onLinux);
    forall n: Name | n != NoPython && n != NoCache ensures QuickstartRegistration(Spell(n)) == Some(KindOf(n)) {
      QuickstartKinds(n);
    }
    VectorLegible(QuickstartRegistration, items, NoPython, NoCache);
    RenderedVectorParsesBack(QuickstartRegistration, other, Expand(items), root);
  }

  lemma OpenFlagReads(o: OpenOptions, atlas: string, onLinux: bool, name: Name, d: Value)
    requires ValidOpen(o) && RightKind(name, d)
    ensures Reading(AsAssignments(Expand(OpenItems(o, atlas, onLinux))), Spell(name), d) ==
            QuickstartValueFor(o, atlas, onLinux, name, d)
  {
    var items := OpenItems(o, atlas, onLinux);
    ReadingOfSegments(Expand(items), name, d);
    OpenItemsMean(o, atlas, onLinux, name, d);
    ReadVector(items, name, d);
  }

  /** The quickstart options an open run asks for. */
  function QuickstartFor(o: OpenOptions, atlas: string, onLinux: bool, lock: string): QuickstartOptions {
    QuickstartOptions(o.config, atlas, o.state, o.workbench && !onLinux, o.enablePython, o.clean, o.force,
                      o.scipIndexes, [], "", lock, false, o.tracePaths, o.historyPath)
  }

  /** The vector open hands to quickstart parses back into exactly those options. */
  lemma OpenVectorReparses(other: (string, string) -> bool, o: OpenOptions, atlas: string, root: string,
                           onLinux: bool, lock: string)
    requires ValidOpen(o) && Rooted(root)
    ensures var outcome := Parse(QuickstartRegistration, other, Print(OpenItems(o, atlas, onLinux)) + [root]);
            && outcome.Parsed? && outcome.operands == [root]
            && ReadQuickstart(outcome.assignments, lock) == QuickstartFor(o, atlas, onLinux, lock)
  {
    OpenVectorParses(other, o, atlas, root, onLinux);
    OpenTextsRead(o, atlas, onLinux, lock);
    OpenSwitchesAndListsRead(o, atlas, onLinux);
  }

  lemma OpenTextsRead(o: OpenOptions, atlas: string, onLinux: bool, lock: string)
    requires ValidOpen(o)
    ensures var a := AsAssignments(Expand(OpenItems(o, atlas, onLinux)));
            && TextOf(a, Config, "") == o.config && TextOf(a, Out, "") == atlas && TextOf(a, StateDir, "") == o.state
            && TextOf(a, ScipTool, "") == "" && TextOf(a, ScipLock, lock) == lock && TextOf(a, History, "") == o.historyPath
  {
    OpenFlagReads(o, atlas, onLinux, Config, TextValue(""));
    OpenFlagReads(o, atlas, onLinux, Out, TextValue(""));
    OpenFlagReads(o, atlas, onLinux, StateDir, TextValue(""));
    OpenFlagReads(o, atlas, onLinux, ScipTool, TextValue(""));
    OpenFlagReads(o, atlas, onLinux, ScipLock, TextValue(lock));
    OpenFlagReads(o, atlas, onLinux, History, TextValue(""));
  }

  lemma OpenSwitchesAndListsRead(o: OpenOptions, atlas: string, onLinux: bool)
    requires ValidOpen(o)
    ensures var a := AsAssignments(Expand(OpenItems(o, atlas, onLinux)));
            && SwitchOf(a, NoGitMetadata, false) == (o.workbench && !onLinux)
            && SwitchOf(a, Python, false) == o.enablePython && SwitchOf(a, Clean, false) == o.clean
            && SwitchOf(a, Force, true) == o.force && SwitchOf(a, ScipNoPinCheck, false) == false
            && ListOf(a, ScipIndex) == o.scipIndexes && ListOf(a, ScipGenerate) == [] && ListOf(a, TracePath) == o.tracePaths
  {
    OpenFlagReads(o, atlas, onLinux, NoGitMetadata, BoolValue(false));
    OpenFlagReads(o, atlas, onLinux, Python, BoolValue(false));
    OpenFlagReads(o, atlas, onLinux, Clean, BoolValue(false));
    OpenFlagReads(o, atlas, onLinux, Force, BoolValue(true));
    OpenFlagReads(o, atlas, onLinux, ScipNoPinCheck, BoolValue(false));
    OpenFlagReads(o, atlas, onLinux, ScipIndex, ListValue([]));
    OpenFlagReads(o, atlas, onLinux, ScipGenerate, ListValue([]));
    OpenFlagReads(o, atlas, onLinux, TracePath, ListValue([]));
    assert [] + o.scipIndexes == o.scipIndexes && [] + o.tracePaths == o.tracePaths;
  }

  /** End to end: what open was asked for is what scan is told, flag by flag,
      through two printers and two parsers. */
  lemma OpenReachesScan(other: (string, string) -> bool, o: OpenOptions, atlas: string, state: string, root: string,
                        onLinux: bool, lock: string)
    requires ValidOpen(o) && Rooted(root)
    ensures var first := Parse(QuickstartRegistration, other, Print(OpenItems(o, atlas, onLinux)) + [root]);
            first.Parsed? && first.operands == [root] &&
            var q := ReadQuickstart(first.assignments, lock);
            q.Valid() && q.output == atlas && q.state == o.state &&
            var second := Parse(ScanRegistration, other, Print(ScanItems(q, atlas, state, lock)) + first.operands);
            && second.Parsed? && second.operands == [root]
            && forall name, d :: RightKind(name, d) && (name == ScipLock ==> d == TextValue(lock)) ==>
                 Reading(second.assignments, Spell(name), d) ==
                 ScanValueFor(QuickstartFor(o, atlas, onLinux, lock), atlas, state, name, d)
  {
    OpenVectorReparses(other, o, atlas, root, onLinux, lock);
    ScanVectorReparses(other, QuickstartFor(o, atlas, onLinux, lock), atlas, state, root, lock);
  }

  // ---- Admission of the printed vectors ----

  /** Where a flag is boolean, the last explicit value is the variable's value. */
  lemma {:induction false} ReadingIsLastBool(registry: Registry, other: (string, string) -> bool, args: seq<string>,
                                             name: string, b: bool)
    requires Parse(registry, other, args).Parsed? && registry(name) == Some(Boolean)
    ensures var a := Parse(registry, other, args).assignments;
            Reading(a, name, BoolValue(b)) == BoolValue(if LastBool(a, name).Some? then LastBool(a, name).value else b)
    decreases |args|
  {
    if args != [] && Classify(args[0]).Flag? {
      var flag, text := Classify(args[0]).name, Classify(args[0]).text;
      var boolean := registry(flag) == Some(Boolean);
      var value := if text.Some? then text.value else if boolean then "true" else args[1];
      var rest := if boolean || text.Some? then args[1..] else args[2..];
      var head := Assignment(flag, value);
      assert Parse(registry, other, args) == Prepend(head, Parse(registry, other, rest));
      ReadingIsLastBool(registry, other, rest, name, if flag == name then ParseBool(value) == Some(true) else b);
      var later := Parse(registry, other, rest).assignments;
      assert ([head] + later)[1..] == later;
    }
  }

  lemma {:induction false} UnprintedFlagIsUnset(segments: seq<Segment>, name: string)
    requires Decode(name).None?
    ensures LastBool(AsAssignments(segments), name).None?
  {
    if segments != [] {
      DecodeSpell(segments[0].name);
      UnprintedFlagIsUnset(segments[1..], name);
      assert AsAssignments(segments)[1..] == AsAssignments(segments[1..]);
    }
  }

  lemma NoPluginsIsNeverPrinted()
    ensures Decode("no-plugins").None?
  {
  }

  /** Quickstart's vector passes scan admission, and open's passes quickstart
      admission, exactly when Python was not asked for. */
  lemma PrintedVectorsAreAdmitted(other: (string, string) -> bool, q: QuickstartOptions, o: OpenOptions,
                                  atlas: string, state: string, root: string, onLinux: bool, lock: string)
    requires q.Valid() && ValidOpen(o) && Rooted(root)
    ensures Admit("scan", Print(ScanItems(q, atlas, state, lock)) + [root]) == Admitted <==> !q.enablePython
    ensures Admit("quickstart", Print(OpenItems(o, atlas, onLinux)) + [root]) == Admitted <==> !o.enablePython
  {
    var scanArgs := Print(ScanItems(q, atlas, state, lock)) + [root];
    ScanVectorReparses(other, q, atlas, state, root, lock);
    ScanVectorParses(other, q, atlas, state, root, lock);
    ScanAdmissionIsExact(other, scanArgs, false, false);
    ScanKinds(NoPython);
    ReadingIsLastBool(ScanRegistration, other, scanArgs, Spell(NoPython), false);
    NoPluginsIsNeverPrinted();
    UnprintedFlagIsUnset(Expand(ScanItems(q, atlas, state, lock)), "no-plugins");
    var a := Parse(ScanRegistration, other, scanArgs).assignments;
    assert Reading(a, Spell(NoPython), BoolValue(false)) == BoolValue(!q.enablePython);

    var openArgs := Print(OpenItems(o, atlas, onLinux)) + [root];
    OpenVectorParses(other, o, atlas, root, onLinux);
    QuickstartAdmissionIsExact(other, openArgs);
    QuickstartKinds(Python);
    ReadingIsLastBool(QuickstartRegistration, other, openArgs, Spell(Python), false);
    OpenFlagReads(o, atlas, onLinux, Python, BoolValue(false));
  }
}
