/** The commands themselves: open as far as the call of quickstart, and
    quickstart as far as the call of scan, from the user's own arguments.  What
    scan reads is stated by the flags as the user spells them. */
module CommandChain {
  import opened Text
  import opened GoFlag
  import opened Admission
  import opened Segments
  import opened ArgumentVectors
  import opened ArgumentRoundTrips
  import opened ArgumentChain

  /** filepath.Abs and filepath.Join in one working directory. */
  datatype System = System(absolute: string -> string, join: (string, string) -> string)

  /** An absolute path is its own, is rooted, and stays so when it is extended. */
  ghost predicate Sane(system: System) {
    && (forall p :: Rooted(system.absolute(p)) && system.absolute(system.absolute(p)) == system.absolute(p))
    && (forall p, n :: var path := system.join(system.absolute(p), n); Rooted(path) && system.absolute(path) == path)
  }

  /** The repository: the one operand, or the working directory. */
  function RootOf(system: System, operands: seq<string>): string {
    system.absolute(if operands == [] then "." else operands[0])
  }

  function PathOr(system: System, path: string, root: string, standard: string): string {
    if path == "" then system.join(root, standard) else path
  }

  /** Where a command works: in the repository it is given, or else in the working
      directory; and it writes where it is told, or else below the root. */
  lemma PathsAsGiven(system: System, repository: string, path: string, root: string, standard: string)
    ensures RootOf(system, [repository]) == system.absolute(repository) && RootOf(system, []) == system.absolute(".")
    ensures path != "" ==> PathOr(system, path, root, standard) == path
    ensures PathOr(system, "", root, standard) == system.join(root, standard)
  {
  }

  // ---- quickstart ----

  /** The vector quickstart hands to scan, if it gets that far. */
  function QuickstartCall(system: System, other: (string, string) -> bool, args: seq<string>, lock: string): Option<seq<string>> {
    match Parse(QuickstartRegistration, other, args)
    case Failed(_) => None
    case Parsed(a, operands) =>
      if |operands| > 1 then None
      else
        var q, root := ReadQuickstart(a, lock), RootOf(system, operands);
        var atlas := system.absolute(PathOr(system, q.output, root, ".rkc"));
        var state := system.absolute(PathOr(system, q.state, root, ".rkc-state"));
        Some(Print(ScanItems(q, atlas, state, lock)) + [root])
  }

  method RunQuickstart(system: System, other: (string, string) -> bool, args: seq<string>, lock: string)
    returns (scan: Option<seq<string>>)
    ensures scan == QuickstartCall(system, other, args, lock)
  {
    var outcome := Parse(QuickstartRegistration, other, args);
    if outcome.Failed? || |outcome.operands| > 1 {
      return None;
    }
    var repository := ".";
    if |outcome.operands| == 1 {
      repository := outcome.operands[0];
    }
    var q, root := ReadQuickstart(outcome.assignments, lock), system.absolute(repository);
    var output, state := q.output, q.state;
    if output == "" {
      output := system.join(root, ".rkc");
    }
    if state == "" {
      state := system.join(root, ".rkc-state");
    }
    var vector := BuildScanArguments(q, system.absolute(output), system.absolute(state), root, lock);
    scan := Some(vector);
  }

  // ---- open ----

  /** The vector open hands to quickstart, if it gets that far; `refused` stands
      for its other refusals and for a fresh workspace, which compiles nothing. */
  function OpenCall(system: System, other: (string, string) -> bool, args: seq<string>, refused: bool, onLinux: bool)
    : Option<seq<string>>
  {
    match Parse(OpenRegistration, other, args)
    case Failed(_) => None
    case Parsed(a, operands) =>
      var o := ReadOpen(a);
      if |operands| > 1 || o.enablePython || refused then None
      else
        var root := RootOf(system, operands);
        var atlas := if o.output == "" then system.join(root, ".rkc") else system.absolute(o.output);
        Some(Print(OpenItems(o, atlas, onLinux)) + [root])
  }

  method RunOpen(system: System, other: (string, string) -> bool, args: seq<string>, refused: bool, onLinux: bool)
    returns (quickstart: Option<seq<string>>)
    ensures quickstart == OpenCall(system, other, args, refused, onLinux)
  {
    var outcome := Parse(OpenRegistration, other, args);
    if outcome.Failed? || |outcome.operands| > 1 {
      return None;
    }
    var o := ReadOpen(outcome.assignments);
    if o.enablePython || refused {
      return None;
    }
    var repository := ".";
    if |outcome.operands| == 1 {
      repository := outcome.operands[0];
    }
    var root := system.absolute(repository);
    var atlas := system.join(root, ".rkc");
    if o.output != "" {
      atlas := system.absolute(o.output);
    }
    var vector := BuildQuickstartArguments(o, atlas, root, onLinux);
    quickstart := Some(vector);
  }

  // ---- What was given, by the flag's own name ----

  function Given(a: seq<Assignment>, flag: string): string {
    var v := Reading(a, flag, TextValue(""));
    if v.TextValue? then v.text else ""
  }

  predicate Asked(a: seq<Assignment>, flag: string, standard: bool) {
    Reading(a, flag, BoolValue(standard)) == BoolValue(true)
  }

  function Listed(a: seq<Assignment>, flag: string): seq<string> {
    var v := Reading(a, flag, ListValue([]));
    if v.ListValue? then v.entries else []
  }

  /** A text flag of scan: the given text, or scan's own default. */
  ghost predicate ScanText(b: seq<Assignment>, flag: string, text: string) {
    forall d :: Reading(b, flag, TextValue(d)) == TextValue(if text == "" then d else text)
  }

  /** A switch of scan: on if asked for, or by default. */
  ghost predicate ScanSwitch(b: seq<Assignment>, flag: string, on: bool) {
    forall d :: Reading(b, flag, BoolValue(d)) == BoolValue(on || d)
  }

  ghost predicate ScanList(b: seq<Assignment>, flag: string, values: seq<string>) {
    forall d :: Reading(b, flag, ListValue(d)) == ListValue(d + values)
  }

  /** What scan gets by way of both commands. */
  ghost predicate ScanGetsCommon(b: seq<Assignment>, a: seq<Assignment>) {
    && ScanText(b, "config", Given(a, "config")) && ScanText(b, "history", Given(a, "history"))
    && ScanList(b, "scip-index", Listed(a, "scip-index")) && ScanList(b, "trace", Listed(a, "trace"))
    && ScanSwitch(b, "no-cache", Asked(a, "clean", false)) && ScanSwitch(b, "force", Asked(a, "force", true))
  }

  /** What scan gets of the indexers that only quickstart knows. */
  ghost predicate ScanGetsIndexers(b: seq<Assignment>, a: seq<Assignment>, lock: string) {
    && ScanList(b, "scip-generate", Listed(a, "scip-generate")) && ScanText(b, "scip-tool", Given(a, "scip-tool"))
    && Reading(b, "scip-lock", TextValue(lock)) == Reading(a, "scip-lock", TextValue(lock))
    && ScanSwitch(b, "scip-no-pin-check", Asked(a, "scip-no-pin-check", false))
  }

  /** Where scan writes, below the root unless a path was given. */
  ghost predicate ScanGetsPaths(system: System, b: seq<Assignment>, a: seq<Assignment>, root: string) {
    && (forall d :: Reading(b, "out", TextValue(d)) == TextValue(system.absolute(PathOr(system, Given(a, "out"), root, ".rkc"))))
    && (forall d :: Reading(b, "state-dir", TextValue(d))
                 == TextValue(system.absolute(PathOr(system, Given(a, "state-dir"), root, ".rkc-state"))))
  }

  // ---- quickstart's arguments at scan ----

  /** What ScanVectorReparses says of the assignments of scan's parse. */
  ghost predicate Arrives(b: seq<Assignment>, q: QuickstartOptions, atlas: string, state: string, lock: string) {
    forall name, d :: RightKind(name, d) && (name == ScipLock ==> d == TextValue(lock)) ==>
      Reading(b, Spell(name), d) == ScanValueFor(q, atlas, state, name, d)
  }

  lemma ArrivedText(b: seq<Assignment>, q: QuickstartOptions, atlas: string, state: string, lock: string, name: Name, text: string)
    requires Arrives(b, q, atlas, state, lock) && name in {Config, History, ScipTool}
    requires text == (if name == Config then q.config else if name == History then q.historyPath else q.scipTool)
    ensures ScanText(b, Spell(name), text)
  {
    forall d ensures Reading(b, Spell(name), TextValue(d)) == TextValue(if text == "" then d else text) {
      assert Reading(b, Spell(name), TextValue(d)) == ScanValueFor(q, atlas, state, name, TextValue(d));
    }
  }

  lemma ArrivedSwitch(b: seq<Assignment>, q: QuickstartOptions, atlas: string, state: string, lock: string, name: Name, on: bool)
    requires Arrives(b, q, atlas, state, lock) && name in {NoCache, Force, NoPython, NoGitMetadata, ScipNoPinCheck}
    requires on == match name
                   case NoCache => q.clean
                   case Force => q.force
                   case NoPython => !q.enablePython
                   case NoGitMetadata => q.noGitMetadata
                   case _ => q.scipNoPinCheck
    ensures ScanSwitch(b, Spell(name), on)
  {
    forall d ensures Reading(b, Spell(name), BoolValue(d)) == BoolValue(on || d) {
      assert Reading(b, Spell(name), BoolValue(d)) == ScanValueFor(q, atlas, state, name, BoolValue(d));
    }
  }

  lemma ArrivedList(b: seq<Assignment>, q: QuickstartOptions, atlas: string, state: string, lock: string, name: Name,
                    values: seq<string>)
    requires Arrives(b, q, atlas, state, lock) && IsList(name)
    requires values == (if name == ScipIndex then q.scipIndexes else if name == ScipGenerate then q.scipGenerate else q.tracePaths)
    ensures ScanList(b, Spell(name), values)
  {
    forall d ensures Reading(b, Spell(name), ListValue(d)) == ListValue(d + values) {
      assert Reading(b, Spell(name), ListValue(d)) == ScanValueFor(q, atlas, state, name, ListValue(d));
    }
  }

  lemma ArrivedCommon(b: seq<Assignment>, q: QuickstartOptions, atlas: string, state: string, lock: string)
    requires Arrives(b, q, atlas, state, lock)
    ensures ScanText(b, "config", q.config) && ScanText(b, "history", q.historyPath)
    ensures ScanList(b, "scip-index", q.scipIndexes) && ScanList(b, "trace", q.tracePaths)
  {
    PathNames();
    ListNames();
    ArrivedText(b, q, atlas, state, lock, Config, q.config);
    ArrivedText(b, q, atlas, state, lock, History, q.historyPath);
    ArrivedList(b, q, atlas, state, lock, ScipIndex, q.scipIndexes);
    ArrivedList(b, q, atlas, state, lock, TracePath, q.tracePaths);
  }

  lemma ArrivedSwitches(b: seq<Assignment>, q: QuickstartOptions, atlas: string, state: string, lock: string)
    requires Arrives(b, q, atlas, state, lock)
    ensures ScanSwitch(b, "no-cache", q.clean) && ScanSwitch(b, "force", q.force)
    ensures ScanSwitch(b, "no-python", !q.enablePython) && ScanSwitch(b, "no-git-metadata", q.noGitMetadata)
  {
    ArrivedSwitch(b, q, atlas, state, lock, NoCache, q.clean);
    ArrivedSwitch(b, q, atlas, state, lock, Force, q.force);
    ArrivedSwitch(b, q, atlas, state, lock, NoPython, !q.enablePython);
    ArrivedSwitch(b, q, atlas, state, lock, NoGitMetadata, q.noGitMetadata);
  }

  lemma ArrivedIndexers(b: seq<Assignment>, q: QuickstartOptions, atlas: string, state: string, lock: string)
    requires Arrives(b, q, atlas, state, lock)
    ensures ScanList(b, "scip-generate", q.scipGenerate) && ScanText(b, "scip-tool", q.scipTool)
    ensures Reading(b, "scip-lock", TextValue(lock)) == TextValue(q.scipLock)
    ensures ScanSwitch(b, "scip-no-pin-check", q.scipNoPinCheck)
  {
    ArrivedList(b, q, atlas, state, lock, ScipGenerate, q.scipGenerate);
    ArrivedText(b, q, atlas, state, lock, ScipTool, q.scipTool);
    assert Reading(b, Spell(ScipLock), TextValue(lock)) == ScanValueFor(q, atlas, state, ScipLock, TextValue(lock));
    ArrivedSwitch(b, q, atlas, state, lock, ScipNoPinCheck, q.scipNoPinCheck);
  }

  lemma ArrivedPaths(b: seq<Assignment>, q: QuickstartOptions, atlas: string, state: string, lock: string)
    requires Arrives(b, q, atlas, state, lock)
    ensures forall d :: Reading(b, "out", TextValue(d)) == TextValue(atlas)
    ensures forall d :: Reading(b, "state-dir", TextValue(d)) == TextValue(state)
  {
    assert Spell(Out) == "out" && Spell(StateDir) == "state-dir";
    forall d ensures Reading(b, "out", TextValue(d)) == TextValue(atlas) {
      assert Reading(b, Spell(Out), TextValue(d)) == ScanValueFor(q, atlas, state, Out, TextValue(d));
    }
    forall d ensures Reading(b, "state-dir", TextValue(d)) == TextValue(state) {
      assert Reading(b, Spell(StateDir), TextValue(d)) == ScanValueFor(q, atlas, state, StateDir, TextValue(d));
    }
  }

  lemma PathNames()
    ensures Spell(Config) == "config" && Spell(Out) == "out" && Spell(StateDir) == "state-dir" && Spell(History) == "history"
  {
  }

  lemma SwitchNames()
    ensures Spell(NoGitMetadata) == "no-git-metadata" && Spell(Python) == "python" && Spell(Clean) == "clean"
    ensures Spell(Force) == "force" && Spell(ScipNoPinCheck) == "scip-no-pin-check"
  {
  }

  lemma ListNames()
    ensures Spell(ScipIndex) == "scip-index" && Spell(ScipGenerate) == "scip-generate" && Spell(TracePath) == "trace"
    ensures Spell(ScipTool) == "scip-tool" && Spell(ScipLock) == "scip-lock"
  {
  }

  /** The options record is what was given, flag by flag. */
  lemma QuickstartReads(a: seq<Assignment>, lock: string)
    ensures var q := ReadQuickstart(a, lock);
            && q.config == Given(a, "config") && q.output == Given(a, "out") && q.state == Given(a, "state-dir")
            && q.historyPath == Given(a, "history")
  {
    PathNames();
  }

  lemma QuickstartReadsSwitches(a: seq<Assignment>, lock: string)
    ensures var q := ReadQuickstart(a, lock);
            && q.noGitMetadata == Asked(a, "no-git-metadata", false) && q.enablePython == Asked(a, "python", false)
            && q.clean == Asked(a, "clean", false) && q.force == Asked(a, "force", true)
            && q.scipNoPinCheck == Asked(a, "scip-no-pin-check", false)
  {
    SwitchNames();
  }

  lemma QuickstartReadsIndexers(a: seq<Assignment>, lock: string)
    ensures var q := ReadQuickstart(a, lock);
            && q.scipIndexes == Listed(a, "scip-index") && q.scipGenerate == Listed(a, "scip-generate")
            && q.scipTool == Given(a, "scip-tool") && TextValue(q.scipLock) == Reading(a, "scip-lock", TextValue(lock))
            && q.tracePaths == Listed(a, "trace")
  {
    ListNames();
    TextStaysText(a, "scip-lock", lock);
  }

  /** From the user's arguments to quickstart: scan reads every flag as the user
      gave it, over its own default. */
  lemma QuickstartCommandReachesScan(system: System, other: (string, string) -> bool, args: seq<string>, lock: string)
    requires Sane(system) && QuickstartCall(system, other, args, lock).Some?
    ensures var first := Parse(QuickstartRegistration, other, args);
            var second := Parse(ScanRegistration, other, QuickstartCall(system, other, args, lock).value);
            && first.Parsed? && second.Parsed? && second.operands == [RootOf(system, first.operands)]
            && ScanGetsCommon(second.assignments, first.assignments)
            && ScanGetsIndexers(second.assignments, first.assignments, lock)
            && ScanGetsPaths(system, second.assignments, first.assignments, RootOf(system, first.operands))
            && ScanSwitch(second.assignments, "no-python", !Asked(first.assignments, "python", false))
            && ScanSwitch(second.assignments, "no-git-metadata", Asked(first.assignments, "no-git-metadata", false))
  {
    var first := Parse(QuickstartRegistration, other, args);
    var a, root := first.assignments, RootOf(system, first.operands);
    var q := ReadQuickstart(a, lock);
    ParsedOptionsAreValid(other, args, lock);
    var atlas := system.absolute(PathOr(system, q.output, root, ".rkc"));
    var state := system.absolute(PathOr(system, q.state, root, ".rkc-state"));
    ScanVectorReparses(other, q, atlas, state, root, lock);
    var b := Parse(ScanRegistration, other, Print(ScanItems(q, atlas, state, lock)) + [root]).assignments;
    assert Arrives(b, q, atlas, state, lock);
    ArrivedCommon(b, q, atlas, state, lock);
    ArrivedSwitches(b, q, atlas, state, lock);
    ArrivedIndexers(b, q, atlas, state, lock);
    ArrivedPaths(b, q, atlas, state, lock);
    QuickstartReads(a, lock);
    QuickstartReadsSwitches(a, lock);
    QuickstartReadsIndexers(a, lock);
  }

  // ---- open's arguments at scan ----

  lemma OpenReads(a: seq<Assignment>)
    ensures var o := ReadOpen(a);
            && o.config == Given(a, "config") && o.output == Given(a, "out") && o.state == Given(a, "state-dir")
            && o.historyPath == Given(a, "history")
  {
    PathNames();
  }

  lemma OpenReadsRest(a: seq<Assignment>)
    ensures var o := ReadOpen(a);
            && o.enablePython == Asked(a, "python", false) && o.clean == Asked(a, "clean", false)
            && o.force == Asked(a, "force", true) && o.workbench == Asked(a, "workbench", false)
            && o.scipIndexes == Listed(a, "scip-index") && o.tracePaths == Listed(a, "trace")
  {
    SwitchNames();
    ListNames();
  }

  /** Which commands get that far. */
  lemma CallsGoThroughIff(system: System, other: (string, string) -> bool, args: seq<string>, refused: bool, onLinux: bool, lock: string)
    ensures var outcome := Parse(QuickstartRegistration, other, args);
            QuickstartCall(system, other, args, lock).Some? <==> outcome.Parsed? && |outcome.operands| <= 1
    ensures var outcome := Parse(OpenRegistration, other, args);
            OpenCall(system, other, args, refused, onLinux).Some? <==>
            outcome.Parsed? && |outcome.operands| <= 1 && !Asked(outcome.assignments, "python", false) && !refused
  {
    SwitchNames();
  }

  /** From the user's arguments to open: quickstart gets the repository and the
      paths as open resolved them, and accepts the vector. */
  lemma OpenCallReachesQuickstart(system: System, other: (string, string) -> bool, args: seq<string>, refused: bool,
                                  onLinux: bool, lock: string)
    requires Sane(system) && OpenCall(system, other, args, refused, onLinux).Some?
    ensures var first := Parse(OpenRegistration, other, args);
            first.Parsed? &&
            var root, o := RootOf(system, first.operands), ReadOpen(first.assignments);
            var q := QuickstartFor(o, if o.output == "" then system.join(root, ".rkc") else system.absolute(o.output), onLinux, lock);
            q.Valid() && QuickstartCall(system, other, OpenCall(system, other, args, refused, onLinux).value, lock) ==
            Some(Print(ScanItems(q, system.absolute(PathOr(system, o.output, root, ".rkc")),
                                 system.absolute(PathOr(system, o.state, root, ".rkc-state")), lock)) + [root])
  {
    var first := Parse(OpenRegistration, other, args);
    var root, o := RootOf(system, first.operands), ReadOpen(first.assignments);
    var atlas := if o.output == "" then system.join(root, ".rkc") else system.absolute(o.output);
    ParsedOpenIsValid(other, args);
    OpenVectorReparses(other, o, atlas, root, onLinux, lock);
    assert RootOf(system, [root]) == root;
  }

  /** End to end: whatever arguments open could parse, scan reads every flag as
      the user gave it to open; Python, which open refuses, is off. */
  lemma OpenCommandReachesScan(system: System, other: (string, string) -> bool, args: seq<string>, refused: bool,
                               onLinux: bool, lock: string)
    requires Sane(system) && OpenCall(system, other, args, refused, onLinux).Some?
    ensures var first := Parse(OpenRegistration, other, args);
            var quickstart := OpenCall(system, other, args, refused, onLinux).value;
            first.Parsed? && QuickstartCall(system, other, quickstart, lock).Some? &&
            var second := Parse(ScanRegistration, other, QuickstartCall(system, other, quickstart, lock).value);
            && second.Parsed? && second.operands == [RootOf(system, first.operands)]
            && ScanGetsCommon(second.assignments, first.assignments)
            && ScanGetsPaths(system, second.assignments, first.assignments, RootOf(system, first.operands))
            && ScanSwitch(second.assignments, "no-python", true)
            && ScanSwitch(second.assignments, "no-git-metadata", Asked(first.assignments, "workbench", false) && !onLinux)
  {
    var first := Parse(OpenRegistration, other, args);
    var a, root, o := first.assignments, RootOf(system, first.operands), ReadOpen(first.assignments);
    var atlas := if o.output == "" then system.join(root, ".rkc") else system.absolute(o.output);
    var q := QuickstartFor(o, atlas, onLinux, lock);
    OpenCallReachesQuickstart(system, other, args, refused, onLinux, lock);
    var out, state := system.absolute(PathOr(system, o.output, root, ".rkc")), system.absolute(PathOr(system, o.state, root, ".rkc-state"));
    ScanVectorReparses(other, q, out, state, root, lock);
    var b := Parse(ScanRegistration, other, Print(ScanItems(q, out, state, lock)) + [root]).assignments;
    assert Arrives(b, q, out, state, lock);
    ArrivedCommon(b, q, out, state, lock);
    ArrivedSwitches(b, q, out, state, lock);
    ArrivedPaths(b, q, out, state, lock);
    OpenReads(a);
    OpenReadsRest(a);
  }
}
