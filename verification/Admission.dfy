/** The safety preflight of the direct commands: a hand-written scan of the
    argument vector that must see exactly what Go's flag parser will see. */
module Admission {
  import opened Text
  import opened GoFlag

  datatype Reason =
    | UnsupportedCommand
    | MissingSubcommand
    | UndefinedFlag(name: string)
    | MissingArgument(name: string)
    | InvalidBoolean(name: string, text: string)
    | NeedsExplicitDisable
    | PythonRequested

  datatype Verdict = HelpRequest | Admitted | Rejected(reason: Reason)

  datatype DirectFlag = NotFlag | Named(name: string, text: Option<string>)

  function TrimDash(s: string): string {
    if s != "" && s[0] == '-' then s[1..] else s
  }

  /** directAdmissionFlag. */
  function ReadFlag(argument: string): DirectFlag {
    if argument == "" || argument == "-" || argument[0] != '-' then NotFlag
    else
      var trimmed := TrimDash(TrimDash(argument));
      if trimmed == "" || trimmed[0] == '-' then NotFlag
      else
        var cut := FirstEquals(trimmed, 0);
        if cut == 0 then NotFlag
        else if cut == |trimmed| then Named(trimmed, None)
        else Named(trimmed[..cut], Some(trimmed[cut + 1..]))
  }

  /** The two readings of a token agree; what Go calls malformed is no flag here. */
  lemma ReadFlagAgrees(s: string)
    ensures match Classify(s)
            case Flag(name, text) => ReadFlag(s) == Named(name, text) && s != "--"
            case Terminator => s == "--"
            case _ => ReadFlag(s) == NotFlag && s != "--"
  {
  }

  // ---- The admission tables, as the preflight declares them ----

  const SCAN_BOOLEANS := {
    "allow-file-url", "fail-on-errors", "force", "include-sources",
    "json", "keep-materialized", "no-cache", "no-env-keys",
    "no-frameworks", "no-go", "no-git-metadata", "no-integrations", "no-json-schema",
    "no-jsonl-graph", "no-manifests", "no-markdown", "no-openapi",
    "no-plugins", "no-python", "no-search-index", "no-secret-scan",
    "no-static-site", "no-typescript", "submodules",
    "scip-no-pin-check", "unsafe-include-secret-values"
  }

  const SCAN_VALUES := {
    "acquire-temp", "cache-dir", "clone-depth", "config",
    "database", "exclude", "git", "git-timeout",
    "max-file-bytes", "max-files", "max-repository-bytes",
    "max-text-bytes", "notebook-pack-bytes", "out",
    "plugin-output-bytes", "plugin-timeout", "python",
    "python-plugin", "ref", "runs-dir", "scip-generate",
    "scip-index", "scip-lock", "scip-tool",
    "stage-memory-mib", "stage-workers", "state-dir", "trace", "history"
  }

  const QUICKSTART_BOOLEANS := {"clean", "force", "python", "scip-no-pin-check", "no-git-metadata"}

  const QUICKSTART_VALUES := {
    "config", "out", "scip-generate", "scip-index",
    "scip-lock", "scip-tool", "state-dir", "trace", "history"
  }

  const PLAN_BOOLEANS := {
    "json", "no-cache", "no-env-keys", "no-frameworks",
    "no-go", "no-json-schema", "no-manifests", "no-markdown",
    "no-openapi", "no-plugins", "no-python", "no-secret-scan", "no-typescript"
  }

  const PLAN_VALUES := {
    "cache-dir", "config", "exclude", "history",
    "max-file-bytes", "max-files", "max-repository-bytes",
    "max-text-bytes", "plugin-output-bytes", "plugin-timeout",
    "python", "scip-index", "trace"
  }

  datatype Tables = Tables(booleans: set<string>, values: set<string>)

  const COMMANDS := {"workspace", "scan", "quickstart", "scip", "trace", "plan"}

  function TablesFor(command: string): Tables {
    if command == "workspace" then Tables({}, {"workspace", "timeout"})
    else if command == "scan" then Tables(SCAN_BOOLEANS, SCAN_VALUES)
    else if command == "quickstart" then Tables(QUICKSTART_BOOLEANS, QUICKSTART_VALUES)
    else if command == "scip" then
      Tables({"json", "no-pin-check"}, {"language", "lock", "out", "output", "timeout", "tool", "tool-args"})
    else if command == "trace" then Tables({"json"}, {"dir", "environment-key", "out", "timeout"})
    else Tables(PLAN_BOOLEANS, PLAN_VALUES)
  }

  function Subcommand(command: string): Option<string> {
    if command == "workspace" then Some("sync")
    else if command == "scip" then Some("generate")
    else if command == "trace" then Some("capture")
    else None
  }

  // ---- The flags the commands themselves register ----

  function ScanRegistration(name: string): Option<Kind> {
    if name in {
        "no-cache", "no-plugins", "no-git-metadata", "no-python", "no-go", "no-typescript",
        "scip-no-pin-check", "no-frameworks", "no-markdown", "no-openapi", "no-json-schema",
        "no-manifests", "no-env-keys", "no-secret-scan", "unsafe-include-secret-values",
        "include-sources", "no-static-site", "no-jsonl-graph", "no-search-index",
        "no-integrations", "force", "json", "fail-on-errors", "submodules",
        "keep-materialized", "allow-file-url"} then Some(Boolean)
    else if name in {
        "config", "out", "state-dir", "database", "cache-dir", "runs-dir", "python",
        "python-plugin", "scip-tool", "scip-lock", "history", "git", "ref", "acquire-temp"} then Some(PlainText)
    else if name in {"scip-index", "scip-generate", "trace", "exclude"} then Some(TextList)
    else if name in {
        "stage-workers", "stage-memory-mib", "max-file-bytes", "max-text-bytes",
        "max-repository-bytes", "max-files", "plugin-timeout", "plugin-output-bytes",
        "notebook-pack-bytes", "clone-depth", "git-timeout"} then Some(Other)
    else None
  }

  function QuickstartRegistration(name: string): Option<Kind> {
    if name in {"no-git-metadata", "python", "clean", "force", "scip-no-pin-check"} then Some(Boolean)
    else if name in {"config", "out", "state-dir", "scip-tool", "scip-lock", "history"} then Some(PlainText)
    else if name in {"scip-index", "scip-generate", "trace"} then Some(TextList)
    else None
  }

  function PlanRegistration(name: string): Option<Kind> {
    if name in {
        "no-cache", "no-plugins", "no-python", "no-go", "no-typescript", "no-frameworks",
        "no-markdown", "no-openapi", "no-json-schema", "no-manifests", "no-env-keys",
        "no-secret-scan", "json"} then Some(Boolean)
    else if name in {"config", "cache-dir", "python", "history"} then Some(PlainText)
    else if name in {"scip-index", "trace", "exclude"} then Some(TextList)
    else if name in {
        "max-file-bytes", "max-text-bytes", "max-repository-bytes", "max-files",
        "plugin-timeout", "plugin-output-bytes"} then Some(Other)
    else None
  }

  function ScipRegistration(name: string): Option<Kind> {
    if name in {"no-pin-check", "json"} then Some(Boolean)
    else if name in {"language", "tool", "lock", "out", "output"} then Some(PlainText)
    else if name == "tool-args" then Some(TextList)
    else if name == "timeout" then Some(Other)
    else None
  }

  function TraceRegistration(name: string): Option<Kind> {
    if name == "json" then Some(Boolean)
    else if name in {"dir", "out"} then Some(PlainText)
    else if name == "environment-key" then Some(TextList)
    else if name == "timeout" then Some(Other)
    else None
  }

  function WorkspaceRegistration(name: string): Option<Kind> {
    if name == "workspace" then Some(PlainText)
    else if name == "timeout" then Some(Other)
    else None
  }

  function RegistrationFor(command: string): Registry {
    if command == "workspace" then WorkspaceRegistration
    else if command == "scan" then ScanRegistration
    else if command == "quickstart" then QuickstartRegistration
    else if command == "scip" then ScipRegistration
    else if command == "trace" then TraceRegistration
    else PlanRegistration
  }

  /** A table pair mirrors a registration: same names, split into flags that take
      no argument and flags that do. */
  predicate MirrorsAt(registry: Registry, tables: Tables, name: string) {
    && (name in tables.booleans <==> registry(name) == Some(Boolean))
    && (name in tables.values <==> registry(name).Some? && registry(name) != Some(Boolean))
    && (name == "h" || name == "help" ==> registry(name).None?)
  }

  ghost predicate Mirrors(registry: Registry, tables: Tables) {
    forall name :: MirrorsAt(registry, tables, name)
  }

  lemma ScanTablesMirror(name: string)
    ensures MirrorsAt(ScanRegistration, Tables(SCAN_BOOLEANS, SCAN_VALUES), name)
  {
  }

  lemma QuickstartTablesMirror(name: string)
    ensures MirrorsAt(QuickstartRegistration, Tables(QUICKSTART_BOOLEANS, QUICKSTART_VALUES), name)
  {
  }

  lemma PlanTablesMirror(name: string)
    ensures MirrorsAt(PlanRegistration, Tables(PLAN_BOOLEANS, PLAN_VALUES), name)
  {
  }

  lemma SmallTablesMirror(name: string)
    ensures MirrorsAt(WorkspaceRegistration, TablesFor("workspace"), name)
    ensures MirrorsAt(ScipRegistration, TablesFor("scip"), name)
    ensures MirrorsAt(TraceRegistration, TablesFor("trace"), name)
  {
  }

  lemma TablesMirrorRegistrations(command: string)
    requires command in COMMANDS
    ensures Mirrors(RegistrationFor(command), TablesFor(command))
  {
    forall name ensures MirrorsAt(RegistrationFor(command), TablesFor(command), name) {
      ScanTablesMirror(name);
      QuickstartTablesMirror(name);
      PlanTablesMirror(name);
      SmallTablesMirror(name);
    }
  }

  // ---- The preflight ----

  predicate IsSafetyFlag(name: string) {
    name == "no-python" || name == "no-plugins" || name == "python"
  }

  function Lookup(seen: map<string, bool>, name: string): Option<bool> {
    if name in seen then Some(seen[name]) else None
  }

  function Decide(command: string, noPython: Option<bool>, noPlugins: Option<bool>, python: Option<bool>): Verdict {
    if command == "scan" then
      if noPython == Some(true) || noPlugins == Some(true) then Admitted else Rejected(NeedsExplicitDisable)
    else if python == Some(true) then Rejected(PythonRequested)
    else Admitted
  }

  function DecideSeen(command: string, seen: map<string, bool>): Verdict {
    Decide(command, Lookup(seen, "no-python"), Lookup(seen, "no-plugins"), Lookup(seen, "python"))
  }

  /** What the scan does with the arguments from some point on. */
  function Preflight(tables: Tables, command: string, args: seq<string>, seen: map<string, bool>): Verdict
    decreases |args|
  {
    if args == [] || args[0] == "--" then DecideSeen(command, seen)
    else
      match ReadFlag(args[0])
      case NotFlag => DecideSeen(command, seen)
      case Named(name, text) =>
        if name == "h" || name == "help" then HelpRequest
        else if name !in tables.booleans then
          if name !in tables.values then Rejected(UndefinedFlag(name))
          else if text.Some? then Preflight(tables, command, args[1..], seen)
          else if |args| == 1 then Rejected(MissingArgument(name))
          else Preflight(tables, command, args[2..], seen)
        else
          var parsed := if text.Some? then ParseBool(text.value) else Some(true);
          if parsed.None? then
            if IsSafetyFlag(name) then Rejected(InvalidBoolean(name, text.value))
            else Preflight(tables, command, args[1..], seen)
          else
            Preflight(tables, command, args[1..], if IsSafetyFlag(name) then seen[name := parsed.value] else seen)
  }

  function Admit(command: string, args: seq<string>): Verdict {
    if command !in COMMANDS then Rejected(UnsupportedCommand)
    else
      match Subcommand(command)
      case None => Preflight(TablesFor(command), command, args, map[])
      case Some(word) =>
        if args == [] || args[0] != word then Rejected(MissingSubcommand)
        else Preflight(TablesFor(command), command, args[1..], map[])
  }

  /** The loop over a command's flags. */
  method Examine(tables: Tables, command: string, args: seq<string>) returns (verdict: Verdict)
    ensures verdict == Preflight(tables, command, args, map[])
  {
    var values: map<string, bool>, present: set<string> := map[], {};
    var index := 0;
    while index < |args|
      invariant 0 <= index <= |args|
      invariant present == values.Keys
      invariant Preflight(tables, command, args[index..], values) == Preflight(tables, command, args, map[])
    {
      var argument := args[index];
      assert args[index..][0] == argument && args[index..][1..] == args[index + 1..];
      if argument == "--" {
        break;
      }
      var flag := ReadFlag(argument);
      if flag.NotFlag? {
        break;
      }
      if flag.name == "h" || flag.name == "help" {
        return HelpRequest;
      }
      index := index + 1;
      if flag.name !in tables.booleans {
        if flag.name !in tables.values {
          return Rejected(UndefinedFlag(flag.name));
        }
        if flag.text.None? {
          if index >= |args| {
            return Rejected(MissingArgument(flag.name));
          }
          assert args[index - 1..][2..] == args[index + 1..];
          index := index + 1;
        }
        continue;
      }
      var value := true;
      if flag.text.Some? {
        var parsed := ParseBool(flag.text.value);
        if parsed.None? {
          if IsSafetyFlag(flag.name) {
            return Rejected(InvalidBoolean(flag.name, flag.text.value));
          }
          continue;
        }
        value := parsed.value;
      }
      if IsSafetyFlag(flag.name) {
        values := values[flag.name := value];
        present := present + {flag.name};
      }
    }
    verdict := DecideByPresence(command, values, present);
  }

  method DecideByPresence(command: string, values: map<string, bool>, present: set<string>) returns (verdict: Verdict)
    requires present == values.Keys
    ensures verdict == DecideSeen(command, values)
  {
    if command == "scan" {
      var pythonDisabled := "no-python" in present && values["no-python"];
      var pluginsDisabled := "no-plugins" in present && values["no-plugins"];
      if !pythonDisabled && !pluginsDisabled {
        return Rejected(NeedsExplicitDisable);
      }
      return Admitted;
    }
    if "python" in present && values["python"] {
      return Rejected(PythonRequested);
    }
    return Admitted;
  }

  /** validateDirectCommandAdmission: one pass over the vector with an index, and
      two maps holding what the safety flags said. */
  method ValidateDirectCommandAdmission(command: string, arguments: seq<string>) returns (verdict: Verdict)
    ensures verdict == Admit(command, arguments)
  {
    if command !in COMMANDS {
      return Rejected(UnsupportedCommand);
    }
    var tables, args := TablesFor(command), arguments;
    var word := Subcommand(command);
    if word.Some? {
      if |args| == 0 || args[0] != word.value {
        return Rejected(MissingSubcommand);
      }
      args := args[1..];
    }
    verdict := Examine(tables, command, args);
  }

  // ---- Agreement with the reference parser ----

  /** What the preflight knows of a flag after the assignments of a parse. */
  function Known(tables: Tables, seen: map<string, bool>, assignments: seq<Assignment>, name: string): Option<bool> {
    if name in tables.booleans && LastBool(assignments, name).Some? then LastBool(assignments, name)
    else Lookup(seen, name)
  }

  function DecideAfter(tables: Tables, command: string, seen: map<string, bool>, assignments: seq<Assignment>): Verdict {
    Decide(command, Known(tables, seen, assignments, "no-python"),
           Known(tables, seen, assignments, "no-plugins"), Known(tables, seen, assignments, "python"))
  }

  ghost predicate Agrees(tables: Tables, command: string, seen: map<string, bool>, verdict: Verdict, outcome: Outcome) {
    match outcome
    case Parsed(assignments, _) => verdict == DecideAfter(tables, command, seen, assignments)
    case Failed(HelpRequested) => verdict == HelpRequest
    case Failed(Undefined(name)) => verdict == Rejected(UndefinedFlag(name))
    case Failed(NeedsArgument(name)) => verdict == Rejected(MissingArgument(name))
    case Failed(BadSyntax(_)) =>
      verdict == Admitted || verdict == Rejected(NeedsExplicitDisable) || verdict == Rejected(PythonRequested)
    case Failed(InvalidValue(name, text)) =>
      name in tables.booleans && IsSafetyFlag(name) ==> verdict == Rejected(InvalidBoolean(name, text))
  }

  function Remember(tables: Tables, seen: map<string, bool>, a: Assignment): map<string, bool>
    requires a.name in tables.booleans ==> ParseBool(a.text).Some?
  {
    if a.name in tables.booleans && IsSafetyFlag(a.name) then seen[a.name := ParseBool(a.text).value] else seen
  }

  /** What one accepted flag does to both parsers. */
  lemma BothStep(registry: Registry, other: (string, string) -> bool, tables: Tables, command: string, args: seq<string>,
                 seen: map<string, bool>, a: Assignment, rest: seq<string>)
    requires MirrorsAt(registry, tables, a.name) && registry(a.name).Some? && args != []
    requires Classify(args[0]).Flag? && Classify(args[0]).name == a.name
    requires var text, boolean := Classify(args[0]).text, registry(a.name) == Some(Boolean);
             && (boolean || text.Some? || |args| > 1)
             && a.text == (if text.Some? then text.value else if boolean then "true" else args[1])
             && rest == (if boolean || text.Some? then args[1..] else args[2..])
    requires Accepts(registry(a.name).value, a.name, a.text, other)
    requires a.name in tables.booleans ==> ParseBool(a.text).Some?
    ensures Parse(registry, other, args) == Prepend(a, Parse(registry, other, rest))
    ensures Preflight(tables, command, args, seen) == Preflight(tables, command, rest, Remember(tables, seen, a))
  {
    ReadFlagAgrees(args[0]);
  }

  /** The preflight and the flag parser walk every vector in step: the same
      errors for the same flag, a help verdict for a help request, and on a
      successful parse a decision taken from the same final values. */
  lemma {:induction false} PreflightAgrees(registry: Registry, other: (string, string) -> bool, tables: Tables,
                                           command: string, args: seq<string>, seen: map<string, bool>)
    requires Mirrors(registry, tables)
    ensures Agrees(tables, command, seen, Preflight(tables, command, args, seen), Parse(registry, other, args))
    decreases |args|
  {
    if args != [] {
      ReadFlagAgrees(args[0]);
      match Classify(args[0]) {
        case Flag(name, text) =>
          assert MirrorsAt(registry, tables, name);
          var boolean := registry(name) == Some(Boolean);
          if registry(name).Some? && (boolean || text.Some? || |args| > 1) {
            var value := if text.Some? then text.value else if boolean then "true" else args[1];
            var rest := if boolean || text.Some? then args[1..] else args[2..];
            if Accepts(registry(name).value, name, value, other) {
              var a := Assignment(name, value);
              var seen' := Remember(tables, seen, a);
              PreflightAgrees(registry, other, tables, command, rest, seen');
              StepAgrees(tables, command, seen, a, Preflight(tables, command, rest, seen'), Parse(registry, other, rest));
              BothStep(registry, other, tables, command, args, seen, a, rest);
            }
          }
        case _ =>
      }
    }
  }

  lemma StepAgrees(tables: Tables, command: string, seen: map<string, bool>, a: Assignment, verdict: Verdict, rest: Outcome)
    requires a.name in tables.booleans ==> ParseBool(a.text).Some?
    requires Agrees(tables, command, Remember(tables, seen, a), verdict, rest)
    ensures Agrees(tables, command, seen, verdict, Prepend(a, rest))
  {
  }

  /** Direct scan: on every vector the flag parser accepts, admission is granted
      exactly when the last explicit no-python or no-plugins is true, so that
      one of them is in force whatever defaults the configuration supplies. */
  lemma ScanAdmissionIsExact(other: (string, string) -> bool, args: seq<string>,
                             defaultNoPython: bool, defaultNoPlugins: bool)
    requires Parse(ScanRegistration, other, args).Parsed?
    ensures var a := Parse(ScanRegistration, other, args).assignments;
            && (Admit("scan", args) == Admitted <==>
                 LastBool(a, "no-python") == Some(true) || LastBool(a, "no-plugins") == Some(true))
            && (Admit("scan", args) == Admitted ==>
                 || (if LastBool(a, "no-python").Some? then LastBool(a, "no-python").value else defaultNoPython)
                 || (if LastBool(a, "no-plugins").Some? then LastBool(a, "no-plugins").value else defaultNoPlugins))
  {
    TablesMirrorRegistrations("scan");
    PreflightAgrees(ScanRegistration, other, TablesFor("scan"), "scan", args, map[]);
    assert MirrorsAt(ScanRegistration, TablesFor("scan"), "no-python");
    assert MirrorsAt(ScanRegistration, TablesFor("scan"), "no-plugins");
  }

  /** Quickstart: admitted exactly when the final value of --python is false. */
  lemma QuickstartAdmissionIsExact(other: (string, string) -> bool, args: seq<string>)
    requires Parse(QuickstartRegistration, other, args).Parsed?
    ensures var a := Parse(QuickstartRegistration, other, args).assignments;
            Admit("quickstart", args) == Admitted <==>
            !(if LastBool(a, "python").Some? then LastBool(a, "python").value else false)
  {
    TablesMirrorRegistrations("quickstart");
    PreflightAgrees(QuickstartRegistration, other, TablesFor("quickstart"), "quickstart", args, map[]);
    assert MirrorsAt(QuickstartRegistration, TablesFor("quickstart"), "python");
  }

  /** Where the arguments a command parses begin. */
  function Operative(command: string, args: seq<string>): seq<string>
    requires Subcommand(command).Some? ==> args != []
  {
    if Subcommand(command).Some? then args[1..] else args
  }

  predicate IsStructural(verdict: Verdict) {
    && verdict.Rejected?
    && (verdict.reason.UndefinedFlag? || verdict.reason.MissingArgument? || verdict.reason.InvalidBoolean?)
  }

  /** A help verdict is given only where the flag parser cannot succeed, and a
      structural rejection only where it fails too. */
  lemma HelpMeansTheParseFails(command: string, other: (string, string) -> bool, args: seq<string>)
    requires command in COMMANDS
    requires Subcommand(command).Some? ==> args != [] && args[0] == Subcommand(command).value
    ensures var outcome := Parse(RegistrationFor(command), other, Operative(command, args));
            var verdict := Admit(command, args);
            && (verdict == HelpRequest ==> outcome.Failed?)
            && (IsStructural(verdict) ==> outcome.Failed?)
            && (outcome == Failed(HelpRequested) ==> verdict == HelpRequest)
  {
    TablesMirrorRegistrations(command);
    PreflightAgrees(RegistrationFor(command), other, TablesFor(command), command, Operative(command, args), map[]);
  }

  /** The commands without a Python switch are admitted on every vector their
      own parser accepts. */
  lemma OtherCommandsAreAdmitted(command: string, other: (string, string) -> bool, args: seq<string>)
    requires command in {"workspace", "scip", "trace", "plan"}
    requires Subcommand(command).Some? ==> args != [] && args[0] == Subcommand(command).value
    requires Parse(RegistrationFor(command), other, Operative(command, args)).Parsed?
    ensures Admit(command, args) == Admitted
  {
    TablesMirrorRegistrations(command);
    PreflightAgrees(RegistrationFor(command), other, TablesFor(command), command, Operative(command, args), map[]);
    assert MirrorsAt(RegistrationFor(command), TablesFor(command), "python");
  }

  lemma {:induction false} PreflightLooksAtFlagsOnly(tables: Tables, command: string, args: seq<string>, seen: map<string, bool>)
    ensures Preflight(tables, command, args, seen) !in {Rejected(UnsupportedCommand), Rejected(MissingSubcommand)}
    decreases |args|
  {
    if args != [] && args[0] != "--" && ReadFlag(args[0]).Named? {
      var name, text := ReadFlag(args[0]).name, ReadFlag(args[0]).text;
      PreflightLooksAtFlagsOnly(tables, command, args[1..], seen);
      if name in tables.booleans {
        var parsed := ParseBool(if text.Some? then text.value else "true");
        if parsed.Some? {
          PreflightLooksAtFlagsOnly(tables, command, args[1..], if IsSafetyFlag(name) then seen[name := parsed.value] else seen);
        }
      } else if text.None? && |args| > 1 {
        PreflightLooksAtFlagsOnly(tables, command, args[2..], seen);
      }
    }
  }

  predicate StartsWith(args: seq<string>, word: string) {
    args != [] && args[0] == word
  }

  /** Three commands need their subcommand, and no seventh is supported. */
  lemma SubcommandIsRequired(command: string, args: seq<string>)
    ensures Admit(command, args) == Rejected(UnsupportedCommand) <==>
            command !in {"workspace", "scan", "quickstart", "scip", "trace", "plan"}
    ensures Admit(command, args) == Rejected(MissingSubcommand) <==>
            || (command == "workspace" && !StartsWith(args, "sync"))
            || (command == "scip" && !StartsWith(args, "generate"))
            || (command == "trace" && !StartsWith(args, "capture"))
  {
    PreflightLooksAtFlagsOnly(TablesFor(command), command, args, map[]);
    if args != [] {
      PreflightLooksAtFlagsOnly(TablesFor(command), command, args[1..], map[]);
    }
  }
}
