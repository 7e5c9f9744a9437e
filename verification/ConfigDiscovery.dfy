/** scan must know its configuration file and its run journal before it
    registers its flags, so it searches the raw vector for --config and
    --runs-dir.  That search is a third parser, and it does not know which
    tokens are values. */
module ConfigDiscovery {
  import opened Text
  import opened GoFlag
  import opened Admission
  import opened Segments
  import opened ArgumentVectors
  import opened ArgumentRoundTrips

  const CONFIG := "config"
  const RUNS_DIR := "runs-dir"

  function Prefix(flag: string): string {
    "--" + flag + "="
  }

  /** A token that the search for the flag takes for it. */
  predicate Like(flag: string, token: string) {
    token == "--" + flag || HasPrefix(token, Prefix(flag))
  }

  /** discoverExplicitFlagValue: the first match, even if its value is empty. */
  function FirstMatch(args: seq<string>, flag: string): Option<string> {
    if args == [] then None
    else if HasPrefix(args[0], Prefix(flag)) then Some(args[0][|Prefix(flag)|..])
    else if args[0] == "--" + flag then Some(if |args| > 1 then args[1] else "")
    else FirstMatch(args[1..], flag)
  }

  method DiscoverExplicitFlagValue(args: seq<string>, flag: string) returns (value: string, present: bool)
    ensures FirstMatch(args, flag) == if present then Some(value) else None
    ensures !present ==> value == ""
  {
    for index := 0 to |args|
      invariant FirstMatch(args, flag) == FirstMatch(args[index..], flag)
    {
      var arg := args[index];
      if HasPrefix(arg, Prefix(flag)) {
        return arg[|Prefix(flag)|..], true;
      }
      if arg == "--" + flag {
        if index + 1 < |args| {
          return args[index + 1], true;
        }
        return "", true;
      }
    }
    return "", false;
  }

  /** What the plain search returns: it does not tell an empty value from none. */
  function Discovered(args: seq<string>, flag: string): string {
    var found := FirstMatch(args, flag);
    if found.Some? then found.value else ""
  }

  /** discoverFlagValue passes over a flag at the end of the vector; nothing
      comes after it, so this is the first match all the same. */
  method DiscoverFlagValue(args: seq<string>, flag: string) returns (value: string)
    ensures value == Discovered(args, flag)
  {
    for index := 0 to |args|
      invariant FirstMatch(args, flag) == FirstMatch(args[index..], flag)
                || (index == |args| && FirstMatch(args, flag) == Some(""))
    {
      var arg := args[index];
      if HasPrefix(arg, Prefix(flag)) {
        return arg[|Prefix(flag)|..];
      }
      if arg == "--" + flag && index + 1 < |args| {
        return args[index + 1];
      }
    }
    return "";
  }

  /** The configuration scan loads: the discovered one becomes the default of
      the --config flag, and a parse that changes it is refused. */
  function LoadedConfig(other: (string, string) -> bool, args: seq<string>): Option<string> {
    var discovered := Discovered(args, CONFIG);
    match Parse(ScanRegistration, other, args)
    case Failed(_) => None
    case Parsed(assignments, _) =>
      if TextOf(assignments, Config, discovered) != discovered then None else Some(discovered)
  }

  /** A configuration is loaded exactly if the parse succeeds and agrees: --config,
      read over it, leaves it as it is.  So a second, different one is refused. */
  lemma LoadedIffBothAgree(other: (string, string) -> bool, args: seq<string>, path: string)
    ensures LoadedConfig(other, args) == Some(path) <==>
            && Parse(ScanRegistration, other, args).Parsed? && Discovered(args, CONFIG) == path
            && Reading(Parse(ScanRegistration, other, args).assignments, CONFIG, TextValue(path)) == TextValue(path)
  {
    if Parse(ScanRegistration, other, args).Parsed? {
      TextStaysText(Parse(ScanRegistration, other, args).assignments, CONFIG, Discovered(args, CONFIG));
    }
  }

  /** The run journal directory scan uses: the discovered one, or else the
      user's standard one (if there is any), is the default of the flag.  Only
      an empty directory without a standard one is refused. */
  function RunJournal(other: (string, string) -> bool, args: seq<string>, standard: Option<string>): Option<string> {
    var found := FirstMatch(args, RUNS_DIR);
    var default := if found.Some? then found else standard;
    match Parse(ScanRegistration, other, args)
    case Failed(_) => None
    case Parsed(assignments, _) =>
      var v := Reading(assignments, RUNS_DIR, TextValue(if default.Some? then default.value else ""));
      if !v.TextValue? || (v.text == "" && default.None?) then None else Some(v.text)
  }

  /** The first value that reads like the flag. */
  function FirstLike(values: seq<string>, flag: string): Option<string> {
    if values == [] then None
    else if Like(flag, values[0]) then Some(values[0])
    else FirstLike(values[1..], flag)
  }

  function SegmentValues(segments: seq<Segment>): seq<string> {
    if segments == [] then []
    else (if segments[0].Valued? then [segments[0].value] else []) + SegmentValues(segments[1..])
  }

  /** A segment whose own tokens the search for the flag passes over. */
  predicate Quiet(flag: string, s: Segment) {
    Spell(s.name) != flag && !s.Off?
  }

  lemma FlagTokenIsNotLike(flag: string, n: Name)
    requires Spell(n) != flag
    ensures "--" + Spell(n) != "" && !Like(flag, "--" + Spell(n))
  {
    var token := "--" + Spell(n);
    SpellIsPlain(n);
    assert token[2..] == Spell(n) && ("--" + flag)[2..] == flag;
    if HasPrefix(token, Prefix(flag)) {
      PrefixHasEquals(flag, Spell(n));
    }
  }

  lemma PrefixHasEquals(flag: string, name: string)
    requires HasPrefix("--" + name, Prefix(flag))
    ensures '=' in name
  {
    assert ("--" + name)[|flag| + 2] == Prefix(flag)[|flag| + 2];
    assert name[|flag|] == '=';
  }

  lemma UnlikeIsSkipped(flag: string, token: string, rest: seq<string>)
    requires !Like(flag, token)
    ensures FirstMatch([token] + rest, flag) == FirstMatch(rest, flag)
  {
  }

  lemma FirstTokenIsNotEmpty(segments: seq<Segment>, root: string)
    requires root != ""
    ensures |Render(segments) + [root]| > 0 && (Render(segments) + [root])[0] != ""
  {
  }

  /** One flag and its value: the value decides, if it reads like the flag searched for. */
  lemma DiscoveryInOne(flag: string, n: Name, value: string, rest: seq<string>)
    requires Spell(n) != flag && |rest| > 0
    ensures FirstMatch(["--" + Spell(n), value] + rest, flag) ==
            if HasPrefix(value, Prefix(flag)) then Some(value[|Prefix(flag)|..])
            else if value == "--" + flag then Some(rest[0])
            else FirstMatch(rest, flag)
  {
    FlagTokenIsNotLike(flag, n);
    assert ["--" + Spell(n), value] + rest == ["--" + Spell(n)] + ([value] + rest);
    UnlikeIsSkipped(flag, "--" + Spell(n), [value] + rest);
    assert ([value] + rest)[1] == rest[0] && ([value] + rest)[1..] == rest;
  }

  /** What the search comes back with, given the first value that reads like the
      flag: the rest of that value, or the token after it, which is never empty. */
  predicate ComesBack(flag: string, like: Option<string>, found: Option<string>) {
    match like
    case None => found.None?
    case Some(value) =>
      found.Some? && if HasPrefix(value, Prefix(flag)) then found.value == value[|Prefix(flag)|..] else found.value != ""
  }

  lemma {:induction false} DiscoveryInSegments(flag: string, segments: seq<Segment>, root: string)
    requires flag != "" && Rooted(root) && forall s :: s in segments ==> Quiet(flag, s)
    ensures ComesBack(flag, FirstLike(SegmentValues(segments), flag), FirstMatch(Render(segments) + [root], flag))
  {
    if segments == [] {
      assert Render(segments) + [root] == [root] + [];
      UnlikeIsSkipped(flag, root, []);
    } else {
      var s, rest := segments[0], Render(segments[1..]) + [root];
      assert s in segments;
      DiscoveryInSegments(flag, segments[1..], root);
      FirstTokenIsNotEmpty(segments[1..], root);
      assert Render(segments) + [root] == Tokens(s) + rest;
      if s.Valued? {
        DiscoveryInOne(flag, s.name, s.value, rest);
        var values := [s.value] + SegmentValues(segments[1..]);
        assert SegmentValues(segments) == values && values[1..] == SegmentValues(segments[1..]);
      } else {
        FlagTokenIsNotLike(flag, s.name);
        UnlikeIsSkipped(flag, "--" + Spell(s.name), rest);
        assert SegmentValues(segments) == SegmentValues(segments[1..]);
      }
    }
  }

  // ---- The values in quickstart's vector ----

  function ItemValues(item: Item): seq<string> {
    match item
    case Required(_, value) => [value]
    case Optional(_, value) => if value != "" then [value] else []
    case Override(_, value, standard) => if value != standard then [value] else []
    case Repeated(_, values) => values
    case _ => []
  }

  function Values(v: Vector): seq<string> {
    match v
    case Start => []
    case Then(before, item) => Values(before) + ItemValues(item)
  }

  predicate QuietItem(flag: string, item: Item) {
    !item.TurnOff? && (Spell(item.name) == flag ==> Pieces(item) == [])
  }

  predicate AllQuiet(flag: string, v: Vector) {
    v.Then? ==> AllQuiet(flag, v.before) && QuietItem(flag, v.item)
  }

  lemma {:induction false} EntriesValues(flag: string, name: Name, values: seq<string>)
    ensures SegmentValues(Entries(name, values)) == values
    ensures Spell(name) != flag ==> forall s :: s in Entries(name, values) ==> Quiet(flag, s)
  {
    if values != [] {
      EntriesValues(flag, name, values[1..]);
      assert Entries(name, values)[1..] == Entries(name, values[1..]);
    }
  }

  lemma {:induction false} SegmentValuesConcat(a: seq<Segment>, b: seq<Segment>)
    ensures SegmentValues(a + b) == SegmentValues(a) + SegmentValues(b)
  {
    if a == [] {
      assert a + b == b;
    } else {
      SegmentValuesConcat(a[1..], b);
      assert (a + b)[1..] == a[1..] + b && (a + b)[0] == a[0];
    }
  }

  lemma ItemValuesAre(flag: string, item: Item)
    requires QuietItem(flag, item)
    ensures SegmentValues(Pieces(item)) == ItemValues(item)
    ensures forall s :: s in Pieces(item) ==> Quiet(flag, s)
  {
    if item.Repeated? {
      EntriesValues(flag, item.name, item.values);
    } else if Pieces(item) != [] {
      assert Pieces(item)[1..] == [];
    }
  }

  lemma {:induction false} VectorValues(flag: string, v: Vector)
    requires AllQuiet(flag, v)
    ensures SegmentValues(Expand(v)) == Values(v)
    ensures forall s :: s in Expand(v) ==> Quiet(flag, s)
  {
    if v.Then? {
      VectorValues(flag, v.before);
      ItemValuesAre(flag, v.item);
      SegmentValuesConcat(Expand(v.before), Pieces(v.item));
    }
  }

  function IndexerPart(q: QuickstartOptions, lock: string): seq<string> {
    q.scipIndexes + q.scipGenerate
    + (if q.scipTool != "" then [q.scipTool] else [])
    + (if q.scipLock != lock then [q.scipLock] else [])
  }

  function EvidencePart(q: QuickstartOptions): seq<string> {
    q.tracePaths + (if q.historyPath != "" then [q.historyPath] else [])
  }

  /** The strings a user can place in the vector, in the order they are printed. */
  function UserValues(q: QuickstartOptions, lock: string): seq<string> {
    (if q.config != "" then [q.config] else []) + IndexerPart(q, lock) + EvidencePart(q)
  }

  /** A search whose flag quickstart does not print (--config, if none was asked for). */
  predicate Unprinted(flag: string, q: QuickstartOptions) {
    flag == RUNS_DIR || (flag == CONFIG && q.config == "")
  }

  lemma UnprintedFlag(flag: string, q: QuickstartOptions, n: Name)
    requires Unprinted(flag, q) && (flag == CONFIG ==> n != Config)
    ensures Spell(n) != flag
  {
    DecodeSpell(n);
  }

  lemma OneMoreValue(flag: string, q: QuickstartOptions, v: Vector, item: Item, so: seq<string>)
    returns (longer: Vector, more: seq<string>)
    requires Unprinted(flag, q) && (item.name == Config ==> item == Optional(Config, q.config))
    requires AllQuiet(flag, v) && !item.TurnOff? && Values(v) == so
    ensures longer == v.And(item) && AllQuiet(flag, longer) && more == so + ItemValues(item) && Values(longer) == more
  {
    if flag == RUNS_DIR || item.name != Config {
      UnprintedFlag(flag, q, item.name);
    }
    longer, more := v.And(item), so + ItemValues(item);
  }

  lemma PathValues(flag: string, q: QuickstartOptions, atlas: string, state: string) returns (v: Vector, so: seq<string>)
    requires Unprinted(flag, q)
    ensures v == Start.And(Required(Out, atlas)).And(Required(StateDir, state)).And(Optional(Config, q.config))
    ensures AllQuiet(flag, v) && Values(v) == so && so == [atlas, state] + if q.config != "" then [q.config] else []
  {
    v, so := OneMoreValue(flag, q, Start, Required(Out, atlas), []);
    v, so := OneMoreValue(flag, q, v, Required(StateDir, state), so);
    v, so := OneMoreValue(flag, q, v, Optional(Config, q.config), so);
  }

  lemma HeadValues(flag: string, q: QuickstartOptions, atlas: string, state: string) returns (so: seq<string>)
    requires Unprinted(flag, q)
    ensures AllQuiet(flag, ScanHeadItems(q, atlas, state)) && Values(ScanHeadItems(q, atlas, state)) == so
    ensures so == [atlas, state] + if q.config != "" then [q.config] else []
  {
    var v;
    v, so := PathValues(flag, q, atlas, state);
    v, so := OneMoreValue(flag, q, v, TurnOn(NoGitMetadata, q.noGitMetadata), so);
    v, so := OneMoreValue(flag, q, v, TurnOn(NoPython, !q.enablePython), so);
    v, so := OneMoreValue(flag, q, v, TurnOn(NoCache, q.clean), so);
    v, so := OneMoreValue(flag, q, v, TurnOn(Force, q.force), so);
  }

  lemma Regrouped(so: seq<string>, a: seq<string>, b: seq<string>, c: seq<string>, d: seq<string>)
    ensures so + a + b + c + d == so + (a + b + c + d)
    ensures so + a + b + c == so + (a + b + c)
  {
  }

  lemma IndexerValues(flag: string, v: Vector, so: seq<string>, q: QuickstartOptions, lock: string)
    returns (longer: Vector, more: seq<string>)
    requires Unprinted(flag, q) && AllQuiet(flag, v) && Values(v) == so
    ensures longer == v.And(Repeated(ScipIndex, q.scipIndexes)).And(Repeated(ScipGenerate, q.scipGenerate))
                       .And(Optional(ScipTool, q.scipTool)).And(Override(ScipLock, q.scipLock, lock))
    ensures AllQuiet(flag, longer) && Values(longer) == more
    ensures more == so + IndexerPart(q, lock)
  {
    longer, more := OneMoreValue(flag, q, v, Repeated(ScipIndex, q.scipIndexes), so);
    longer, more := OneMoreValue(flag, q, longer, Repeated(ScipGenerate, q.scipGenerate), more);
    longer, more := OneMoreValue(flag, q, longer, Optional(ScipTool, q.scipTool), more);
    longer, more := OneMoreValue(flag, q, longer, Override(ScipLock, q.scipLock, lock), more);
    Regrouped(so, q.scipIndexes, q.scipGenerate, ItemValues(Optional(ScipTool, q.scipTool)),
              ItemValues(Override(ScipLock, q.scipLock, lock)));
  }

  lemma EvidenceValues(flag: string, v: Vector, so: seq<string>, q: QuickstartOptions) returns (longer: Vector, more: seq<string>)
    requires Unprinted(flag, q) && AllQuiet(flag, v) && Values(v) == so
    ensures longer == v.And(TurnOn(ScipNoPinCheck, q.scipNoPinCheck)).And(Repeated(TracePath, q.tracePaths))
                       .And(Optional(History, q.historyPath))
    ensures AllQuiet(flag, longer) && Values(longer) == more
    ensures more == so + EvidencePart(q)
  {
    longer, more := OneMoreValue(flag, q, v, TurnOn(ScipNoPinCheck, q.scipNoPinCheck), so);
    longer, more := OneMoreValue(flag, q, longer, Repeated(TracePath, q.tracePaths), more);
    longer, more := OneMoreValue(flag, q, longer, Optional(History, q.historyPath), more);
  }

  lemma TailValues(flag: string, q: QuickstartOptions, atlas: string, state: string, lock: string)
    requires Unprinted(flag, q)
    ensures AllQuiet(flag, ScanItems(q, atlas, state, lock))
    ensures Values(ScanItems(q, atlas, state, lock)) == [atlas, state] + UserValues(q, lock)
  {
    var head := HeadValues(flag, q, atlas, state);
    var v, so := IndexerValues(flag, ScanHeadItems(q, atlas, state), head, q, lock);
    v, so := EvidenceValues(flag, v, so, q);
    Regrouped([atlas, state], if q.config != "" then [q.config] else [], IndexerPart(q, lock), EvidencePart(q), []);
  }

  lemma RootedIsNotLike(flag: string, path: string)
    requires Rooted(path)
    ensures !Like(flag, path)
  {
  }

  lemma LikeAfterPaths(flag: string, atlas: string, state: string, values: seq<string>)
    requires Rooted(atlas) && Rooted(state)
    ensures FirstLike([atlas, state] + values, flag) == FirstLike(values, flag)
  {
    var all := [atlas, state] + values;
    assert all[1..] == [state] + values && all[1..][1..] == values;
  }

  /** In the vector quickstart prints, the search finds what the first user value
      that reads like the flag makes it find, and nothing if there is none. */
  lemma SearchFindsFirstLike(flag: string, q: QuickstartOptions, atlas: string, state: string, root: string, lock: string)
    requires Unprinted(flag, q) && Rooted(atlas) && Rooted(state) && Rooted(root)
    ensures ComesBack(flag, FirstLike(UserValues(q, lock), flag), FirstMatch(Print(ScanItems(q, atlas, state, lock)) + [root], flag))
  {
    var items := ScanItems(q, atlas, state, lock);
    TailValues(flag, q, atlas, state, lock);
    VectorValues(flag, items);
    PrintIsRender(items);
    DiscoveryInSegments(flag, Expand(items), root);
    LikeAfterPaths(flag, atlas, state, UserValues(q, lock));
  }

  // ---- Without a configuration ----

  /** With no configuration asked for, scan loads whatever its search found. */
  lemma DiscoveredConfigIsLoaded(other: (string, string) -> bool, q: QuickstartOptions,
                                 atlas: string, state: string, root: string, lock: string)
    requires q.Valid() && q.config == "" && Rooted(root)
    ensures var args := Print(ScanItems(q, atlas, state, lock)) + [root];
            LoadedConfig(other, args) == Some(Discovered(args, CONFIG))
  {
    var args := Print(ScanItems(q, atlas, state, lock)) + [root];
    ScanVectorReparses(other, q, atlas, state, root, lock);
    var d := TextValue(Discovered(args, CONFIG));
    assert Reading(Parse(ScanRegistration, other, args).assignments, Spell(Config), d) == ScanValueFor(q, atlas, state, Config, d);
  }

  /** So it loads none if and only if the first user value that reads like
      --config, if there is one, is `--config=`; and if that value is
      `--config=x`, it loads x. */
  lemma UnsetConfigStaysUnset(other: (string, string) -> bool, q: QuickstartOptions,
                              atlas: string, state: string, root: string, lock: string)
    requires q.Valid() && q.config == "" && Rooted(atlas) && Rooted(state) && Rooted(root)
    ensures var loaded := LoadedConfig(other, Print(ScanItems(q, atlas, state, lock)) + [root]);
            var like := FirstLike(UserValues(q, lock), CONFIG);
            && (loaded == Some("") <==> like.None? || like.value == Prefix(CONFIG))
            && (like.Some? && HasPrefix(like.value, Prefix(CONFIG)) ==> loaded == Some(like.value[|Prefix(CONFIG)|..]))
  {
    DiscoveredConfigIsLoaded(other, q, atlas, state, root, lock);
    SearchFindsFirstLike(CONFIG, q, atlas, state, root, lock);
    var like := FirstLike(UserValues(q, lock), CONFIG);
    if like.Some? && HasPrefix(like.value, Prefix(CONFIG)) && like.value[|Prefix(CONFIG)|..] == "" {
      assert like.value == Prefix(CONFIG) + like.value[|Prefix(CONFIG)|..];
    }
  }

  /** A SCIP index path that reads like --config=... is loaded as configuration
      although none was asked for. */
  lemma IndexPathTakenForConfig(other: (string, string) -> bool)
    ensures var q := QuickstartOptions("", "", "", false, false, false, true, ["--config=x"], [], "", "", false, [], "");
            q.Valid() && LoadedConfig(other, Print(ScanItems(q, "/a", "/s", "")) + ["/r"]) == Some("x")
  {
    var q := QuickstartOptions("", "", "", false, false, false, true, ["--config=x"], [], "", "", false, [], "");
    var value := "--config=x";
    assert Prefix(CONFIG) == "--config=" && value[..9] == "--config=" && value[9..] == "x";
    assert UserValues(q, "") == [value];
    UnsetConfigStaysUnset(other, q, "/a", "/s", "/r", "");
  }

  // ---- The run journal ----

  lemma {:induction false} UnprintedFlagKeepsDefault(segments: seq<Segment>, flag: string, v: Value)
    requires Decode(flag).None?
    ensures Reading(AsAssignments(segments), flag, v) == v
  {
    if segments != [] {
      DecodeSpell(segments[0].name);
      UnprintedFlagKeepsDefault(segments[1..], flag, v);
      assert AsAssignments(segments)[1..] == AsAssignments(segments[1..]);
    }
  }

  lemma JournalByDefault(other: (string, string) -> bool, args: seq<string>, standard: Option<string>)
    requires var outcome := Parse(ScanRegistration, other, args);
             outcome.Parsed? && forall v :: Reading(outcome.assignments, RUNS_DIR, v) == v
    ensures var found := FirstMatch(args, RUNS_DIR);
            RunJournal(other, args, standard) == if found.Some? then found else standard
  {
  }

  /** Quickstart has no --runs-dir, so scan uses what its search found, or else
      the standard directory. */
  lemma FoundJournalIsUsed(other: (string, string) -> bool, q: QuickstartOptions, atlas: string, state: string, root: string,
                           lock: string, standard: Option<string>)
    requires q.Valid() && Rooted(root)
    ensures var args := Print(ScanItems(q, atlas, state, lock)) + [root];
            var found := FirstMatch(args, RUNS_DIR);
            RunJournal(other, args, standard) == if found.Some? then found else standard
  {
    var items := ScanItems(q, atlas, state, lock);
    ScanVectorParses(other, q, atlas, state, root, lock);
    forall v ensures Reading(AsAssignments(Expand(items)), RUNS_DIR, v) == v {
      UnprintedFlagKeepsDefault(Expand(items), RUNS_DIR, v);
    }
    JournalByDefault(other, Print(items) + [root], standard);
  }

  ghost predicate JournalStays(other: (string, string) -> bool, args: seq<string>) {
    forall standard :: RunJournal(other, args, standard) == standard
  }

  ghost predicate JournalGoesTo(other: (string, string) -> bool, args: seq<string>, path: string) {
    forall standard :: RunJournal(other, args, standard) == Some(path)
  }

  ghost predicate JournalFollows(other: (string, string) -> bool, args: seq<string>, found: Option<string>) {
    if found.Some? then JournalGoesTo(other, args, found.value) else JournalStays(other, args)
  }

  lemma JournalFollowsSearch(other: (string, string) -> bool, q: QuickstartOptions, atlas: string, state: string, root: string, lock: string)
    requires q.Valid() && Rooted(root)
    ensures var args := Print(ScanItems(q, atlas, state, lock)) + [root]; JournalFollows(other, args, FirstMatch(args, RUNS_DIR))
  {
    var args := Print(ScanItems(q, atlas, state, lock)) + [root];
    forall standard ensures RunJournal(other, args, standard) ==
                            if FirstMatch(args, RUNS_DIR).Some? then FirstMatch(args, RUNS_DIR) else standard {
      FoundJournalIsUsed(other, q, atlas, state, root, lock, standard);
    }
  }

  lemma JournalIsDecided(other: (string, string) -> bool, args: seq<string>, like: Option<string>, found: Option<string>)
    requires ComesBack(RUNS_DIR, like, found) && JournalFollows(other, args, found)
    ensures JournalStays(other, args) <==> like.None?
    ensures like.Some? && HasPrefix(like.value, Prefix(RUNS_DIR)) ==>
              JournalGoesTo(other, args, like.value[|Prefix(RUNS_DIR)|..])
  {
    if like.Some? {
      assert RunJournal(other, args, None) == found != None;
    }
  }

  /** The journal stays where the user's standard directory is, whatever that
      is, if and only if no user value reads like --runs-dir: here the first
      match counts even when its value is empty.  If the first such value is
      `--runs-dir=x`, the journal goes to x. */
  lemma JournalStaysIff(other: (string, string) -> bool, q: QuickstartOptions, atlas: string, state: string, root: string, lock: string)
    requires q.Valid() && Rooted(atlas) && Rooted(state) && Rooted(root)
    ensures var args := Print(ScanItems(q, atlas, state, lock)) + [root];
            var like := FirstLike(UserValues(q, lock), RUNS_DIR);
            && (JournalStays(other, args) <==> like.None?)
            && (like.Some? && HasPrefix(like.value, Prefix(RUNS_DIR)) ==>
                  JournalGoesTo(other, args, like.value[|Prefix(RUNS_DIR)|..]))
  {
    var args := Print(ScanItems(q, atlas, state, lock)) + [root];
    SearchFindsFirstLike(RUNS_DIR, q, atlas, state, root, lock);
    JournalFollowsSearch(other, q, atlas, state, root, lock);
    JournalIsDecided(other, args, FirstLike(UserValues(q, lock), RUNS_DIR), FirstMatch(args, RUNS_DIR));
  }

  // ---- With a configuration ----

  lemma PrefixOneMore(head: seq<string>, v: Vector, item: Item) returns (longer: Vector)
    requires head <= Print(v)
    ensures longer == v.And(item) && head <= Print(longer)
  {
    longer := v.And(item);
  }

  lemma ConfigTokens(q: QuickstartOptions, atlas: string, state: string) returns (head: seq<string>)
    requires q.config != ""
    ensures head == ["--out", atlas, "--state-dir", state, "--config", q.config]
    ensures head <= Print(ScanHeadItems(q, atlas, state))
  {
    RenderOne(Valued(Out, atlas));
    RenderOne(Valued(StateDir, state));
    RenderOne(Valued(Config, q.config));
    assert "--" + Spell(Out) == "--out" && "--" + Spell(StateDir) == "--state-dir" && "--" + Spell(Config) == "--config";
    var v := Start.And(Required(Out, atlas));
    assert Print(v) == ["--out", atlas];
    v := v.And(Required(StateDir, state));
    assert Print(v) == ["--out", atlas, "--state-dir", state];
    v := v.And(Optional(Config, q.config));
    head := Print(v);
    v := PrefixOneMore(head, v, TurnOn(NoGitMetadata, q.noGitMetadata));
    v := PrefixOneMore(head, v, TurnOn(NoPython, !q.enablePython));
    v := PrefixOneMore(head, v, TurnOn(NoCache, q.clean));
    v := PrefixOneMore(head, v, TurnOn(Force, q.force));
  }

  lemma ConfigTokensStayFirst(q: QuickstartOptions, atlas: string, state: string, lock: string, head: seq<string>)
    requires head <= Print(ScanHeadItems(q, atlas, state))
    ensures head <= Print(ScanItems(q, atlas, state, lock))
  {
    var v := PrefixOneMore(head, ScanHeadItems(q, atlas, state), Repeated(ScipIndex, q.scipIndexes));
    v := PrefixOneMore(head, v, Repeated(ScipGenerate, q.scipGenerate));
    v := PrefixOneMore(head, v, Optional(ScipTool, q.scipTool));
    v := PrefixOneMore(head, v, Override(ScipLock, q.scipLock, lock));
    v := PrefixOneMore(head, v, TurnOn(ScipNoPinCheck, q.scipNoPinCheck));
    v := PrefixOneMore(head, v, Repeated(TracePath, q.tracePaths));
    v := PrefixOneMore(head, v, Optional(History, q.historyPath));
  }

  /** A configuration that was asked for is the one scan loads, whatever the
      other values look like: it is printed before any of them. */
  lemma AskedConfigIsLoaded(other: (string, string) -> bool, q: QuickstartOptions,
                            atlas: string, state: string, root: string, lock: string)
    requires q.Valid() && q.config != "" && Rooted(atlas) && Rooted(state) && Rooted(root)
    ensures LoadedConfig(other, Print(ScanItems(q, atlas, state, lock)) + [root]) == Some(q.config)
  {
    var args := Print(ScanItems(q, atlas, state, lock)) + [root];
    var head := ConfigTokens(q, atlas, state);
    ConfigTokensStayFirst(q, atlas, state, lock, head);
    var rest := args[6..];
    assert args == head + rest;
    ConfigIsFound(atlas, state, q.config, rest);
    assert args == ["--out", atlas, "--state-dir", state, "--config", q.config] + rest;
    ScanVectorReparses(other, q, atlas, state, root, lock);
    assert Reading(Parse(ScanRegistration, other, args).assignments, Spell(Config), TextValue(q.config))
        == ScanValueFor(q, atlas, state, Config, TextValue(q.config));
  }

  lemma ConfigIsFound(atlas: string, state: string, config: string, rest: seq<string>)
    requires Rooted(atlas) && Rooted(state)
    ensures Discovered(["--out", atlas, "--state-dir", state, "--config", config] + rest, CONFIG) == config
  {
    RootedIsNotLike(CONFIG, atlas);
    RootedIsNotLike(CONFIG, state);
    var found := ["--config", config] + rest;
    var second := ["--state-dir", state] + found;
    assert "--" + Spell(StateDir) == "--state-dir" && "--" + Spell(Out) == "--out" && "--" + CONFIG == "--config";
    UnprintedNames();
    DiscoveryInOne(CONFIG, StateDir, state, found);
    DiscoveryInOne(CONFIG, Out, atlas, second);
    assert ["--out", atlas, "--state-dir", state, "--config", config] + rest == ["--out", atlas] + second;
    assert !HasPrefix("--config", Prefix(CONFIG));
  }

  lemma UnprintedNames()
    ensures Spell(StateDir) != CONFIG && Spell(Out) != CONFIG
  {
    DecodeSpell(StateDir);
    DecodeSpell(Out);
  }
}
