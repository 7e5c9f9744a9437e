/** Which processes one command starts, and what their environment tells them. */
module LaunchTree {
  import opened Text
  import opened Ordering
  import opened Admission

  type Environment = map<string, string>

  const OPEN_CHILD := "RKC_GUARDED_OPEN_CHILD"
  const DIRECT_CHILD := "RKC_GUARDED_DIRECT_CHILD"
  const READY_FILE := "RKC_GUARDED_OPEN_READY_FILE"

  const LIMITS := [
    "RKC_MEMORY_HIGH_MIB", "RKC_MEMORY_MAX_MIB", "RKC_MEMORY_SWAP_MAX_MIB", "RKC_GO_MEMORY_LIMIT_MIB"
  ]

  const PROFILE := ["RKC_RESOURCE_PROFILE", "RKC_CPU_QUOTA_PERCENT"] + LIMITS + ["RKC_HOST_AVAILABLE_MEMORY_MIN_MIB"]

  const SESSION := [
    "HOME", "PATH", "TMPDIR", "TEMP", "TMP", "LANG", "LC_ALL", "XDG_RUNTIME_DIR", "DBUS_SESSION_BUS_ADDRESS"
  ]

  const POLICY := ["RKC_WORKSPACE_PRIORITY_LEASE", "GOMEMLIMIT"]

  /** What the resource guard lets through. */
  const GUARD := SESSION + PROFILE + POLICY

  const LOCAL := [
    "DBUS_SESSION_BUS_ADDRESS", "HOME", "LANG", "LC_ALL", "PATH",
    "SSL_CERT_DIR", "SSL_CERT_FILE", "TEMP", "TMP", "TMPDIR"
  ]

  const DESKTOP := [
    "XDG_CACHE_HOME", "XDG_CONFIG_HOME", "XDG_DATA_HOME", "XDG_RUNTIME_DIR", "XDG_STATE_HOME"
  ]

  const TOOLS := [
    "GOENV", "GOFLAGS", "GOMODCACHE", "GOPATH", "GOPROXY", "GOSUMDB", "GOCACHE",
    "npm_config_cache", "RKC_HOST_AVAILABLE_MEMORY_MIN_MIB"
  ]

  /** What a guarded child retains of its parent's environment. */
  const RETAINED := LOCAL + DESKTOP + TOOLS

  const RUNTIME := map[
    OPEN_CHILD := "1", "GOMAXPROCS" := "1", "OMP_NUM_THREADS" := "1", "OPENBLAS_NUM_THREADS" := "1",
    "MKL_NUM_THREADS" := "1", "NUMEXPR_NUM_THREADS" := "1"
  ]

  const DEVICES := map[
    "CMAKE_BUILD_PARALLEL_LEVEL" := "1", "CARGO_BUILD_JOBS" := "1", "CUDA_VISIBLE_DEVICES" := "-1",
    "HIP_VISIBLE_DEVICES" := "-1", "ROCR_VISIBLE_DEVICES" := "-1", "GGML_VK_VISIBLE_DEVICES" := "-1"
  ]

  /** One worker, no accelerators, and the marker of an open child. */
  const FIXED := RUNTIME + DEVICES

  function Getenv(environment: Environment, name: string): string {
    if name in environment then environment[name] else ""
  }

  // ---- Environments as lists of NAME=value entries ----

  function Entry(name: string, value: string): string {
    name + "=" + value
  }

  function NameOf(entry: string): string {
    entry[..FirstEquals(entry, 0)]
  }

  function ValueOf(entry: string): string {
    var cut := FirstEquals(entry, 0);
    if cut == |entry| then "" else entry[cut + 1..]
  }

  lemma EntrySplits(name: string, value: string)
    requires '=' !in name
    ensures NameOf(Entry(name, value)) == name && ValueOf(Entry(name, value)) == value
  {
    var entry := Entry(name, value);
    assert entry[|name|] == '=' && forall k :: 0 <= k < |name| ==> entry[k] == name[k];
    FirstEqualsIs(entry, 0, |name|);
  }

  lemma PrefixTellsName(name: string, value: string, marker: string)
    requires '=' !in name && '=' !in marker
    ensures HasPrefix(Entry(name, value), marker + "=") <==> name == marker
  {
    var entry := Entry(name, value);
    if HasPrefix(entry, marker + "=") {
      assert entry == Entry(marker, entry[|marker| + 1..]);
      EntrySplits(marker, entry[|marker| + 1..]);
      EntrySplits(name, value);
    }
  }

  function Entries(names: seq<string>, values: Environment): (entries: seq<string>)
    requires forall n :: n in names ==> n in values
  {
    seq(|names|, i requires 0 <= i < |names| => Entry(names[i], values[names[i]]))
  }

  ghost predicate SortedKeys(names: seq<string>, values: Environment) {
    StrictlySorted(names) && forall n :: n in names <==> n in values
  }

  ghost predicate Lists(entries: seq<string>, values: Environment) {
    exists names :: SortedKeys(names, values) && entries == Entries(names, values)
  }

  /** The environment a program started with `env -i` and these entries sees. */
  function Bound(entries: seq<string>): Environment {
    if entries == [] then map[]
    else
      var last := entries[|entries| - 1];
      Bound(entries[..|entries| - 1])[NameOf(last) := ValueOf(last)]
  }

  lemma {:induction false} BoundIs(entries: seq<string>, values: Environment)
    requires forall e :: e in entries ==> NameOf(e) in values && values[NameOf(e)] == ValueOf(e)
    ensures forall n :: n in Bound(entries) ==> n in values && Bound(entries)[n] == values[n]
    ensures forall e :: e in entries ==> NameOf(e) in Bound(entries)
  {
    if entries != [] {
      var front := entries[..|entries| - 1];
      assert entries == front + [entries[|entries| - 1]];
      BoundIs(front, values);
    }
  }

  // ---- The environment of a guarded child ----

  method SortedEnvironment(values: Environment) returns (entries: seq<string>)
    ensures Lists(entries, values)
  {
    var names := SortedNames(values.Keys);
    entries := [];
    for i := 0 to |names|
      invariant entries == Entries(names[..i], values)
    {
      assert names[i] in names;
      entries := entries + [Entry(names[i], values[names[i]])];
    }
    assert names[..|names|] == names && SortedKeys(names, values);
  }

  ghost function Restrict(parent: Environment, names: seq<string>): Environment {
    map n | n in names && n in parent :: parent[n]
  }

  ghost function RetainedValues(parent: Environment, names: seq<string>): Environment {
    map n | n in names && n in parent && '\0' !in parent[n] :: parent[n]
  }

  ghost function PolicyPart(parent: Environment, names: seq<string>): Environment {
    map n | n in names && n in parent && HasPrefix(n, "RKC_") :: parent[n]
  }

  ghost function OpenValues(parent: Environment, readyFile: string): Environment {
    var common := RetainedValues(parent, RETAINED) + PolicyPart(parent, GUARD) + FIXED;
    if readyFile == "" then common else common[READY_FILE := readyFile]
  }

  /** What a child may read of its parent's environment: the retained variables
      without NUL, and the resource policy's own. */
  predicate MayPass(parent: Environment, n: string) {
    n in parent && ((n in RETAINED && '\0' !in parent[n]) || (n in GUARD && HasPrefix(n, "RKC_")))
  }

  lemma ReadyNameIsSeparate()
    ensures READY_FILE !in FIXED
  {
  }

  /** A guarded child sees its marker and its limits, the readiness file if
      there is one, what may pass, and nothing else. */
  lemma ChildSeesOnlyThat(parent: Environment, readyFile: string, n: string)
    ensures var values := OpenValues(parent, readyFile);
            if n == READY_FILE && readyFile != "" then n in values && values[n] == readyFile
            else if n in FIXED then n in values && values[n] == FIXED[n]
            else (n in values <==> MayPass(parent, n)) && (n in values ==> values[n] == parent[n])
  {
    ReadyNameIsSeparate();
  }

  lemma OneWorkerEach(parent: Environment, readyFile: string)
    ensures var values := OpenValues(parent, readyFile);
            var runtimes := {"GOMAXPROCS", "OMP_NUM_THREADS", "OPENBLAS_NUM_THREADS", "MKL_NUM_THREADS", "NUMEXPR_NUM_THREADS"};
            forall n :: n == OPEN_CHILD || n in runtimes ==> n in values && values[n] == "1"
  {
    ReadyNameIsSeparate();
    forall n | n in RUNTIME ensures n in FIXED && FIXED[n] == "1" {
      assert n !in DEVICES;
    }
    forall n | n in RUNTIME ensures n in OpenValues(parent, readyFile) && OpenValues(parent, readyFile)[n] == "1" {
      ChildSeesOnlyThat(parent, readyFile, n);
    }
  }

  lemma NoAccelerator(parent: Environment, readyFile: string)
    ensures var values := OpenValues(parent, readyFile);
            var builders := {"CMAKE_BUILD_PARALLEL_LEVEL", "CARGO_BUILD_JOBS"};
            var devices := {"CUDA_VISIBLE_DEVICES", "HIP_VISIBLE_DEVICES", "ROCR_VISIBLE_DEVICES", "GGML_VK_VISIBLE_DEVICES"};
            && (forall n :: n in builders ==> n in values && values[n] == "1")
            && (forall n :: n in devices ==> n in values && values[n] == "-1")
  {
    ReadyNameIsSeparate();
    forall n | n in DEVICES ensures n in OpenValues(parent, readyFile) && OpenValues(parent, readyFile)[n] == DEVICES[n] {
      ChildSeesOnlyThat(parent, readyFile, n);
    }
  }

  method Select(parent: Environment, names: seq<string>) returns (values: Environment)
    ensures values == Restrict(parent, names)
  {
    values := map[];
    for i := 0 to |names|
      invariant values == Restrict(parent, names[..i])
    {
      if names[i] in parent {
        values := values[names[i] := parent[names[i]]];
      }
    }
    assert names[..|names|] == names;
  }

  method ResourceGuardEnvironment(parent: Environment) returns (entries: seq<string>)
    ensures Lists(entries, Restrict(parent, GUARD))
  {
    var values := Select(parent, GUARD);
    entries := SortedEnvironment(values);
  }

  predicate PlainName(name: string) {
    '=' !in name && name != OPEN_CHILD && name != DIRECT_CHILD
  }

  ghost predicate PlainNames(names: seq<string>) {
    forall n :: n in names ==> PlainName(n)
  }

  lemma LimitNamesArePlain()
    ensures PlainNames(LIMITS)
  {
  }

  lemma ProfileNamesArePlain()
    ensures PlainName("RKC_RESOURCE_PROFILE") && PlainName("RKC_CPU_QUOTA_PERCENT")
    ensures PlainName("RKC_HOST_AVAILABLE_MEMORY_MIN_MIB")
  {
  }

  lemma LeaseNamesArePlain()
    ensures PlainNames(POLICY)
  {
  }

  lemma PolicyNamesArePlain()
    ensures PlainNames(PROFILE) && PlainNames(POLICY)
  {
    LimitNamesArePlain();
    ProfileNamesArePlain();
    LeaseNamesArePlain();
    ThreeGroups("RKC_RESOURCE_PROFILE", "RKC_CPU_QUOTA_PERCENT", LIMITS, "RKC_HOST_AVAILABLE_MEMORY_MIN_MIB");
  }

  lemma ThreeGroups(a: string, b: string, names: seq<string>, c: string)
    requires PlainName(a) && PlainName(b) && PlainNames(names) && PlainName(c)
    ensures PlainNames([a, b] + names + [c])
  {
  }

  lemma SessionNamesArePlain()
    ensures PlainNames(SESSION)
  {
  }

  lemma LocalNamesArePlain()
    ensures PlainNames(LOCAL)
  {
  }

  lemma DesktopNamesArePlain()
    ensures PlainNames(DESKTOP)
  {
  }

  lemma ToolNamesArePlain()
    ensures PlainNames(TOOLS)
  {
  }

  lemma RuntimeNamesArePlain()
    ensures forall n :: n in RUNTIME ==> n == OPEN_CHILD || PlainName(n)
    ensures RUNTIME[OPEN_CHILD] == "1"
  {
  }

  lemma DeviceNamesArePlain()
    ensures forall n :: n in DEVICES ==> PlainName(n)
  {
  }

  lemma FixedNamesArePlain()
    ensures forall n :: n in FIXED ==> n == OPEN_CHILD || PlainName(n)
    ensures Getenv(FIXED, OPEN_CHILD) == "1" && DIRECT_CHILD !in FIXED
  {
    RuntimeNamesArePlain();
    DeviceNamesArePlain();
    ReadyNameIsPlain();
    Merged(RUNTIME, DEVICES);
  }

  lemma Merged(a: Environment, b: Environment)
    requires Getenv(a, OPEN_CHILD) == "1" && DIRECT_CHILD != OPEN_CHILD
    requires (forall n :: n in a ==> n == OPEN_CHILD || PlainName(n)) && forall n :: n in b ==> PlainName(n)
    ensures forall n :: n in a + b ==> n == OPEN_CHILD || PlainName(n)
    ensures Getenv(a + b, OPEN_CHILD) == "1" && DIRECT_CHILD !in a + b
  {
  }

  lemma OpenNamesArePlain(parent: Environment, readyFile: string)
    ensures forall n :: n in OpenValues(parent, readyFile) ==> n == OPEN_CHILD || PlainName(n)
    ensures Getenv(OpenValues(parent, readyFile), OPEN_CHILD) == "1"
    ensures DIRECT_CHILD !in OpenValues(parent, readyFile)
  {
    PolicyNamesArePlain();
    SessionNamesArePlain();
    LocalNamesArePlain();
    DesktopNamesArePlain();
    ToolNamesArePlain();
    FixedNamesArePlain();
    GroupsArePlain();
    ReadyNameIsPlain();
  }

  lemma GroupsArePlain()
    requires PlainNames(SESSION) && PlainNames(PROFILE) && PlainNames(POLICY)
    requires PlainNames(LOCAL) && PlainNames(DESKTOP) && PlainNames(TOOLS)
    ensures PlainNames(GUARD) && PlainNames(RETAINED)
  {
  }

  lemma ReadyNameIsPlain()
    ensures PlainName(READY_FILE) && '=' !in OPEN_CHILD && '=' !in DIRECT_CHILD && DIRECT_CHILD != OPEN_CHILD
  {
  }

  /** Copies the listed variables that hold no NUL. */
  method Retain(parent: Environment, names: seq<string>) returns (values: Environment)
    ensures values == RetainedValues(parent, names)
  {
    values := map[];
    for i := 0 to |names|
      invariant values == RetainedValues(parent, names[..i])
    {
      if names[i] in parent && '\0' !in parent[names[i]] {
        values := values[names[i] := parent[names[i]]];
      }
    }
    assert names[..|names|] == names;
  }

  lemma PolicyGrows(values: Environment, guarded: Environment, names: seq<string>, i: nat)
    requires i < |names| && names[i] in guarded
    ensures values + PolicyPart(guarded, names[..i + 1]) ==
            if HasPrefix(names[i], "RKC_") then (values + PolicyPart(guarded, names[..i]))[names[i] := guarded[names[i]]]
            else values + PolicyPart(guarded, names[..i])
  {
  }

  /** Adds the resource policy entries, found by their prefix, to the values. */
  method AddPolicy(values: Environment, entries: seq<string>, ghost guarded: Environment, ghost names: seq<string>)
    returns (extended: Environment)
    requires forall n :: n in names ==> n in guarded && '=' !in n
    requires entries == Entries(names, guarded)
    ensures extended == values + PolicyPart(guarded, names)
  {
    extended := values;
    for i := 0 to |entries|
      invariant extended == values + PolicyPart(guarded, names[..i])
    {
      assert names[i] in names;
      EntrySplits(names[i], guarded[names[i]]);
      PolicyGrows(values, guarded, names, i);
      var name, value := NameOf(entries[i]), ValueOf(entries[i]);
      if HasPrefix(name, "RKC_") {
        extended := extended[name := value];
      }
    }
    assert names[..|entries|] == names;
  }

  lemma PolicyOfGuard(parent: Environment, guard: seq<string>, names: seq<string>)
    requires SortedKeys(names, Restrict(parent, guard))
    ensures PolicyPart(Restrict(parent, guard), names) == PolicyPart(parent, guard)
  {
  }

  method GuardedOpenEnvironment(parent: Environment, readyFile: string) returns (entries: seq<string>)
    ensures Lists(entries, OpenValues(parent, readyFile))
  {
    var retained := Retain(parent, RETAINED);
    var guard := ResourceGuardEnvironment(parent);
    ghost var guarded := Restrict(parent, GUARD);
    ghost var names :| SortedKeys(names, guarded) && guard == Entries(names, guarded);
    GuardNamesArePlain();
    PolicyOfGuard(parent, GUARD, names);
    var values := AddPolicy(retained, guard, guarded, names);
    values := values + FIXED;
    if readyFile != "" {
      values := values[READY_FILE := readyFile];
    }
    entries := SortedEnvironment(values);
  }

  lemma GuardNamesArePlain()
    ensures PlainNames(GUARD)
  {
    PolicyNamesArePlain();
    SessionNamesArePlain();
  }

  /** The entries that do not set the named variable. */
  function Without(entries: seq<string>, name: string): seq<string> {
    if entries == [] then []
    else
      var rest := Without(entries[..|entries| - 1], name);
      var last := entries[|entries| - 1];
      if HasPrefix(last, name + "=") then rest else rest + [last]
  }

  /** The entries without the one marker and with the other. */
  function Remarked(base: seq<string>, dropped: string, marker: string, value: string): seq<string> {
    Sort(Without(base, dropped) + [Entry(marker, value)])
  }

  function DirectEntries(base: seq<string>, command: string): seq<string> {
    Remarked(base, OPEN_CHILD, DIRECT_CHILD, command)
  }

  method Remark(base: seq<string>, dropped: string, marker: string, value: string) returns (entries: seq<string>)
    ensures entries == Remarked(base, dropped, marker, value)
  {
    var result: seq<string> := [];
    for i := 0 to |base|
      invariant result == Without(base[..i], dropped)
    {
      assert base[..i + 1][..i] == base[..i];
      if !HasPrefix(base[i], dropped + "=") {
        result := result + [base[i]];
      }
    }
    assert base[..|base|] == base;
    result := result + [Entry(marker, value)];
    entries := Sort(result);
  }

  method GuardedDirectEnvironment(parent: Environment, command: string) returns (entries: seq<string>)
    ensures exists base :: Lists(base, OpenValues(parent, "")) && entries == DirectEntries(base, command)
  {
    var base := GuardedOpenEnvironment(parent, "");
    entries := Remark(base, OPEN_CHILD, DIRECT_CHILD, command);
  }

  lemma {:induction false} WithoutIsAFilter(entries: seq<string>, name: string)
    ensures forall e :: multiset(Without(entries, name))[e] == if HasPrefix(e, name + "=") then 0 else multiset(entries)[e]
  {
    if entries != [] {
      var front := entries[..|entries| - 1];
      assert entries == front + [entries[|entries| - 1]];
      WithoutIsAFilter(front, name);
    }
  }

  lemma EntryOf(entries: seq<string>, values: Environment, e: string) returns (name: string)
    requires Lists(entries, values) && e in entries
    ensures name in values && e == Entry(name, values[name])
  {
    var names :| SortedKeys(names, values) && entries == Entries(names, values);
    var i :| 0 <= i < |entries| && entries[i] == e;
    name := names[i];
    assert name in names;
  }

  lemma RemarkedMembers(base: seq<string>, dropped: string, marker: string, value: string, e: string)
    ensures e in Remarked(base, dropped, marker, value) <==>
            e == Entry(marker, value) || (e in base && !HasPrefix(e, dropped + "="))
    ensures multiset(Remarked(base, dropped, marker, value))[e] ==
            (if HasPrefix(e, dropped + "=") then 0 else multiset(base)[e]) + if e == Entry(marker, value) then 1 else 0
  {
    WithoutIsAFilter(base, dropped);
    var entries := Remarked(base, dropped, marker, value);
    assert multiset(entries) == multiset(Without(base, dropped)) + multiset{Entry(marker, value)};
    assert e in entries <==> e in multiset(entries);
    assert e in base <==> e in multiset(base);
  }

  /** Plain names, the marker not among them. */
  ghost predicate Remarkable(values: Environment, dropped: string, marker: string) {
    (forall n :: n in values ==> '=' !in n) && marker !in values && '=' !in dropped && '=' !in marker && dropped != marker
  }

  lemma RemarkedMarkers(values: Environment, base: seq<string>, dropped: string, marker: string, value: string, e: string)
    requires Lists(base, values) && Remarkable(values, dropped, marker)
    ensures multiset(Remarked(base, dropped, marker, value))[Entry(marker, value)] == 1
    ensures e in Remarked(base, dropped, marker, value) ==>
              (HasPrefix(e, marker + "=") ==> e == Entry(marker, value)) && !HasPrefix(e, dropped + "=")
  {
    var own := Entry(marker, value);
    RemarkedMembers(base, dropped, marker, value, e);
    RemarkedMembers(base, dropped, marker, value, own);
    PrefixTellsName(marker, value, dropped);
    PrefixTellsName(marker, value, marker);
    if e in base {
      var name := EntryOf(base, values, e);
      PrefixTellsName(name, values[name], marker);
    }
    if own in base {
      var name := EntryOf(base, values, own);
      PrefixTellsName(name, values[name], marker);
    }
  }

  lemma OpenIsRemarkable(parent: Environment)
    ensures Remarkable(OpenValues(parent, ""), OPEN_CHILD, DIRECT_CHILD)
  {
    OpenNamesArePlain(parent, "");
    ReadyNameIsPlain();
  }

  /** Of the entries a direct child starts with, exactly one names the direct
      marker, it names the command, and none names the open marker. */
  lemma DirectChildMarkers(parent: Environment, base: seq<string>, command: string)
    requires Lists(base, OpenValues(parent, ""))
    ensures var entries := DirectEntries(base, command);
            && multiset(entries)[Entry(DIRECT_CHILD, command)] == 1
            && (forall e :: e in entries && HasPrefix(e, DIRECT_CHILD + "=") ==> e == Entry(DIRECT_CHILD, command))
            && (forall e :: e in entries ==> !HasPrefix(e, OPEN_CHILD + "="))
  {
    OpenIsRemarkable(parent);
    RemarkedMarkers(OpenValues(parent, ""), base, OPEN_CHILD, DIRECT_CHILD, command, "");
    forall e | e in DirectEntries(base, command)
      ensures (HasPrefix(e, DIRECT_CHILD + "=") ==> e == Entry(DIRECT_CHILD, command)) && !HasPrefix(e, OPEN_CHILD + "=")
    {
      RemarkedMarkers(OpenValues(parent, ""), base, OPEN_CHILD, DIRECT_CHILD, command, e);
    }
  }

  predicate Sets(entries: seq<string>, name: string, value: string) {
    '=' !in name && Entry(name, value) in entries
  }

  lemma BoundIsExactly(entries: seq<string>, values: Environment)
    requires forall e :: e in entries ==> NameOf(e) in values && values[NameOf(e)] == ValueOf(e)
    requires forall n {:trigger Sets(entries, n, values[n])} :: n in values ==> Sets(entries, n, values[n])
    ensures Bound(entries) == values
  {
    BoundIs(entries, values);
    forall n | n in values ensures n in Bound(entries) {
      assert Sets(entries, n, values[n]);
      EntrySplits(n, values[n]);
    }
  }

  lemma ListedEntry(entries: seq<string>, values: Environment, name: string)
    requires Lists(entries, values) && name in values
    ensures Entry(name, values[name]) in entries
  {
    var names :| SortedKeys(names, values) && entries == Entries(names, values);
    assert name in names;
    var i :| 0 <= i < |names| && names[i] == name;
    assert entries[i] == Entry(name, values[name]);
  }

  lemma ListedIsBound(entries: seq<string>, values: Environment)
    requires Lists(entries, values) && forall n :: n in values ==> '=' !in n
    ensures Bound(entries) == values
  {
    forall n | n in values ensures Sets(entries, n, values[n]) {
      ListedEntry(entries, values, n);
    }
    forall e | e in entries ensures NameOf(e) in values && values[NameOf(e)] == ValueOf(e) {
      var name := EntryOf(entries, values, e);
      EntrySplits(name, values[name]);
    }
    BoundIsExactly(entries, values);
  }

  /** What an open child reads from its environment. */
  lemma OpenChildSees(parent: Environment, readyFile: string, entries: seq<string>)
    requires Lists(entries, OpenValues(parent, readyFile))
    ensures Bound(entries) == OpenValues(parent, readyFile)
  {
    OpenNamesArePlain(parent, readyFile);
    ReadyNameIsPlain();
    ListedIsBound(entries, OpenValues(parent, readyFile));
  }

  lemma RemarkedSees(values: Environment, base: seq<string>, dropped: string, marker: string, value: string)
    requires Lists(base, values) && Remarkable(values, dropped, marker)
    ensures Bound(Remarked(base, dropped, marker, value)) == (values - {dropped})[marker := value]
  {
    var entries, seen := Remarked(base, dropped, marker, value), (values - {dropped})[marker := value];
    forall n | n in seen ensures Sets(entries, n, seen[n]) {
      RemarkedMembers(base, dropped, marker, value, Entry(n, seen[n]));
      if n != marker {
        ListedEntry(base, values, n);
        PrefixTellsName(n, values[n], dropped);
      }
    }
    forall e | e in entries ensures NameOf(e) in seen && seen[NameOf(e)] == ValueOf(e) {
      RemarkedMembers(base, dropped, marker, value, e);
      if e == Entry(marker, value) {
        EntrySplits(marker, value);
      } else {
        var name := EntryOf(base, values, e);
        EntrySplits(name, values[name]);
        PrefixTellsName(name, values[name], dropped);
      }
    }
    BoundIsExactly(entries, seen);
  }

  /** What a direct child reads from its environment. */
  lemma DirectChildSees(parent: Environment, base: seq<string>, command: string)
    requires Lists(base, OpenValues(parent, ""))
    ensures Bound(DirectEntries(base, command)) == (OpenValues(parent, "") - {OPEN_CHILD})[DIRECT_CHILD := command]
  {
    OpenIsRemarkable(parent);
    RemarkedSees(OpenValues(parent, ""), base, OPEN_CHILD, DIRECT_CHILD, command);
  }

  /** A selected resource profile adds its settings, none of them a marker. */
  ghost predicate ProfileSettings(settings: Environment) {
    forall n :: n in settings ==> n in PROFILE || n in POLICY
  }

  // ---- The admission decision ----

  datatype Request =
    | Direct(command: string, args: seq<string>)
    | History
    | Open(help: bool, readyFile: string)

  datatype Action = RunLocal | RunProtected | Refuse | Launch

  /** What the process learns about itself: whether it is inside the required
      envelope, and whether it can be prepared for low-priority work. */
  datatype Findings = Findings(enveloped: bool, prepared: bool)

  /** runDirectCommandWithAdmissionUsing, from the platform test on. */
  function DecideGuarded(command: string, environment: Environment, found: Findings, checked: bool): Action {
    var guardedChild := Getenv(environment, DIRECT_CHILD);
    if guardedChild != "" && guardedChild != command then Refuse
    else if guardedChild == command || Getenv(environment, OPEN_CHILD) == "1" then
      if checked && !found.enveloped then Refuse else RunProtected
    else if found.prepared then RunProtected
    else Launch
  }

  function Decide(request: Request, environment: Environment, linux: bool, found: Findings): Action {
    match request
    case Direct(command, args) =>
      (match Admit(command, args)
       case HelpRequest => RunLocal
       case Rejected(_) => Refuse
       case Admitted => if !linux then RunLocal else DecideGuarded(command, environment, found, true))
    case History =>
      if !linux then RunLocal else DecideGuarded("history", environment, found, false)
    case Open(help, _) =>
      if help || !linux then RunLocal
      else if Getenv(environment, OPEN_CHILD) != "1" then Launch
      else if found.enveloped then RunProtected
      else Refuse
  }

  function MarkerFor(request: Request): string {
    if request.Direct? then request.command else "history"
  }

  ghost predicate ChildEntries(request: Request, environment: Environment, entries: seq<string>) {
    if request.Open? then
      Lists(entries, OpenValues(environment, request.readyFile))
    else
      exists base :: Lists(base, OpenValues(environment, "")) && entries == DirectEntries(base, MarkerFor(request))
  }

  ghost predicate MayLaunch(request: Request, environment: Environment) {
    exists found :: Decide(request, environment, true, found) == Launch
  }

  /** On Linux, the request may start a process with the child's environment. */
  ghost predicate Starts(request: Request, environment: Environment, child: Environment) {
    && MayLaunch(request, environment)
    && exists entries, settings ::
         ChildEntries(request, environment, entries) && ProfileSettings(settings) && child == Bound(entries) + settings
  }

  /** The unprotected path is taken exactly for help, off Linux, and never else. */
  lemma UnprotectedOnlyForHelp(request: Request, environment: Environment, linux: bool, found: Findings)
    ensures Decide(request, environment, linux, found) == RunLocal <==>
            match request
            case Direct(command, args) => Admit(command, args) == HelpRequest || (Admit(command, args) == Admitted && !linux)
            case History => !linux
            case Open(help, _) => help || !linux
  {
  }

  /** A direct marker that names another command. */
  predicate Foreign(request: Request, environment: Environment) {
    !request.Open? && Getenv(environment, DIRECT_CHILD) != "" && Getenv(environment, DIRECT_CHILD) != MarkerFor(request)
  }

  /** The process was started to do this: it carries the marker of a guarded
      open, or that of this very command. */
  predicate Expected(request: Request, environment: Environment) {
    Getenv(environment, OPEN_CHILD) == "1" || (!request.Open? && Getenv(environment, DIRECT_CHILD) == MarkerFor(request))
  }

  /** Nothing in the request itself is in the way. */
  predicate Sound(request: Request) {
    match request
    case Direct(command, args) => Admit(command, args) == Admitted
    case History => true
    case Open(help, _) => !help
  }

  /** On Linux, protected work runs only where it is safe: in a process that was
      started for it and, where that is checked, is inside its envelope, or in
      one that nobody marked and that could be prepared. */
  lemma ProtectedOnlyWhereSafe(request: Request, environment: Environment, found: Findings)
    ensures Decide(request, environment, true, found) == RunProtected <==>
            && Sound(request) && !Foreign(request, environment)
            && if Expected(request, environment) then request.History? || found.enveloped else !request.Open? && found.prepared
  {
  }

  /** And another process is started only for want of that: a sound request in a
      process that is not marked, and cannot be prepared (open does not try). */
  lemma LaunchesIff(request: Request, environment: Environment, found: Findings)
    ensures Decide(request, environment, true, found) == Launch <==>
            && Sound(request) && !Foreign(request, environment) && !Expected(request, environment)
            && (request.Open? || !found.prepared)
  {
  }

  /** A process that was marked for something else, or is outside the envelope
      it is checked against, is always refused; and nothing else is, but for
      what admission rejects. */
  lemma RefusedIff(request: Request, environment: Environment, found: Findings)
    ensures Decide(request, environment, true, found) == Refuse <==>
            || (request.Direct? && Admit(request.command, request.args).Rejected?)
            || (Sound(request) && Foreign(request, environment))
            || (Sound(request) && !request.History? && Expected(request, environment) && !found.enveloped)
  {
  }

  /** Its own request is what a started child then does, if its envelope is in
      place; it refuses any other direct command. */
  lemma ChildDoesItsRequest(request: Request, environment: Environment, child: Environment, next: Request, found: Findings)
    requires Starts(request, environment, child)
    ensures Decide(request, child, true, found) == if request.History? || found.enveloped then RunProtected else Refuse
    ensures !request.Open? && next.Direct? && next.command != MarkerFor(request) ==>
              Decide(next, child, true, found) == if Admit(next.command, next.args) == HelpRequest then RunLocal else Refuse
  {
    ChildMarkers(request, environment, child);
    var launched :| Decide(request, environment, true, launched) == Launch;
    LaunchesIff(request, environment, launched);
  }

  /** The environment of an open child, and of a direct child, to its readers. */
  predicate MarkedOpen(environment: Environment) {
    Getenv(environment, OPEN_CHILD) == "1" && Getenv(environment, DIRECT_CHILD) == ""
  }

  predicate MarkedDirect(environment: Environment, command: string) {
    Getenv(environment, OPEN_CHILD) == "" && Getenv(environment, DIRECT_CHILD) == command != ""
  }

  lemma SettingsKeepMarkers(environment: Environment, settings: Environment)
    requires ProfileSettings(settings)
    ensures Getenv(environment + settings, OPEN_CHILD) == Getenv(environment, OPEN_CHILD)
    ensures Getenv(environment + settings, DIRECT_CHILD) == Getenv(environment, DIRECT_CHILD)
  {
  }

  lemma OpenChildIsMarked(parent: Environment, readyFile: string, entries: seq<string>)
    requires Lists(entries, OpenValues(parent, readyFile))
    ensures MarkedOpen(Bound(entries))
  {
    OpenNamesArePlain(parent, readyFile);
    OpenChildSees(parent, readyFile, entries);
  }

  lemma DirectChildIsMarked(parent: Environment, base: seq<string>, command: string)
    requires Lists(base, OpenValues(parent, "")) && command != ""
    ensures MarkedDirect(Bound(DirectEntries(base, command)), command)
  {
    ReadyNameIsPlain();
    DirectChildSees(parent, base, command);
  }

  lemma LaunchedCommandHasName(request: Request, environment: Environment)
    requires MayLaunch(request, environment)
    ensures MarkerFor(request) != ""
  {
  }

  lemma ChildMarkers(request: Request, environment: Environment, child: Environment)
    requires Starts(request, environment, child)
    ensures if request.Open? then MarkedOpen(child) else MarkedDirect(child, MarkerFor(request))
  {
    var entries, settings :|
      ChildEntries(request, environment, entries) && ProfileSettings(settings) && child == Bound(entries) + settings;
    SettingsKeepMarkers(Bound(entries), settings);
    LaunchedCommandHasName(request, environment);
    if request.Open? {
      OpenChildIsMarked(environment, request.readyFile, entries);
    } else {
      var base :| Lists(base, OpenValues(environment, "")) && entries == DirectEntries(base, MarkerFor(request));
      DirectChildIsMarked(environment, base, MarkerFor(request));
    }
  }

  /** A marked process never launches again, unless a direct child is asked to open. */
  lemma MarkedNeverLaunches(environment: Environment, command: string, request: Request, found: Findings)
    requires MarkedOpen(environment) || MarkedDirect(environment, command)
    ensures Decide(request, environment, true, found) == Launch ==> MarkedDirect(environment, command) && request.Open?
  {
  }

  lemma ListsExist(values: Environment) returns (entries: seq<string>)
    ensures Lists(entries, values)
  {
    var names := ListingExists(values.Keys);
    assert SortedKeys(names, values);
    entries := Entries(names, values);
  }

  /** A launch that is decided can go through. */
  lemma LaunchCanStart(request: Request, environment: Environment) returns (child: Environment)
    requires MayLaunch(request, environment)
    ensures Starts(request, environment, child)
  {
    var entries;
    if request.Open? {
      entries := ListsExist(OpenValues(environment, request.readyFile));
    } else {
      var base := ListsExist(OpenValues(environment, ""));
      entries := DirectEntries(base, MarkerFor(request));
    }
    var settings: Environment := map[];
    assert ChildEntries(request, environment, entries) && ProfileSettings(settings);
    child := Bound(entries) + settings;
  }

  ghost predicate CanStart(request: Request, environment: Environment) {
    exists child :: Starts(request, environment, child)
  }

  /** What a guarded child can still start: nothing, but for a direct child that
      is asked to open. */
  lemma GuardedChildStartsIff(request: Request, environment: Environment, child: Environment, next: Request)
    requires Starts(request, environment, child)
    ensures CanStart(next, child) <==> !request.Open? && next.Open? && !next.help
  {
    ChildMarkers(request, environment, child);
    if CanStart(next, child) {
      var grandchild :| Starts(next, child, grandchild);
      var found :| Decide(next, child, true, found) == Launch;
      MarkedNeverLaunches(child, MarkerFor(request), next, found);
    } else if !request.Open? && next.Open? && !next.help {
      UnmarkedOpens(child, next);
      var grandchild := LaunchCanStart(next, child);
    }
  }

  lemma UnmarkedOpens(environment: Environment, request: Request)
    requires Getenv(environment, OPEN_CHILD) == "" && request.Open? && !request.help
    ensures MayLaunch(request, environment)
  {
    assert Decide(request, environment, true, Findings(true, true)) == Launch;
  }

  predicate Unmarked(environment: Environment) {
    Getenv(environment, OPEN_CHILD) == "" && Getenv(environment, DIRECT_CHILD) == ""
  }

  /** Asked to open, a direct child does launch once more: from any environment
      without markers and any admitted command there is such a path. */
  lemma DirectThenOpenLaunchesTwice(environment: Environment, command: string, args: seq<string>, readyFile: string)
    returns (environments: seq<Environment>)
    requires Unmarked(environment) && Admit(command, args) == Admitted
    ensures Path([Direct(command, args), Open(false, readyFile)], environments) && environments[0] == environment
  {
    var first, second := Direct(command, args), Open(false, readyFile);
    UnpreparedLaunches(environment, command, args);
    var child := LaunchCanStart(first, environment);
    var grandchild := DirectChildOpens(first, environment, child, readyFile);
    environments := [environment, child, grandchild];
    TwoStepsAreAPath(Starts, first, second, environment, child, grandchild);
  }

  lemma DirectChildOpens(request: Request, environment: Environment, child: Environment, readyFile: string)
    returns (grandchild: Environment)
    requires Starts(request, environment, child) && !request.Open?
    ensures Starts(Open(false, readyFile), child, grandchild)
  {
    GuardedChildStartsIff(request, environment, child, Open(false, readyFile));
    grandchild :| Starts(Open(false, readyFile), child, grandchild);
  }

  lemma TwoStepsAreAPath(starts: Starting, first: Request, second: Request, a: Environment, b: Environment, c: Environment)
    requires starts(first, a, b) && starts(second, b, c)
    ensures PathOf(starts, [first, second], [a, b, c])
  {
  }

  lemma UnpreparedLaunches(environment: Environment, command: string, args: seq<string>)
    requires Unmarked(environment) && Admit(command, args) == Admitted
    ensures MayLaunch(Direct(command, args), environment)
  {
    assert Decide(Direct(command, args), environment, true, Findings(false, false)) == Launch;
  }

  type Starting = (Request, Environment, Environment) -> bool

  /** A process tree's path: each process starts the next, making any request. */
  ghost predicate PathOf(starts: Starting, requests: seq<Request>, environments: seq<Environment>) {
    && |environments| == |requests| + 1
    && forall i :: 0 <= i < |requests| ==> starts(requests[i], environments[i], environments[i + 1])
  }

  ghost predicate Path(requests: seq<Request>, environments: seq<Environment>) {
    PathOf(Starts, requests, environments)
  }

  /** Whatever the processes find about themselves, a path of direct commands is
      one launch deep; an open child launches nothing; and so no path is longer
      than a direct child that is asked to open. */
  lemma LaunchDepth(requests: seq<Request>, environments: seq<Environment>)
    requires Path(requests, environments)
    ensures (forall r :: r in requests ==> !r.Open?) ==> |requests| <= 1
    ensures |requests| <= 2
    ensures |requests| == 2 ==> !requests[0].Open? && requests[1].Open? && !requests[1].help
  {
    if |requests| >= 2 {
      SecondLaunchOpens(requests, environments, 0);
      if |requests| >= 3 {
        SecondLaunchOpens(requests, environments, 1);
      }
    }
  }

  lemma SecondLaunchOpens(requests: seq<Request>, environments: seq<Environment>, i: nat)
    requires Path(requests, environments) && i + 1 < |requests|
    ensures !requests[i].Open? && requests[i + 1].Open? && !requests[i + 1].help
  {
    assert Starts(requests[i], environments[i], environments[i + 1]);
    assert Starts(requests[i + 1], environments[i + 1], environments[i + 2]);
    GuardedChildStartsIff(requests[i], environments[i], environments[i + 1], requests[i + 1]);
  }
}
