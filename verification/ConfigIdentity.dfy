/** Normalisation of a configuration and the digest that names a scan. */
module ConfigIdentity {
  import opened Text
  import opened Ordering

  // ---- Canonical lists ----

  /** What a list of strings says once blanks, order and repetition are ignored. */
  ghost function Names(values: seq<string>): set<string> {
    set v | v in values && TrimSpace(v) != "" :: TrimSpace(v)
  }

  function InsertNew(s: seq<string>, x: string): (r: seq<string>)
    requires StrictlySorted(s)
    ensures forall y :: y in r <==> y in s || y == x
    ensures StrictlySorted(r)
  {
    if s == [] then [x]
    else
      LessIsTotal(s[0], x);
      assert s == [s[0]] + s[1..];
      if s[0] == x then s
      else if Less(s[0], x) then
        PrependKeepsStrict(s[0], InsertNew(s[1..], x));
        [s[0]] + InsertNew(s[1..], x)
      else
        PrependBefore(x, s);
        [x] + s
  }

  lemma PrependKeepsStrict(x: string, s: seq<string>)
    ensures StrictlySorted(s) && (forall y :: y in s ==> Less(x, y)) ==> StrictlySorted([x] + s)
  {
  }

  lemma PrependBefore(x: string, s: seq<string>)
    requires StrictlySorted(s) && s != [] && Less(x, s[0])
    ensures StrictlySorted([x] + s)
  {
    forall i | 0 < i < |s| ensures Less(x, s[i]) {
      LessIsTransitive(x, s[0], s[i]);
    }
  }

  function Canonical(values: seq<string>): (r: seq<string>)
    ensures StrictlySorted(r)
  {
    if values == [] then []
    else
      var rest := Canonical(values[..|values| - 1]);
      var value := TrimSpace(values[|values| - 1]);
      if value == "" then rest else InsertNew(rest, value)
  }

  lemma {:induction false} CanonicalElements(values: seq<string>, x: string)
    ensures x in Canonical(values) <==> x in Names(values)
  {
    if values != [] {
      var front, last := values[..|values| - 1], values[|values| - 1];
      assert values == front + [last];
      CanonicalElements(front, x);
      assert x in Names(values) <==> x in Names(front) || (x == TrimSpace(last) && x != "");
    }
  }

  method UniqueSortedStrings(values: seq<string>) returns (out: seq<string>)
    ensures out == Canonical(values)
  {
    var names: set<string> := {};
    for i := 0 to |values|
      invariant names == Names(values[..i])
    {
      var value := TrimSpace(values[i]);
      assert values[..i + 1] == values[..i] + [values[i]];
      if value != "" {
        names := names + {value};
      }
    }
    assert values[..|values|] == values;
    out := SortedNames(names);
    forall x ensures x in out <==> x in Canonical(values) {
      CanonicalElements(values, x);
    }
    ListingIsUnique(out, Canonical(values));
  }

  /** Order, repetition and surrounding blanks never matter, and nothing else is lost. */
  lemma CanonicalTellsNames(a: seq<string>, b: seq<string>)
    ensures Canonical(a) == Canonical(b) <==> Names(a) == Names(b)
  {
    forall x ensures (x in Canonical(a) <==> x in Names(a)) && (x in Canonical(b) <==> x in Names(b)) {
      CanonicalElements(a, x);
      CanonicalElements(b, x);
    }
    if Names(a) == Names(b) {
      ListingIsUnique(Canonical(a), Canonical(b));
    }
  }

  lemma CanonicalIsIdempotent(values: seq<string>)
    ensures Canonical(Canonical(values)) == Canonical(values)
  {
    var once := Canonical(values);
    forall x ensures x in Names(once) <==> x in Names(values) {
      CanonicalElements(values, x);
      if x in Names(values) {
        var v :| v in values && TrimSpace(v) == x;
        TrimSpaceTrims(v);
        TrimmedIsFixed(x);
        assert x in once;
      }
      if x in Names(once) {
        var w :| w in once && TrimSpace(w) == x;
        CanonicalElements(values, w);
        var v :| v in values && TrimSpace(v) == w;
        TrimSpaceTrims(v);
        TrimmedIsFixed(w);
      }
    }
    CanonicalTellsNames(once, values);
  }

  // ---- The configuration ----

  datatype Workspace = Workspace(name: string, privacyMode: string, output: string)

  datatype Inventory = Inventory(
    maxFileBytes: int, maxTextBytes: int, maxRepositoryBytes: int, maxFiles: int, followSymlinks: bool,
    exclude: seq<string>, classifyVendorDirectories: bool, classifyGeneratedFiles: bool)

  datatype Analysis = Analysis(
    tiers: seq<string>, failClosedOnPluginError: bool, incremental: bool, runtimeEvidence: bool)

  datatype PythonAst = PythonAst(enabled: bool, interpreter: string, script: string, timeoutSeconds: int)

  datatype PluginLimits = PluginLimits(
    enabled: bool, allowNetwork: bool, allowProcessSpawn: bool, nativeWorkerSandbox: string, timeoutSeconds: int,
    memorySwapLimitMiB: int, processLimit: int, maximumOutputBytes: int)

  datatype Plugins = Plugins(
    limits: PluginLimits, directories: seq<string>, memoryLimitMiB: int, legacyMemoryLimitMB: int,
    pythonAst: PythonAst, goAst: bool, typeScriptSyntax: bool)

  datatype Frameworks = Frameworks(
    enabled: bool, markdown: bool, openApiJson: bool, jsonSchema: bool, packageManifests: bool, environmentFiles: bool)

  datatype Security = Security(detectSecrets: bool, redactExports: bool)

  datatype Documentation = Documentation(
    deterministicTemplates: bool, modelSynthesis: bool, requireEvidence: bool, rejectUnknownSymbols: bool)

  datatype Model = Model(
    provider: string, modelName: string, modelPath: string, contextTokens: int, maxOutputTokens: int,
    temperature: real, maxRssMiB: int, legacyPeakMemoryMiB: int)

  const NO_MODEL := Model("", "", "", 0, 0, 0.0, 0, 0)

  datatype Search = Search(
    enabled: bool, lexical: bool, embeddings: bool, embeddingModel: string, graphExpansionHops: int)

  datatype LegacyExports = LegacyExports(
    markdown: Option<bool>, sqlite: Option<bool>, notebookLM: Option<bool>, mcp: Option<bool>)

  datatype Exports = Exports(
    normalizedSources: bool, jsonlGraph: bool, staticSite: bool, searchIndex: bool, integrations: bool,
    notebookPackBytes: int, snapshotStore: string, jsonl: Option<bool>, sarif: Option<bool>, legacy: LegacyExports)

  datatype Thresholds = Thresholds(
    minSymbolEvidence: real, minEdgeResolution: real, minClaimCitation: real, maxErrorDiagnostics: int,
    maxHighConfidenceSecrets: int, requireDeterminism: bool,
    publicSymbolDocumentation: Option<real>, uncitedGeneratedClaims: Option<int>)

  datatype QualityGates = QualityGates(
    minInventoryAccounting: real, maxUnresolvedEdges: int, inventoryAccounting: Option<real>,
    danglingEdges: Option<int>, thresholds: Thresholds)

  datatype Config = Config(
    schemaURI: string, schemaVersion: string, workspace: Workspace, inventory: Inventory, analysis: Analysis,
    plugins: Plugins, frameworks: Frameworks, security: Security, documentation: Documentation, model: Model,
    search: Search, exports: Exports, qualityGates: QualityGates)

  const SCHEMA_VERSION := "0.2.0"

  // ---- What normalisation amounts to ----

  function NormalVersion(version: string): string {
    if version == "" || version == "0.1.0" then SCHEMA_VERSION else version
  }

  function BudgetedPlugins(p: Plugins): Plugins {
    p.(memoryLimitMiB := if p.memoryLimitMiB == 0 then p.legacyMemoryLimitMB else p.memoryLimitMiB)
  }

  function NormalModel(m: Model): Model {
    m.(maxRssMiB := if m.maxRssMiB == 0 then m.legacyPeakMemoryMiB else m.maxRssMiB,
       modelPath := if m.provider == "llama.cpp" && m.modelPath == "" then m.modelName else m.modelPath)
  }

  function NormalExports(e: Exports): Exports {
    e.(jsonlGraph := if e.jsonl.Some? then e.jsonl.value else e.jsonlGraph,
       integrations := if e.sarif.Some? then e.sarif.value else e.integrations)
  }

  function NormalGates(q: QualityGates): QualityGates {
    q.(minInventoryAccounting := if q.inventoryAccounting.Some? then q.inventoryAccounting.value else q.minInventoryAccounting,
       maxUnresolvedEdges := if q.danglingEdges == Some(0) then 0 else q.maxUnresolvedEdges)
  }

  function WithVersion(c: Config): Config {
    c.(schemaVersion := NormalVersion(c.schemaVersion))
  }

  function WithBudgets(c: Config): Config {
    c.(plugins := BudgetedPlugins(c.plugins), model := NormalModel(c.model))
  }

  function WithExports(c: Config): Config {
    c.(exports := NormalExports(c.exports))
  }

  function WithGates(c: Config): Config {
    c.(qualityGates := NormalGates(c.qualityGates))
  }

  function WithLists(c: Config): Config {
    c.(inventory := c.inventory.(exclude := Canonical(c.inventory.exclude)),
       analysis := c.analysis.(tiers := Canonical(c.analysis.tiers)),
       plugins := c.plugins.(directories := Canonical(c.plugins.directories)))
  }

  function Normalized(c: Config): Config {
    WithLists(WithGates(WithExports(WithBudgets(WithVersion(c)))))
  }

  class Configuration {
    var schemaURI: string
    var schemaVersion: string
    var workspace: Workspace
    var inventory: Inventory
    var analysis: Analysis
    var plugins: Plugins
    var frameworks: Frameworks
    var security: Security
    var documentation: Documentation
    var model: Model
    var search: Search
    var exports: Exports
    var qualityGates: QualityGates

    function Value(): Config
      reads this
    {
      Config(schemaURI, schemaVersion, workspace, inventory, analysis, plugins, frameworks, security,
             documentation, model, search, exports, qualityGates)
    }

    constructor (c: Config)
      ensures Value() == c
    {
      schemaURI, schemaVersion, workspace, inventory := c.schemaURI, c.schemaVersion, c.workspace, c.inventory;
      analysis, plugins, frameworks, security := c.analysis, c.plugins, c.frameworks, c.security;
      documentation, model, search := c.documentation, c.model, c.search;
      exports, qualityGates := c.exports, c.qualityGates;
    }

    method Normalize()
      modifies this
      ensures Value() == Normalized(old(Value()))
    {
      NormalizeVersion();
      NormalizeBudgets();
      NormalizeExports();
      NormalizeGates();
      NormalizeLists();
    }

    method NormalizeVersion()
      modifies this
      ensures Value() == WithVersion(old(Value()))
    {
      if schemaVersion == "" {
        schemaVersion := SCHEMA_VERSION;
      }
      if schemaVersion == "0.1.0" {
        schemaVersion := SCHEMA_VERSION;
      }
    }

    method NormalizeBudgets()
      modifies this
      ensures Value() == WithBudgets(old(Value()))
    {
      if plugins.memoryLimitMiB == 0 {
        plugins := plugins.(memoryLimitMiB := plugins.legacyMemoryLimitMB);
      }
      if model.maxRssMiB == 0 {
        model := model.(maxRssMiB := model.legacyPeakMemoryMiB);
      }
      if model.provider == "llama.cpp" && model.modelPath == "" {
        model := model.(modelPath := model.modelName);
      }
    }

    method NormalizeExports()
      modifies this
      ensures Value() == WithExports(old(Value()))
    {
      if exports.jsonl.Some? {
        exports := exports.(jsonlGraph := exports.jsonl.value);
      }
      if exports.sarif.Some? {
        exports := exports.(integrations := exports.sarif.value);
      }
    }

    method NormalizeGates()
      modifies this
      ensures Value() == WithGates(old(Value()))
    {
      if qualityGates.inventoryAccounting.Some? {
        qualityGates := qualityGates.(minInventoryAccounting := qualityGates.inventoryAccounting.value);
      }
      if qualityGates.danglingEdges.Some? && qualityGates.danglingEdges.value == 0 {
        qualityGates := qualityGates.(maxUnresolvedEdges := 0);
      }
    }

    method NormalizeLists()
      modifies this
      ensures Value() == WithLists(old(Value()))
    {
      var exclude := UniqueSortedStrings(inventory.exclude);
      inventory := inventory.(exclude := exclude);
      var tiers := UniqueSortedStrings(analysis.tiers);
      analysis := analysis.(tiers := tiers);
      var directories := UniqueSortedStrings(plugins.directories);
      plugins := plugins.(directories := directories);
    }

    /** The digest works on a copy: the configuration itself keeps its value. */
    method Digest(encode: Config -> string) returns (digest: string)
      ensures digest == encode(Identity(Value()))
    {
      var normalized := new Configuration(Value());
      normalized.Normalize();
      normalized.workspace := normalized.workspace.(output := "");
      normalized.exports := normalized.exports.(snapshotStore := "");
      normalized.analysis := normalized.analysis.(incremental := false);
      normalized.model := NO_MODEL;
      normalized.documentation := normalized.documentation.(modelSynthesis := false);
      digest := encode(normalized.Value());
    }
  }

  /** The part of a configuration that names a scan. */
  function Identity(c: Config): Config {
    var n := Normalized(c);
    n.(workspace := n.workspace.(output := ""),
       exports := n.exports.(snapshotStore := ""),
       analysis := n.analysis.(incremental := false),
       model := NO_MODEL,
       documentation := n.documentation.(modelSynthesis := false))
  }

  lemma NormalizeIsIdempotent(c: Config)
    ensures Normalized(Normalized(c)) == Normalized(c)
  {
    CanonicalIsIdempotent(c.inventory.exclude);
    CanonicalIsIdempotent(c.analysis.tiers);
    CanonicalIsIdempotent(c.plugins.directories);
  }

  /** A legacy key that is set decides its successor; one that is not, leaves it. */
  predicate Decides<T(==)>(legacy: Option<T>, before: T, now: T) {
    now == if legacy.Some? then legacy.value else before
  }

  /** A limit of zero is not set; the legacy key then stands in. */
  predicate StandsIn(limit: int, legacy: int, now: int) {
    (limit != 0 ==> now == limit) && (limit == 0 ==> now == legacy)
  }

  /** What a normalised configuration says, key by key. */
  lemma NormalizeSettlesLegacyKeys(c: Config)
    ensures var n := Normalized(c);
            && n.schemaVersion == (if c.schemaVersion in {"", "0.1.0"} then "0.2.0" else c.schemaVersion)
            && StandsIn(c.plugins.memoryLimitMiB, c.plugins.legacyMemoryLimitMB, n.plugins.memoryLimitMiB)
            && StandsIn(c.model.maxRssMiB, c.model.legacyPeakMemoryMiB, n.model.maxRssMiB)
            && n.model.modelPath == (if c.model.provider == "llama.cpp" && c.model.modelPath == "" then c.model.modelName
                                     else c.model.modelPath)
            && Decides(c.exports.jsonl, c.exports.jsonlGraph, n.exports.jsonlGraph)
            && Decides(c.exports.sarif, c.exports.integrations, n.exports.integrations)
            && Decides(c.qualityGates.inventoryAccounting, c.qualityGates.minInventoryAccounting,
                       n.qualityGates.minInventoryAccounting)
            && n.qualityGates.maxUnresolvedEdges == (if c.qualityGates.danglingEdges == Some(0) then 0
                                                     else c.qualityGates.maxUnresolvedEdges)
  {
  }

  /** And nothing else changes, but for the three lists, which come out sorted
      with the same names. */
  lemma NormalizeKeepsTheRest(c: Config)
    ensures var n := Normalized(c);
            && n == c.(schemaVersion := n.schemaVersion, inventory := n.inventory, analysis := n.analysis, plugins := n.plugins,
                       model := n.model, exports := n.exports, qualityGates := n.qualityGates)
            && n.inventory == c.inventory.(exclude := n.inventory.exclude)
            && n.analysis == c.analysis.(tiers := n.analysis.tiers)
            && n.plugins == c.plugins.(memoryLimitMiB := n.plugins.memoryLimitMiB, directories := n.plugins.directories)
            && n.model == c.model.(maxRssMiB := n.model.maxRssMiB, modelPath := n.model.modelPath)
            && n.exports == c.exports.(jsonlGraph := n.exports.jsonlGraph, integrations := n.exports.integrations)
            && n.qualityGates == c.qualityGates.(minInventoryAccounting := n.qualityGates.minInventoryAccounting,
                                                 maxUnresolvedEdges := n.qualityGates.maxUnresolvedEdges)
    ensures var n := Normalized(c);
            && ListsNames(n.inventory.exclude, c.inventory.exclude) && ListsNames(n.analysis.tiers, c.analysis.tiers)
            && ListsNames(n.plugins.directories, c.plugins.directories)
  {
    CanonicalListsNames(c.inventory.exclude);
    CanonicalListsNames(c.analysis.tiers);
    CanonicalListsNames(c.plugins.directories);
  }

  /** Sorted, each once, and with the trimmed non-blank strings of `values`. */
  ghost predicate ListsNames(list: seq<string>, values: seq<string>) {
    StrictlySorted(list) && forall x :: x in list <==> x in Names(values)
  }

  lemma CanonicalListsNames(values: seq<string>)
    ensures ListsNames(Canonical(values), values)
  {
    forall x ensures x in Canonical(values) <==> x in Names(values) {
      CanonicalElements(values, x);
    }
  }

  // ---- What the digest identifies ----

  /** JSON encoding and SHA-256, taken together, as an injective function. */
  ghost predicate Injective(encode: Config -> string) {
    forall a, b :: encode(a) == encode(b) ==> a == b
  }

  predicate SameExports(a: Exports, b: Exports) {
    && a.normalizedSources == b.normalizedSources && a.jsonlGraph == b.jsonlGraph && a.staticSite == b.staticSite
    && a.searchIndex == b.searchIndex && a.integrations == b.integrations && a.notebookPackBytes == b.notebookPackBytes
    && a.jsonl == b.jsonl && a.sarif == b.sarif && a.legacy == b.legacy
  }

  /** Equal but for the output, the snapshot store, incremental execution, the
      model and model synthesis. */
  predicate SameIdentity(a: Config, b: Config) {
    && a.schemaURI == b.schemaURI && a.schemaVersion == b.schemaVersion
    && a.workspace.name == b.workspace.name && a.workspace.privacyMode == b.workspace.privacyMode
    && a.inventory == b.inventory && a.plugins == b.plugins && a.frameworks == b.frameworks
    && a.analysis.tiers == b.analysis.tiers && a.analysis.runtimeEvidence == b.analysis.runtimeEvidence
    && a.analysis.failClosedOnPluginError == b.analysis.failClosedOnPluginError
    && a.security == b.security && a.search == b.search && SameExports(a.exports, b.exports)
    && a.documentation.deterministicTemplates == b.documentation.deterministicTemplates
    && a.documentation.requireEvidence == b.documentation.requireEvidence
    && a.documentation.rejectUnknownSymbols == b.documentation.rejectUnknownSymbols
    && a.qualityGates == b.qualityGates
  }

  lemma DigestNamesTheScan(encode: Config -> string, a: Config, b: Config)
    requires Injective(encode)
    ensures encode(Identity(a)) == encode(Identity(b)) <==> SameIdentity(Normalized(a), Normalized(b))
  {
  }

  /** Loading normalises before the digest is taken; nothing changes by that. */
  lemma NormalizeKeepsTheDigest(encode: Config -> string, c: Config)
    ensures encode(Identity(Normalized(c))) == encode(Identity(c))
  {
    NormalizeIsIdempotent(c);
  }

  /** Two spellings of the lists name one scan exactly when they say the same. */
  lemma ListSpellingNeverMatters(encode: Config -> string, c: Config, exclude: seq<string>, tiers: seq<string>,
                                 directories: seq<string>)
    requires Injective(encode)
    ensures var d := c.(inventory := c.inventory.(exclude := exclude), analysis := c.analysis.(tiers := tiers),
                        plugins := c.plugins.(directories := directories));
            encode(Identity(d)) == encode(Identity(c)) <==>
            && Names(exclude) == Names(c.inventory.exclude) && Names(tiers) == Names(c.analysis.tiers)
            && Names(directories) == Names(c.plugins.directories)
  {
    var d := c.(inventory := c.inventory.(exclude := exclude), analysis := c.analysis.(tiers := tiers),
                plugins := c.plugins.(directories := directories));
    DigestNamesTheScan(encode, d, c);
    CanonicalTellsNames(exclude, c.inventory.exclude);
    CanonicalTellsNames(tiers, c.analysis.tiers);
    CanonicalTellsNames(directories, c.plugins.directories);
  }
}
