/** Reading a printed vector back: the vector that quickstart prints for scan
    gives every flag the value that quickstart was asked for. */
module ArgumentRoundTrips {
  import opened Text
  import opened GoFlag
  import opened Admission
  import opened Segments
  import opened ArgumentVectors

  // ---- Reading one flag back from a printed vector ----

  function ReadSegments(segments: seq<Segment>, name: Name, v: Value): Value
    decreases |segments|
  {
    if segments == [] then v
    else
      ReadSegments(segments[1..], name, if segments[0].name == name then Assign(v, SegmentText(segments[0])) else v)
  }

  lemma {:induction false} ReadingOfSegments(segments: seq<Segment>, name: Name, v: Value)
    ensures Reading(AsAssignments(segments), Spell(name), v) == ReadSegments(segments, name, v)
    decreases |segments|
  {
    if segments != [] {
      DecodeSpell(segments[0].name);
      DecodeSpell(name);
      ReadingOfSegments(segments[1..], name, if segments[0].name == name then Assign(v, SegmentText(segments[0])) else v);
      assert AsAssignments(segments)[1..] == AsAssignments(segments[1..]);
    }
  }

  lemma {:induction false} ReadSegmentsConcat(a: seq<Segment>, b: seq<Segment>, name: Name, v: Value)
    ensures ReadSegments(a + b, name, v) == ReadSegments(b, name, ReadSegments(a, name, v))
    decreases |a|
  {
    if a == [] {
      assert a + b == b;
    } else {
      ReadSegmentsConcat(a[1..], b, name, if a[0].name == name then Assign(v, SegmentText(a[0])) else v);
      assert (a + b)[1..] == a[1..] + b && (a + b)[0] == a[0];
    }
  }

  /** Trimming a list entry again changes nothing, so a list survives reprinting. */
  lemma {:induction false} ReadEntries(printed: Name, values: seq<string>, name: Name, entries: seq<string>)
    requires ListEntries(values)
    ensures ReadSegments(Entries(printed, values), name, ListValue(entries)) ==
            ListValue(if printed == name then entries + values else entries)
    decreases |values|
  {
    if values != [] {
      assert values[0] in values;
      TrimmedIsFixed(values[0]);
      ReadEntries(printed, values[1..], name, if printed == name then entries + [values[0]] else entries);
      assert Entries(printed, values)[1..] == Entries(printed, values[1..]);
      assert entries + [values[0]] + values[1..] == entries + values;
    }
  }

  lemma {:induction false} SkipEntries(printed: Name, values: seq<string>, name: Name, v: Value)
    requires printed != name
    ensures ReadSegments(Entries(printed, values), name, v) == v
  {
    if values != [] {
      SkipEntries(printed, values[1..], name, v);
      assert Entries(printed, values)[1..] == Entries(printed, values[1..]);
    }
  }

  function Or(value: string, standard: string): string {
    if value != "" then value else standard
  }

  /** An item whose flag holds the kind of value the item prints. */
  predicate Fits(item: Item, v: Value) {
    match item
    case Required(_, _) => v.TextValue?
    case Optional(_, _) => v.TextValue?
    case Override(_, _, _) => v.TextValue?
    case TurnOn(_, _) => v.BoolValue?
    case TurnOff(_, _) => v.BoolValue?
    case Repeated(_, values) => v.ListValue? && ListEntries(values)
  }

  function Effect(item: Item, v: Value): Value
    requires Fits(item, v)
  {
    match item
    case Required(_, x) => TextValue(x)
    case Optional(_, x) => TextValue(Or(x, v.text))
    case Override(_, x, standard) => TextValue(if x != standard then x else v.text)
    case TurnOn(_, on) => BoolValue(on || v.on)
    case TurnOff(_, on) => BoolValue(on && v.on)
    case Repeated(_, values) => ListValue(v.entries + values)
  }

  lemma ReadItem(item: Item, name: Name, v: Value)
    requires item.name == name ==> Fits(item, v)
    ensures ReadSegments(Pieces(item), name, v) == if item.name == name then Effect(item, v) else v
  {
    if item.Repeated? {
      if item.name == name {
        ReadEntries(name, item.values, name, v.entries);
      } else {
        SkipEntries(item.name, item.values, name, v);
      }
    } else if Pieces(item) != [] {
      assert Pieces(item)[1..] == [];
    }
  }

  /** All the items of a vector that set one flag agree with its kind. */
  predicate AllFit(v: Vector, name: Name, initial: Value) {
    v.Then? ==> AllFit(v.before, name, initial) && (v.item.name == name ==> Fits(v.item, After(v.before, name, initial)))
  }

  function After(v: Vector, name: Name, initial: Value): Value
    decreases v, 0
  {
    match v
    case Start => initial
    case Then(before, item) =>
      var value := After(before, name, initial);
      if item.name == name && Fits(item, value) then Effect(item, value) else value
  }

  lemma {:induction false} ReadVector(v: Vector, name: Name, initial: Value)
    requires AllFit(v, name, initial)
    ensures ReadSegments(Expand(v), name, initial) == After(v, name, initial)
  {
    if v.Then? {
      ReadVector(v.before, name, initial);
      ReadSegmentsConcat(Expand(v.before), Pieces(v.item), name, initial);
      ReadItem(v.item, name, After(v.before, name, initial));
    }
  }

  // ---- quickstart -> scan ----

  /** The kind of variable behind each flag. */
  predicate RightKind(name: Name, v: Value) {
    match name
    case NoGitMetadata => v.BoolValue?
    case Python => v.BoolValue?
    case NoPython => v.BoolValue?
    case Clean => v.BoolValue?
    case NoCache => v.BoolValue?
    case Force => v.BoolValue?
    case ScipNoPinCheck => v.BoolValue?
    case _ => if IsList(name) then v.ListValue? else v.TextValue?
  }

  /** The value of each scan flag that a quickstart run asks for, over scan's own
      default `d` for it; flags quickstart does not print keep their default. */
  function ScanValueFor(q: QuickstartOptions, atlas: string, state: string, name: Name, d: Value): Value
    requires RightKind(name, d)
  {
    match name
    case Out => TextValue(atlas)
    case StateDir => TextValue(state)
    case Config => TextValue(Or(q.config, d.text))
    case NoGitMetadata => BoolValue(q.noGitMetadata || d.on)
    case NoPython => BoolValue(!q.enablePython || d.on)
    case NoCache => BoolValue(q.clean || d.on)
    case Force => BoolValue(q.force || d.on)
    case ScipIndex => ListValue(d.entries + q.scipIndexes)
    case ScipGenerate => ListValue(d.entries + q.scipGenerate)
    case ScipTool => TextValue(Or(q.scipTool, d.text))
    case ScipLock => TextValue(q.scipLock)
    case ScipNoPinCheck => BoolValue(q.scipNoPinCheck || d.on)
    case TracePath => ListValue(d.entries + q.tracePaths)
    case History => TextValue(Or(q.historyPath, d.text))
    case Python => d
    case Clean => d
  }

  // ---- The kinds the two commands register ----

  function KindOf(n: Name): Kind {
    if IsList(n) then TextList else if RightKind(n, BoolValue(false)) then Boolean else PlainText
  }

  lemma ScanKinds(n: Name)
    requires !n.Python? && !n.Clean?
    ensures ScanRegistration(Spell(n)) == Some(KindOf(n))
  {
  }

  lemma QuickstartKinds(n: Name)
    requires !n.NoPython? && !n.NoCache?
    ensures QuickstartRegistration(Spell(n)) == Some(KindOf(n))
  {
  }

  /** An item of the right shape for its flag; `a` and `b` are the two flags the
      other command does not have. */
  predicate Shaped(item: Item, a: Name, b: Name) {
    && item.name != a && item.name != b
    && match item
       case TurnOn(n, _) => KindOf(n) == Boolean
       case TurnOff(n, _) => KindOf(n) == Boolean
       case Repeated(n, values) => KindOf(n) == TextList && ListEntries(values)
       case _ => KindOf(item.name) == PlainText
  }

  predicate AllShaped(v: Vector, a: Name, b: Name) {
    v.Then? ==> AllShaped(v.before, a, b) && Shaped(v.item, a, b)
  }

  /** One more item: it changes the flag it names and no other. */
  lemma Extend(v: Vector, item: Item, name: Name, d: Value) returns (longer: Vector)
    requires AllFit(v, name, d) && (item.name == name ==> Fits(item, After(v, name, d)))
    ensures longer == v.And(item) && AllFit(longer, name, d)
    ensures After(longer, name, d) == if item.name == name then Effect(item, After(v, name, d)) else After(v, name, d)
  {
    longer := v.And(item);
  }

  /** Quickstart prints scan's flags in four runs. */
  datatype Group = Paths | Switches | Indexers | Evidence | Unprinted

  function GroupOf(name: Name): Group {
    match name
    case Out => Paths
    case StateDir => Paths
    case Config => Paths
    case NoGitMetadata => Switches
    case NoPython => Switches
    case NoCache => Switches
    case Force => Switches
    case ScipIndex => Indexers
    case ScipGenerate => Indexers
    case ScipTool => Indexers
    case ScipLock => Indexers
    case ScipNoPinCheck => Evidence
    case TracePath => Evidence
    case History => Evidence
    case _ => Unprinted
  }

  /** The items of one group set the flags of the group and leave the others. */
  ghost predicate Extends(v: Vector, longer: Vector, group: Group, name: Name, d: Value, value: Value) {
    && AllFit(longer, name, d)
    && After(longer, name, d) == if GroupOf(name) == group then value else After(v, name, d)
  }

  lemma ExtendPaths(v: Vector, q: QuickstartOptions, atlas: string, state: string, lock: string, name: Name, d: Value)
    returns (longer: Vector)
    requires q.Valid() && RightKind(name, d) && (name == ScipLock ==> d == TextValue(lock))
    requires AllFit(v, name, d) && (GroupOf(name) == Paths ==> After(v, name, d) == d)
    ensures longer == v.And(Required(Out, atlas)).And(Required(StateDir, state)).And(Optional(Config, q.config))
    ensures Extends(v, longer, Paths, name, d, ScanValueFor(q, atlas, state, name, d))
  {
    longer := v;
    longer := Extend(longer, Required(Out, atlas), name, d);
    longer := Extend(longer, Required(StateDir, state), name, d);
    longer := Extend(longer, Optional(Config, q.config), name, d);
  }

  lemma ExtendSwitches(v: Vector, q: QuickstartOptions, atlas: string, state: string, lock: string, name: Name, d: Value)
    returns (longer: Vector)
    requires q.Valid() && RightKind(name, d) && (name == ScipLock ==> d == TextValue(lock))
    requires AllFit(v, name, d) && (GroupOf(name) == Switches ==> After(v, name, d) == d)
    ensures longer == v.And(TurnOn(NoGitMetadata, q.noGitMetadata)).And(TurnOn(NoPython, !q.enablePython)).And(TurnOn(NoCache, q.clean)).And(TurnOn(Force, q.force))
    ensures Extends(v, longer, Switches, name, d, ScanValueFor(q, atlas, state, name, d))
  {
    longer := v;
    longer := Extend(longer, TurnOn(NoGitMetadata, q.noGitMetadata), name, d);
    longer := Extend(longer, TurnOn(NoPython, !q.enablePython), name, d);
    longer := Extend(longer, TurnOn(NoCache, q.clean), name, d);
    longer := Extend(longer, TurnOn(Force, q.force), name, d);
  }

  lemma ExtendIndexers(v: Vector, q: QuickstartOptions, atlas: string, state: string, lock: string, name: Name, d: Value)
    returns (longer: Vector)
    requires q.Valid() && RightKind(name, d) && (name == ScipLock ==> d == TextValue(lock))
    requires AllFit(v, name, d) && (GroupOf(name) == Indexers ==> After(v, name, d) == d)
    ensures longer == v.And(Repeated(ScipIndex, q.scipIndexes)).And(Repeated(ScipGenerate, q.scipGenerate)).And(Optional(ScipTool, q.scipTool)).And(Override(ScipLock, q.scipLock, lock))
    ensures Extends(v, longer, Indexers, name, d, ScanValueFor(q, atlas, state, name, d))
  {
    longer := v;
    longer := Extend(longer, Repeated(ScipIndex, q.scipIndexes), name, d);
    longer := Extend(longer, Repeated(ScipGenerate, q.scipGenerate), name, d);
    longer := Extend(longer, Optional(ScipTool, q.scipTool), name, d);
    longer := Extend(longer, Override(ScipLock, q.scipLock, lock), name, d);
  }

  lemma ExtendEvidence(v: Vector, q: QuickstartOptions, atlas: string, state: string, lock: string, name: Name, d: Value)
    returns (longer: Vector)
    requires q.Valid() && RightKind(name, d) && (name == ScipLock ==> d == TextValue(lock))
    requires AllFit(v, name, d) && (GroupOf(name) == Evidence ==> After(v, name, d) == d)
    ensures longer == v.And(TurnOn(ScipNoPinCheck, q.scipNoPinCheck)).And(Repeated(TracePath, q.tracePaths)).And(Optional(History, q.historyPath))
    ensures Extends(v, longer, Evidence, name, d, ScanValueFor(q, atlas, state, name, d))
  {
    longer := v;
    longer := Extend(longer, TurnOn(ScipNoPinCheck, q.scipNoPinCheck), name, d);
    longer := Extend(longer, Repeated(TracePath, q.tracePaths), name, d);
    longer := Extend(longer, Optional(History, q.historyPath), name, d);
  }

  lemma ScanItemsMean(q: QuickstartOptions, atlas: string, state: string, lock: string, name: Name, d: Value)
    requires q.Valid() && RightKind(name, d) && (name == ScipLock ==> d == TextValue(lock))
    ensures AllFit(ScanItems(q, atlas, state, lock), name, d)
    ensures After(ScanItems(q, atlas, state, lock), name, d) == ScanValueFor(q, atlas, state, name, d)
  {
    var v := ExtendPaths(Start, q, atlas, state, lock, name, d);
    v := ExtendSwitches(v, q, atlas, state, lock, name, d);
    v := ExtendIndexers(v, q, atlas, state, lock, name, d);
    v := ExtendEvidence(v, q, atlas, state, lock, name, d);
  }

  lemma ShapeOneMore(v: Vector, item: Item, a: Name, b: Name) returns (longer: Vector)
    requires AllShaped(v, a, b) && Shaped(item, a, b)
    ensures longer == v.And(item) && AllShaped(longer, a, b)
  {
    longer := v.And(item);
  }

  lemma ScanPathsShaped(q: QuickstartOptions, atlas: string, state: string) returns (v: Vector)
    ensures v == Start.And(Required(Out, atlas)).And(Required(StateDir, state)).And(Optional(Config, q.config))
    ensures AllShaped(v, Python, Clean)
  {
    v := Start;
    v := ShapeOneMore(v, Required(Out, atlas), Python, Clean);
    v := ShapeOneMore(v, Required(StateDir, state), Python, Clean);
    v := ShapeOneMore(v, Optional(Config, q.config), Python, Clean);
  }

  lemma ScanHeadShaped(q: QuickstartOptions, atlas: string, state: string)
    ensures AllShaped(ScanHeadItems(q, atlas, state), Python, Clean)
  {
    var v := ScanPathsShaped(q, atlas, state);
    v := ShapeOneMore(v, TurnOn(NoGitMetadata, q.noGitMetadata), Python, Clean);
    v := ShapeOneMore(v, TurnOn(NoPython, !q.enablePython), Python, Clean);
    v := ShapeOneMore(v, TurnOn(NoCache, q.clean), Python, Clean);
    v := ShapeOneMore(v, TurnOn(Force, q.force), Python, Clean);
  }

  lemma ScanItemsShaped(q: QuickstartOptions, atlas: string, state: string, lock: string)
    requires q.Valid()
    ensures AllShaped(ScanItems(q, atlas, state, lock), Python, Clean)
  {
    var v := ScanHeadItems(q, atlas, state);
    ScanHeadShaped(q, atlas, state);
    v := ShapeOneMore(v, Repeated(ScipIndex, q.scipIndexes), Python, Clean);
    v := ShapeOneMore(v, Repeated(ScipGenerate, q.scipGenerate), Python, Clean);
    v := ShapeOneMore(v, Optional(ScipTool, q.scipTool), Python, Clean);
    v := ShapeOneMore(v, Override(ScipLock, q.scipLock, lock), Python, Clean);
    v := ShapeOneMore(v, TurnOn(ScipNoPinCheck, q.scipNoPinCheck), Python, Clean);
    v := ShapeOneMore(v, Repeated(TracePath, q.tracePaths), Python, Clean);
    v := ShapeOneMore(v, Optional(History, q.historyPath), Python, Clean);
  }

  lemma {:induction false} EntriesLegible(registry: Registry, name: Name, values: seq<string>)
    requires ListEntries(values) && registry(Spell(name)) == Some(TextList)
    ensures AllLegible(registry, Entries(name, values))
  {
    if values != [] {
      assert values[0] in values;
      TrimmedIsFixed(values[0]);
      EntriesLegible(registry, name, values[1..]);
    }
  }

  lemma {:induction false} VectorLegible(registry: Registry, v: Vector, a: Name, b: Name)
    requires AllShaped(v, a, b)
    requires forall n: Name :: n != a && n != b ==> registry(Spell(n)) == Some(KindOf(n))
    ensures AllLegible(registry, Expand(v))
  {
    if v.Then? {
      VectorLegible(registry, v.before, a, b);
      if v.item.Repeated? {
        EntriesLegible(registry, v.item.name, v.item.values);
      }
    }
  }

  // ---- The theorems about quickstart -> scan ----

  lemma ScanVectorParses(other: (string, string) -> bool, q: QuickstartOptions,
                         atlas: string, state: string, root: string, lock: string)
    requires q.Valid() && Rooted(root)
    ensures Parse(ScanRegistration, other, Print(ScanItems(q, atlas, state, lock)) + [root]) ==
            Parsed(AsAssignments(Expand(ScanItems(q, atlas, state, lock))), [root])
  {
    var items := ScanItems(q, atlas, state, lock);
    PrintIsRender(items);
    ScanItemsShaped(q, atlas, state, lock);
    forall n: Name | n != Python && n != Clean ensures ScanRegistration(Spell(n)) == Some(KindOf(n)) {
      ScanKinds(n);
    }
    VectorLegible(ScanRegistration, items, Python, Clean);
    RenderedVectorParsesBack(ScanRegistration, other, Expand(items), root);
  }

  /** Whatever quickstart's options are, the vector it hands to scan parses, with
      the repository as the one operand, and leaves every flag with exactly the
      value asked for over scan's default. */
  lemma ScanVectorReparses(other: (string, string) -> bool, q: QuickstartOptions,
                           atlas: string, state: string, root: string, lock: string)
    requires q.Valid() && Rooted(root)
    ensures var outcome := Parse(ScanRegistration, other, Print(ScanItems(q, atlas, state, lock)) + [root]);
            && outcome.Parsed? && outcome.operands == [root]
            && forall name, d :: RightKind(name, d) && (name == ScipLock ==> d == TextValue(lock)) ==>
                 Reading(outcome.assignments, Spell(name), d) == ScanValueFor(q, atlas, state, name, d)
  {
    var items := ScanItems(q, atlas, state, lock);
    ScanVectorParses(other, q, atlas, state, root, lock);
    forall name, d | RightKind(name, d) && (name == ScipLock ==> d == TextValue(lock))
      ensures Reading(AsAssignments(Expand(items)), Spell(name), d) == ScanValueFor(q, atlas, state, name, d)
    {
      ReadingOfSegments(Expand(items), name, d);
      ScanItemsMean(q, atlas, state, lock, name, d);
      ReadVector(items, name, d);
    }
  }
}
