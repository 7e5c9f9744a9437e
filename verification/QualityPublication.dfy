/** The quality artifact: two payload files and the manifest that commits them. */
module QualityPublication {
  import opened Text
  import opened Streaming

  datatype Name = IndexJson | IndexMarkdown | Manifest | Temp(id: nat)

  type Files = map<Name, Bytes>

  /** The payload that one call publishes, and the provenance its receipt repeats. */
  datatype Generation = Generation(json: Bytes, markdown: Bytes, provenance: string)

  datatype Entry = Entry(size: nat, sha256: string)

  datatype Receipt = Receipt(provenance: string, json: Entry, markdown: Entry)

  /** SHA-256 and the receipt's JSON encoding, as functions. */
  datatype Codec = Codec(hash: Bytes -> string, encode: Receipt -> Bytes)

  ghost predicate Injective(codec: Codec) {
    && (forall a, b :: codec.hash(a) == codec.hash(b) ==> a == b)
    && (forall a, b :: codec.encode(a) == codec.encode(b) ==> a == b)
  }

  function EntryOf(codec: Codec, content: Bytes): Entry {
    Entry(|content|, codec.hash(content))
  }

  function ReceiptOf(codec: Codec, g: Generation): Receipt {
    Receipt(g.provenance, EntryOf(codec, g.json), EntryOf(codec, g.markdown))
  }

  /** The members in the order they are replaced; the manifest comes last. */
  function Target(k: nat): Name
    requires k < 3
  {
    if k == 0 then IndexJson else if k == 1 then IndexMarkdown else Manifest
  }

  function Content(codec: Codec, g: Generation, k: nat): Bytes
    requires k < 3
  {
    if k == 0 then g.json else if k == 1 then g.markdown else codec.encode(ReceiptOf(codec, g))
  }

  /** A reader's check: the manifest's sizes and digests are those of the files. */
  ghost predicate Validates(codec: Codec, files: Files) {
    && IndexJson in files && IndexMarkdown in files && Manifest in files
    && exists r :: files[Manifest] == codec.encode(r)
                   && r.json == EntryOf(codec, files[IndexJson]) && r.markdown == EntryOf(codec, files[IndexMarkdown])
  }

  ghost predicate Holds(codec: Codec, files: Files, g: Generation) {
    && IndexJson in files && files[IndexJson] == g.json && IndexMarkdown in files && files[IndexMarkdown] == g.markdown
    && Manifest in files && files[Manifest] == codec.encode(ReceiptOf(codec, g))
  }

  /** A manifest of a generation validates exactly that generation's payload. */
  lemma ManifestDecides(codec: Codec, files: Files, g: Generation)
    requires Injective(codec) && Manifest in files && files[Manifest] == codec.encode(ReceiptOf(codec, g))
    ensures Validates(codec, files) <==> Holds(codec, files, g)
  {
  }

  /** A manifest tells the provenance and both files of its generation. */
  lemma ManifestIdentifies(codec: Codec, a: Generation, b: Generation)
    requires Injective(codec)
    ensures codec.encode(ReceiptOf(codec, a)) == codec.encode(ReceiptOf(codec, b)) <==> a == b
  {
  }

  // ---- One call ----

  function Temps(ids: seq<nat>): set<Name> {
    set id | id in ids :: Temp(id)
  }

  ghost function Above(names: set<Name>): (bound: nat)
    ensures forall id: nat :: Temp(id) in names ==> id < bound
  {
    if names == {} then 0
    else
      var name :| name in names;
      var bound := Above(names - {name});
      if name.Temp? && name.id >= bound then name.id + 1 else bound
  }

  /** The first k members replaced. */
  function Replaced(codec: Codec, files: Files, g: Generation, k: nat): Files
    requires k <= 3
  {
    if k == 0 then files else Replaced(codec, files, g, k - 1)[Target(k - 1) := Content(codec, g, k - 1)]
  }

  lemma AllReplacedHolds(codec: Codec, files: Files, g: Generation)
    ensures Holds(codec, Replaced(codec, files, g, 3), g)
  {
    assert Replaced(codec, files, g, 2) == Replaced(codec, files, g, 1)[Target(1) := Content(codec, g, 1)];
  }

  /** Member j of the generation is staged under ids[j - from]. */
  ghost predicate Staged(codec: Codec, files: Files, g: Generation, ids: seq<nat>, from: nat) {
    && from + |ids| <= 3
    && (forall j :: 0 <= j < |ids| ==> Temp(ids[j]) in files && files[Temp(ids[j])] == Content(codec, g, from + j))
    && (forall i, j :: 0 <= i < j < |ids| ==> ids[i] != ids[j])
  }

  class Directory {
    var files: Files
    const codec: Codec
    /** On a quiet system no call fails. */
    const quiet: bool

    constructor (codec: Codec, files: Files, quiet: bool)
      ensures this.codec == codec && this.files == files && this.quiet == quiet
    {
      this.codec, this.files, this.quiet := codec, files, quiet;
    }

    /** Stages one member under a fresh name; a failed attempt leaves nothing. */
    method Stage(content: Bytes) returns (id: Option<nat>)
      modifies `files
      ensures id.None? ==> files == old(files) && !quiet
      ensures id.Some? ==> Temp(id.value) !in old(files) && files == old(files)[Temp(id.value) := content]
    {
      var failed := Fails(quiet);
      if failed {
        return None;
      }
      assert Temp(Above(files.Keys)) !in files;
      var n: nat :| Temp(n) !in files;
      files := files[Temp(n) := content];
      id := Some(n);
    }

    method Replace(id: nat, target: Name)
      requires Temp(id) in files
      modifies `files
      ensures files == (old(files) - {Temp(id)})[target := old(files)[Temp(id)]]
    {
      files := (files - {Temp(id)})[target := files[Temp(id)]];
    }

    method RemoveTemporaries(temporary: seq<nat>)
      modifies `files
      ensures files == old(files) - Temps(temporary)
    {
      for i := 0 to |temporary|
        invariant files == old(files) - Temps(temporary[..i])
      {
        assert Temps(temporary[..i + 1]) == Temps(temporary[..i]) + {Temp(temporary[i])};
        files := files - {Temp(temporary[i])};
      }
      assert temporary[..|temporary|] == temporary;
    }

    /** Stages all three members; `temporary` lists what is to be removed on failure. */
    method StageAll(g: Generation) returns (ok: bool, temporary: seq<nat>)
      modifies `files
      ensures Staged(codec, files, g, temporary, 0) && files - Temps(temporary) == old(files)
      ensures (ok ==> |temporary| == 3) && (quiet ==> ok)
    {
      temporary := [];
      ok := true;
      assert files - Temps([]) == files;
      for k := 0 to 3
        invariant |temporary| == k && Staged(codec, files, g, temporary, 0) && files - Temps(temporary) == old(files)
      {
        var id := Stage(Content(codec, g, k));
        if id.None? {
          return false, temporary;
        }
        assert Temps(temporary + [id.value]) == Temps(temporary) + {Temp(id.value)};
        temporary := temporary + [id.value];
      }
    }

    /** Publishes one generation, or raises with nothing staged left behind and
        some first members replaced; the manifest is never replaced before them. */
    method WriteIndex(g: Generation) returns (published: bool, replaced: nat)
      modifies `files
      ensures replaced <= 3 && files == Replaced(codec, old(files), g, replaced)
      ensures published ==> replaced == 3 && Holds(codec, files, g)
      ensures quiet ==> published
    {
      var staged, temporary := StageAll(g);
      replaced := 0;
      if !staged {
        RemoveTemporaries(temporary);
        return false, 0;
      }
      while replaced < 3
        invariant replaced <= 3 && Staged(codec, files, g, temporary, replaced) && |temporary| == 3 - replaced
        invariant files - Temps(temporary) == Replaced(codec, old(files), g, replaced)
      {
        // Any call up to and including this replacement may raise.
        var raised := Fails(quiet);
        if raised {
          RemoveTemporaries(temporary);
          return false, replaced;
        }
        assert temporary == [temporary[0]] + temporary[1..];
        assert Temps(temporary) == {Temp(temporary[0])} + Temps(temporary[1..]) && Temp(temporary[0]) !in Temps(temporary[1..]);
        ghost var before := files;
        Replace(temporary[0], Target(replaced));
        temporary, replaced := temporary[1..], replaced + 1;
        assert files - Temps(temporary) == Replaced(codec, old(files), g, replaced);
      }
      assert temporary == [] && files - Temps([]) == files;
      AllReplacedHolds(codec, old(files), g);
      // The directory sync after the manifest may raise as well.
      var raised := Fails(quiet);
      published := !raised;
    }
  }

  // ---- Any number of writers ----

  /** `temporary` of a writer, with the file being filled (if any) and how many
      members it has replaced. */
  datatype Phase =
    | Staging(ids: seq<nat>)
    | Filling(ids: seq<nat>, partial: nat)
    | Replacing(ids: seq<nat>, replaced: nat)
    | Cleaning(ids: seq<nat>)
    | Returned
    | Stopped

  datatype Writer = Writer(generation: Generation, phase: Phase)

  function Owned(phase: Phase): set<nat> {
    match phase
    case Staging(ids) => set id | id in ids
    case Filling(ids, partial) => (set id | id in ids) + {partial}
    case Replacing(ids, _) => set id | id in ids
    case Cleaning(ids) => set id | id in ids
    case _ => {}
  }

  ghost predicate Opens(f: Files, p: Phase, f': Files, q: Phase) {
    && p.Staging? && |p.ids| < 3 && q.Filling? && q.ids == p.ids
    && Temp(q.partial) !in f && f' == f[Temp(q.partial) := []]
  }

  /** A partial write, or the close once everything is written. */
  ghost predicate Fills(codec: Codec, g: Generation, f: Files, p: Phase, f': Files, q: Phase) {
    && p.Filling? && |p.ids| < 3 && Temp(p.partial) in f
    && var content := Content(codec, g, |p.ids|);
       if f[Temp(p.partial)] == content then f' == f && q == Staging(p.ids + [p.partial])
       else
         q == p && f'.Keys == f.Keys && f' == f[Temp(p.partial) := f'[Temp(p.partial)]]
         && f[Temp(p.partial)] < f'[Temp(p.partial)] <= content
  }

  ghost predicate Replaces(f: Files, p: Phase, f': Files, q: Phase) {
    && p.Replacing? && p.replaced < 3 && p.ids != [] && Temp(p.ids[0]) in f
    && f' == (f - {Temp(p.ids[0])})[Target(p.replaced) := f[Temp(p.ids[0])]]
    && q == Replacing(p.ids[1..], p.replaced + 1)
  }

  ghost predicate Removes(f: Files, p: Phase, f': Files, q: Phase) {
    || (p.Filling? && f' == f - {Temp(p.partial)} && q == Cleaning(p.ids))
    || (p.Cleaning? && p.ids != [] && f' == f - {Temp(p.ids[0])} && q == Cleaning(p.ids[1..]))
  }

  ghost predicate Turns(f: Files, p: Phase, f': Files, q: Phase) {
    && f' == f
    && (|| (p.Staging? && (if |p.ids| == 3 then q == Replacing(p.ids, 0) else q == Cleaning(p.ids)))
        || (p.Replacing? && (q == Cleaning(p.ids) || (p.replaced == 3 && q == Returned)))
        || (p.Cleaning? && p.ids == [] && q == Stopped)
        || (!p.Returned? && q == Stopped))
  }

  ghost predicate Next(codec: Codec, f: Files, w: Writer, f': Files, q: Phase) {
    || Opens(f, w.phase, f', q) || Fills(codec, w.generation, f, w.phase, f', q)
    || Replaces(f, w.phase, f', q) || Removes(f, w.phase, f', q) || Turns(f, w.phase, f', q)
  }

  ghost predicate WriterInv(codec: Codec, f: Files, w: Writer) {
    match w.phase
    case Staging(ids) => Staged(codec, f, w.generation, ids, 0)
    case Filling(ids, partial) =>
      Staged(codec, f, w.generation, ids, 0) && |ids| < 3 && Temp(partial) in f && partial !in ids
      && f[Temp(partial)] <= Content(codec, w.generation, |ids|)
    case Replacing(ids, replaced) =>
      Staged(codec, f, w.generation, ids, replaced) && replaced + |ids| == 3
    case Cleaning(ids) =>
      (forall id :: id in ids ==> Temp(id) in f) && forall i, j :: 0 <= i < j < |ids| ==> ids[i] != ids[j]
    case _ => true
  }

  /** A step touches its own temporaries, fresh names, and targets; the manifest
      only ever becomes the writer's own. */
  ghost predicate Respects(codec: Codec, f: Files, f': Files, own: set<nat>, g: Generation) {
    && (forall id :: Temp(id) in f && id !in own ==> Temp(id) in f' && f'[Temp(id)] == f[Temp(id)])
    && (((Manifest in f' <==> Manifest in f) && (Manifest in f ==> f'[Manifest] == f[Manifest]))
        || (Manifest in f' && f'[Manifest] == codec.encode(ReceiptOf(codec, g))))
  }

  ghost predicate Kept(codec: Codec, f: Files, w: Writer, f': Files, q: Phase) {
    && WriterInv(codec, f', w.(phase := q)) && Respects(codec, f, f', Owned(w.phase), w.generation)
    && forall id :: id in Owned(q) ==> id in Owned(w.phase) || Temp(id) !in f
  }

  lemma StagingStepsKeep(codec: Codec, f: Files, w: Writer, f': Files, q: Phase)
    requires WriterInv(codec, f, w)
    requires Opens(f, w.phase, f', q) || Fills(codec, w.generation, f, w.phase, f', q)
    ensures Kept(codec, f, w, f', q)
  {
  }

  lemma ReplaceStepKeeps(codec: Codec, f: Files, w: Writer, f': Files, q: Phase)
    requires WriterInv(codec, f, w) && Replaces(f, w.phase, f', q)
    ensures Kept(codec, f, w, f', q)
  {
    var p := w.phase;
    assert forall j :: 0 <= j < |q.ids| ==> q.ids[j] == p.ids[j + 1];
    assert Target(p.replaced) == Manifest <==> p.replaced == 2;
  }

  lemma LeavingStepsKeep(codec: Codec, f: Files, w: Writer, f': Files, q: Phase)
    requires WriterInv(codec, f, w) && (Removes(f, w.phase, f', q) || Turns(f, w.phase, f', q))
    ensures Kept(codec, f, w, f', q)
  {
  }

  lemma OwnStepKeeps(codec: Codec, f: Files, w: Writer, f': Files, q: Phase)
    requires WriterInv(codec, f, w) && Next(codec, f, w, f', q)
    ensures Kept(codec, f, w, f', q)
  {
    if Opens(f, w.phase, f', q) || Fills(codec, w.generation, f, w.phase, f', q) {
      StagingStepsKeep(codec, f, w, f', q);
    } else if Replaces(f, w.phase, f', q) {
      ReplaceStepKeeps(codec, f, w, f', q);
    } else {
      LeavingStepsKeep(codec, f, w, f', q);
    }
  }

  lemma OthersAreUndisturbed(codec: Codec, f: Files, f': Files, own: set<nat>, g: Generation, other: Writer)
    requires WriterInv(codec, f, other) && Respects(codec, f, f', own, g) && own !! Owned(other.phase)
    ensures WriterInv(codec, f', other)
  {
  }

  datatype State = State(files: Files, writers: seq<Writer>)

  /** The manifest is that of some writer, or of a generation published before. */
  ghost predicate ManifestKnown(codec: Codec, s: State, past: set<Generation>) {
    Manifest in s.files ==>
      || (exists g :: g in past && s.files[Manifest] == codec.encode(ReceiptOf(codec, g)))
      || (exists i :: 0 <= i < |s.writers| && s.files[Manifest] == codec.encode(ReceiptOf(codec, s.writers[i].generation)))
  }

  ghost predicate Inv(codec: Codec, s: State, past: set<Generation>) {
    && (forall i :: 0 <= i < |s.writers| ==> WriterInv(codec, s.files, s.writers[i]))
    && (forall i, j :: 0 <= i < j < |s.writers| ==> Owned(s.writers[i].phase) !! Owned(s.writers[j].phase))
    && ManifestKnown(codec, s, past)
  }

  ghost predicate StepOf(codec: Codec, s: State, t: State, i: nat) {
    && i < |s.writers| == |t.writers|
    && t.writers == s.writers[i := s.writers[i].(phase := t.writers[i].phase)]
    && Next(codec, s.files, s.writers[i], t.files, t.writers[i].phase)
  }

  ghost predicate Step(codec: Codec, s: State, t: State) {
    exists i: nat :: StepOf(codec, s, t, i)
  }

  ghost predicate StepAt(codec: Codec, run: seq<State>, k: nat) {
    0 < k < |run| && Step(codec, run[k - 1], run[k])
  }

  /** Nothing is assumed of the payload files a run starts from. */
  ghost predicate Start(codec: Codec, s: State, past: set<Generation>) {
    ManifestKnown(codec, s, past) && forall i :: 0 <= i < |s.writers| ==> s.writers[i].phase == Staging([])
  }

  ghost predicate Run(codec: Codec, run: seq<State>, past: set<Generation>) {
    && run != [] && Start(codec, run[0], past)
    && forall k :: 0 < k < |run| ==> StepAt(codec, run, k)
  }

  lemma StepKeepsInv(codec: Codec, s: State, t: State, past: set<Generation>, i: nat)
    requires Inv(codec, s, past) && StepOf(codec, s, t, i)
    ensures Inv(codec, t, past)
  {
    var w, q := s.writers[i], t.writers[i].phase;
    OwnStepKeeps(codec, s.files, w, t.files, q);
    forall j | 0 <= j < |t.writers| && j != i
      ensures WriterInv(codec, t.files, t.writers[j]) && Owned(q) !! Owned(t.writers[j].phase)
    {
      assert t.writers[j] == s.writers[j] && WriterInv(codec, s.files, s.writers[j]);
      assert Owned(w.phase) !! Owned(s.writers[j].phase) by {
        if j < i {
          assert Owned(s.writers[j].phase) !! Owned(s.writers[i].phase);
        }
      }
      OthersAreUndisturbed(codec, s.files, t.files, Owned(w.phase), w.generation, s.writers[j]);
      OwnedExist(codec, s.files, s.writers[j]);
    }
    forall j, k | 0 <= j < k < |t.writers| ensures Owned(t.writers[j].phase) !! Owned(t.writers[k].phase) {
      if j != i && k != i {
        assert Owned(s.writers[j].phase) !! Owned(s.writers[k].phase);
      }
    }
    ManifestStaysKnown(codec, s, t, past, i);
  }

  lemma OwnedExist(codec: Codec, f: Files, w: Writer)
    requires WriterInv(codec, f, w)
    ensures forall id :: id in Owned(w.phase) ==> Temp(id) in f
  {
  }

  lemma ManifestStaysKnown(codec: Codec, s: State, t: State, past: set<Generation>, i: nat)
    requires ManifestKnown(codec, s, past) && StepOf(codec, s, t, i)
    requires Respects(codec, s.files, t.files, Owned(s.writers[i].phase), s.writers[i].generation)
    ensures ManifestKnown(codec, t, past)
  {
    assert forall j :: 0 <= j < |s.writers| ==> t.writers[j].generation == s.writers[j].generation;
  }

  lemma {:induction false} RunKeepsInv(codec: Codec, run: seq<State>, past: set<Generation>, k: nat)
    requires Run(codec, run, past) && k < |run|
    ensures Inv(codec, run[k], past)
  {
    if k > 0 {
      RunKeepsInv(codec, run, past, k - 1);
      assert StepAt(codec, run, k);
      var i: nat :| StepOf(codec, run[k - 1], run[k], i);
      StepKeepsInv(codec, run[k - 1], run[k], past, i);
    }
  }

  /** However the writers interleave and wherever they stop: a manifest that
      validates belongs to one generation, and both files are its payload. */
  lemma ValidMeansOneGeneration(codec: Codec, run: seq<State>, past: set<Generation>, k: nat) returns (g: Generation)
    requires Injective(codec) && Run(codec, run, past) && k < |run| && Validates(codec, run[k].files)
    ensures Holds(codec, run[k].files, g)
    ensures g in past || exists w :: w in run[k].writers && w.generation == g
  {
    RunKeepsInv(codec, run, past, k);
    var s := run[k];
    if g' :| g' in past && s.files[Manifest] == codec.encode(ReceiptOf(codec, g')) {
      g := g';
    } else {
      var i :| 0 <= i < |s.writers| && s.files[Manifest] == codec.encode(ReceiptOf(codec, s.writers[i].generation));
      g := s.writers[i].generation;
      assert s.writers[i] in s.writers;
    }
    ManifestDecides(codec, s.files, g);
  }

  /** With other writers about, a commit need not leave a valid artifact: it does
      exactly when both payload files still are the committing writer's. */
  lemma CommitValidatesIff(codec: Codec, run: seq<State>, past: set<Generation>, k: nat, i: nat)
    requires Injective(codec) && Run(codec, run, past) && 0 < k < |run| && i < |run[k - 1].writers| == |run[k].writers|
    requires Replaces(run[k - 1].files, run[k - 1].writers[i].phase, run[k].files, run[k].writers[i].phase)
    requires run[k - 1].writers[i].phase.replaced == 2
    ensures var f, g := run[k - 1].files, run[k - 1].writers[i].generation;
            Validates(codec, run[k].files) <==>
            IndexJson in f && f[IndexJson] == g.json && IndexMarkdown in f && f[IndexMarkdown] == g.markdown
  {
    RunKeepsInv(codec, run, past, k - 1);
    var s, w := run[k - 1], run[k - 1].writers[i];
    assert WriterInv(codec, s.files, w);
    assert s.files[Temp(w.phase.ids[0])] == Content(codec, w.generation, 2);
    ManifestDecides(codec, run[k].files, w.generation);
  }

  // ---- Whose replacements are the last ----

  function At(files: Files, name: Name): Option<Bytes> {
    if name in files then Some(files[name]) else None
  }

  /** In step n writer i replaces member t. */
  ghost predicate ReplacesAt(codec: Codec, run: seq<State>, n: nat, i: nat, t: nat) {
    && 0 < n < |run| && StepOf(codec, run[n - 1], run[n], i) && run[n - 1].writers[i].phase.Replacing?
    && run[n - 1].writers[i].phase.replaced == t
    && Replaces(run[n - 1].files, run[n - 1].writers[i].phase, run[n].files, run[n].writers[i].phase)
  }

  /** The writer that was the last to replace member t, if any has. */
  ghost function Latest(codec: Codec, run: seq<State>, n: nat, t: nat): Option<nat>
    requires n < |run|
  {
    if n == 0 then None
    else if i: nat :| ReplacesAt(codec, run, n, i, t) then Some(i)
    else Latest(codec, run, n - 1, t)
  }

  lemma {:induction false} WritersStay(codec: Codec, run: seq<State>, past: set<Generation>, n: nat)
    requires Run(codec, run, past) && n < |run|
    ensures |run[n].writers| == |run[0].writers|
    ensures forall i :: 0 <= i < |run[0].writers| ==> run[n].writers[i].generation == run[0].writers[i].generation
  {
    if n > 0 {
      WritersStay(codec, run, past, n - 1);
      assert StepAt(codec, run, n);
    }
  }

  /** A replacement puts the writer's own content under the name; any other step
      leaves the name alone. */
  lemma StepAtName(codec: Codec, run: seq<State>, past: set<Generation>, n: nat, t: nat)
    requires Run(codec, run, past) && 0 < n < |run| && t < 3
    ensures forall i: nat :: ReplacesAt(codec, run, n, i, t) ==>
              i < |run[0].writers| && At(run[n].files, Target(t)) == Some(Content(codec, run[0].writers[i].generation, t))
    ensures (forall i: nat :: !ReplacesAt(codec, run, n, i, t)) ==> At(run[n].files, Target(t)) == At(run[n - 1].files, Target(t))
  {
    RunKeepsInv(codec, run, past, n - 1);
    WritersStay(codec, run, past, n - 1);
    forall i: nat | ReplacesAt(codec, run, n, i, t)
      ensures i < |run[0].writers| && At(run[n].files, Target(t)) == Some(Content(codec, run[0].writers[i].generation, t))
    {
      assert WriterInv(codec, run[n - 1].files, run[n - 1].writers[i]);
    }
    if forall i: nat :: !ReplacesAt(codec, run, n, i, t) {
      assert StepAt(codec, run, n);
      var i: nat :| StepOf(codec, run[n - 1], run[n], i);
      OtherStepsLeaveIt(run[n - 1], run[n], codec, i, t);
      assert !ReplacesAt(codec, run, n, i, t);
    }
  }

  lemma OtherStepsLeaveIt(s: State, s': State, codec: Codec, i: nat, t: nat)
    requires StepOf(codec, s, s', i) && t < 3
    requires WriterInv(codec, s.files, s.writers[i])
    ensures || At(s'.files, Target(t)) == At(s.files, Target(t))
            || (Replaces(s.files, s.writers[i].phase, s'.files, s'.writers[i].phase) && s.writers[i].phase.replaced == t)
  {
  }

  lemma {:induction false} LatestHolds(codec: Codec, run: seq<State>, past: set<Generation>, n: nat, t: nat)
    requires Run(codec, run, past) && n < |run| && t < 3
    ensures match Latest(codec, run, n, t)
            case None => At(run[n].files, Target(t)) == At(run[0].files, Target(t))
            case Some(i) => i < |run[0].writers|
                            && At(run[n].files, Target(t)) == Some(Content(codec, run[0].writers[i].generation, t))
  {
    if n > 0 {
      LatestHolds(codec, run, past, n - 1, t);
      StepAtName(codec, run, past, n, t);
    }
  }

  /** The payload file that the last replacement of member t left, or the one from the start. */
  ghost function LastPayload(codec: Codec, run: seq<State>, n: nat, t: nat): Option<Bytes>
    requires n < |run| && t < 2
  {
    match Latest(codec, run, n, t)
    case None => At(run[0].files, Target(t))
    case Some(i) => if i < |run[0].writers| then Some(Content(codec, run[0].writers[i].generation, t)) else None
  }

  /** However the writers interleave and wherever they stop: once some writer has
      replaced the manifest, the artifact validates exactly when the last
      replacements of the two payload files brought what the last writer of the
      manifest published. */
  lemma LastReplacementsDecide(codec: Codec, run: seq<State>, past: set<Generation>, n: nat)
    requires Injective(codec) && Run(codec, run, past) && n < |run| && Latest(codec, run, n, 2).Some?
    ensures Latest(codec, run, n, 2).value < |run[0].writers|
    ensures var g := run[0].writers[Latest(codec, run, n, 2).value].generation;
            Validates(codec, run[n].files) <==>
            LastPayload(codec, run, n, 0) == Some(g.json) && LastPayload(codec, run, n, 1) == Some(g.markdown)
  {
    LatestHolds(codec, run, past, n, 0);
    LatestHolds(codec, run, past, n, 1);
    LatestHolds(codec, run, past, n, 2);
    ManifestDecides(codec, run[n].files, run[0].writers[Latest(codec, run, n, 2).value].generation);
  }

  // ---- Writers that replace one after another ----

  /** Between the first of its replacements and the last. */
  predicate Midway(phase: Phase) {
    phase.Replacing? && 1 <= phase.replaced <= 2
  }

  ghost predicate NoOverlap(run: seq<State>) {
    forall n, i, j :: 0 <= n < |run| && 0 <= i < j < |run[n].writers| ==>
      !(Midway(run[n].writers[i].phase) && Midway(run[n].writers[j].phase))
  }

  /** No writer fails or stops midway. */
  ghost predicate NoneBreaksOff(run: seq<State>) {
    forall n, i :: 0 < n < |run| && 0 <= i < |run[n - 1].writers| && i < |run[n].writers| && Midway(run[n - 1].writers[i].phase) ==>
      run[n].writers[i].phase.Replacing?
  }

  ghost predicate Quiescent(s: State) {
    forall i :: 0 <= i < |s.writers| ==> !Midway(s.writers[i].phase)
  }

  /** What a writer midway has replaced is what is there. */
  ghost predicate LatestIsMidway(codec: Codec, run: seq<State>, n: nat)
    requires n < |run|
  {
    forall i, t: nat :: 0 <= i < |run[n].writers| && Midway(run[n].writers[i].phase) && t < run[n].writers[i].phase.replaced ==>
      Latest(codec, run, n, t) == Some(i)
  }

  lemma OneReplacer(codec: Codec, run: seq<State>, n: nat, i: nat, j: nat, t: nat)
    requires 0 < n < |run| && StepOf(codec, run[n - 1], run[n], i)
    requires ReplacesAt(codec, run, n, j, t)
    ensures i == j
  {
  }

  lemma LatestAfter(codec: Codec, run: seq<State>, n: nat, i: nat, t: nat)
    requires 0 < n < |run| && StepOf(codec, run[n - 1], run[n], i)
    ensures ReplacesAt(codec, run, n, i, t) ==> Latest(codec, run, n, t) == Some(i)
    ensures !ReplacesAt(codec, run, n, i, t) ==> Latest(codec, run, n, t) == Latest(codec, run, n - 1, t)
  {
    forall j: nat | ReplacesAt(codec, run, n, j, t) ensures j == i {
      OneReplacer(codec, run, n, i, j, t);
    }
  }

  lemma {:induction false} MidwayIsLatest(codec: Codec, run: seq<State>, past: set<Generation>, n: nat)
    requires Run(codec, run, past) && NoOverlap(run) && n < |run|
    ensures LatestIsMidway(codec, run, n)
  {
    if n > 0 {
      MidwayIsLatest(codec, run, past, n - 1);
      assert StepAt(codec, run, n);
      var l: nat :| StepOf(codec, run[n - 1], run[n], l);
      forall i, t: nat | 0 <= i < |run[n].writers| && Midway(run[n].writers[i].phase) && t < run[n].writers[i].phase.replaced
        ensures Latest(codec, run, n, t) == Some(i)
      {
        LatestAfter(codec, run, n, l, t);
        MidwayStays(codec, run, n, l, i, t);
      }
    }
  }

  /** The step that is made while writer i is midway (or becomes it) replaces
      nothing but i's own next member. */
  lemma MidwayStays(codec: Codec, run: seq<State>, n: nat, l: nat, i: nat, t: nat)
    requires NoOverlap(run) && 0 < n < |run| && StepOf(codec, run[n - 1], run[n], l) && i < |run[n].writers|
    requires Midway(run[n].writers[i].phase) && t < run[n].writers[i].phase.replaced
    ensures l != i ==> !ReplacesAt(codec, run, n, l, t) && run[n - 1].writers[i] == run[n].writers[i]
    ensures l == i ==> ReplacesAt(codec, run, n, l, t)
                       || (Midway(run[n - 1].writers[i].phase) && t < run[n - 1].writers[i].phase.replaced
                           && !ReplacesAt(codec, run, n, l, t))
  {
  }

  /** With nobody midway, one writer was the last at all three names, or none was. */
  lemma {:induction false} OneLatest(codec: Codec, run: seq<State>, past: set<Generation>, n: nat)
    requires Run(codec, run, past) && NoOverlap(run) && NoneBreaksOff(run) && n < |run| && Quiescent(run[n])
    ensures Latest(codec, run, n, 0) == Latest(codec, run, n, 1) == Latest(codec, run, n, 2)
  {
    if n > 0 {
      assert StepAt(codec, run, n);
      var l: nat :| StepOf(codec, run[n - 1], run[n], l);
      LatestAfter(codec, run, n, l, 0);
      LatestAfter(codec, run, n, l, 1);
      LatestAfter(codec, run, n, l, 2);
      if Midway(run[n - 1].writers[l].phase) {
        MidwayIsLatest(codec, run, past, n - 1);
        assert run[n].writers[l].phase.Replacing?;
        assert Latest(codec, run, n - 1, 0) == Some(l) && ReplacesAt(codec, run, n, l, 2);
        assert Latest(codec, run, n - 1, 1) == Some(l);
      } else {
        assert forall i :: 0 <= i < |run[n - 1].writers| && i != l ==> run[n - 1].writers[i] == run[n].writers[i];
        assert !Midway(run[n].writers[l].phase);
        OneLatest(codec, run, past, n - 1);
      }
    }
  }

  /** Writers whose replacements never overlap, none of which breaks off midway:
      whenever nobody is midway, the artifact validates exactly if it did at
      the start or a writer has published since. */
  lemma SerialWritersKeepItValid(codec: Codec, run: seq<State>, past: set<Generation>, n: nat)
    requires Injective(codec) && Run(codec, run, past) && NoOverlap(run) && NoneBreaksOff(run)
    requires n < |run| && Quiescent(run[n])
    ensures Validates(codec, run[n].files) <==> Validates(codec, run[0].files) || Latest(codec, run, n, 2).Some?
  {
    OneLatest(codec, run, past, n);
    if Latest(codec, run, n, 2).Some? {
      LastReplacementsDecide(codec, run, past, n);
    } else {
      LatestHolds(codec, run, past, n, 0);
      LatestHolds(codec, run, past, n, 1);
      LatestHolds(codec, run, past, n, 2);
      SameTargets(codec, run[0].files, run[n].files);
    }
  }

  lemma SameTargets(codec: Codec, a: Files, b: Files)
    requires forall t :: 0 <= t < 3 ==> At(a, Target(t)) == At(b, Target(t))
    ensures Validates(codec, a) <==> Validates(codec, b)
  {
    assert At(a, Target(0)) == At(b, Target(0)) && At(a, Target(1)) == At(b, Target(1)) && At(a, Target(2)) == At(b, Target(2));
  }

  // ---- Writers that overlap ----

  function Last(run: seq<State>): State
    requires run != []
  {
    run[|run| - 1]
  }

  ghost predicate Leads(codec: Codec, path: seq<State>, s: State, t: State) {
    path != [] && path[0] == s && Last(path) == t && forall k :: 0 < k < |path| ==> StepAt(codec, path, k)
  }

  ghost predicate CanReach(codec: Codec, s: State, t: State) {
    exists path :: Leads(codec, path, s, t)
  }

  lemma PathGrows(codec: Codec, path: seq<State>, s: State, t: State, u: State, i: nat)
    requires Leads(codec, path, s, t) && StepOf(codec, t, u, i)
    ensures Leads(codec, path + [u], s, u)
  {
    var longer := path + [u];
    forall k | 0 < k < |longer| ensures StepAt(codec, longer, k) {
      if k < |path| {
        assert StepAt(codec, path, k);
        assert longer[k - 1] == path[k - 1] && longer[k] == path[k];
      } else {
        assert longer[k - 1] == t && longer[k] == u;
      }
    }
  }

  lemma Then(codec: Codec, s: State, t: State, u: State, i: nat)
    requires CanReach(codec, s, t) && StepOf(codec, t, u, i)
    ensures CanReach(codec, s, u)
  {
    var path :| Leads(codec, path, s, t);
    PathGrows(codec, path, s, t, u, i);
  }

  lemma ReachedStateIsSound(codec: Codec, s: State, past: set<Generation>, t: State)
    requires Start(codec, s, past) && CanReach(codec, s, t)
    ensures Inv(codec, t, past)
  {
    var run :| Leads(codec, run, s, t);
    RunKeepsInv(codec, run, past, |run| - 1);
  }

  /** The state with other files in which writer i alone has come on. */
  function Put(t: State, i: nat, files: Files, phase: Phase): State
    requires i < |t.writers|
  {
    State(files, t.writers[i := t.writers[i].(phase := phase)])
  }

  /** Writer i stages its next member. */
  lemma StageNext(codec: Codec, s: State, t: State, i: nat, ids: seq<nat>) returns (files: Files, id: nat)
    requires CanReach(codec, s, t) && i < |t.writers| && t.writers[i].phase == Staging(ids) && |ids| < 3
    ensures CanReach(codec, s, Put(t, i, files, Staging(ids + [id])))
    ensures Temp(id) !in t.files && files == t.files[Temp(id) := Content(codec, t.writers[i].generation, |ids|)]
  {
    id := Above(t.files.Keys);
    assert Temp(id) !in t.files;
    var content := Content(codec, t.writers[i].generation, |ids|);
    var empty := t.files[Temp(id) := []];
    files := t.files[Temp(id) := content];
    var begun, filled, closed := Put(t, i, empty, Filling(ids, id)), Put(t, i, files, Filling(ids, id)), Put(t, i, files, Staging(ids + [id]));
    assert Opens(t.files, t.writers[i].phase, empty, Filling(ids, id));
    assert StepOf(codec, t, begun, i);
    Then(codec, s, t, begun, i);
    if content == [] {
      assert begun == filled;
    } else {
      assert files == empty[Temp(id) := content];
      assert Fills(codec, t.writers[i].generation, empty, Filling(ids, id), files, Filling(ids, id));
      assert StepOf(codec, begun, filled, i);
      Then(codec, s, begun, filled, i);
    }
    assert Fills(codec, t.writers[i].generation, files, Filling(ids, id), files, Staging(ids + [id]));
    assert StepOf(codec, filled, closed, i);
    Then(codec, s, filled, closed, i);
  }

  /** Only temporaries are new: those listed in `all` beyond the first n. */
  ghost predicate AddsTemps(f: Files, f': Files, all: seq<nat>, n: nat) {
    && n <= |all|
    && (forall k :: n <= k < |all| ==> Temp(all[k]) !in f)
    && forall name :: (At(f', name) == At(f, name)) || exists k :: n <= k < |all| && name == Temp(all[k])
  }

  /** A writer that stages can go on until it starts to replace. */
  lemma {:induction false} StageRest(codec: Codec, s: State, t: State, i: nat, ids: seq<nat>) returns (files: Files, all: seq<nat>)
    requires CanReach(codec, s, t) && i < |t.writers| && t.writers[i].phase == Staging(ids) && |ids| <= 3
    ensures CanReach(codec, s, Put(t, i, files, Replacing(all, 0)))
    ensures ids <= all && |all| == 3 && AddsTemps(t.files, files, all, |ids|)
    decreases 3 - |ids|
  {
    if |ids| == 3 {
      files, all := t.files, ids;
      var u := Put(t, i, files, Replacing(ids, 0));
      assert Turns(t.files, t.writers[i].phase, files, Replacing(ids, 0));
      assert StepOf(codec, t, u, i);
      Then(codec, s, t, u, i);
    } else {
      var id;
      files, id := StageNext(codec, s, t, i, ids);
      var u := Put(t, i, files, Staging(ids + [id]));
      files, all := StageRest(codec, s, u, i, ids + [id]);
      assert Put(u, i, files, Replacing(all, 0)) == Put(t, i, files, Replacing(all, 0));
      AddsOneMore(t.files, u.files, files, ids, id, all, Content(codec, t.writers[i].generation, |ids|));
    }
  }

  lemma AddsOneMore(f: Files, g: Files, f': Files, ids: seq<nat>, id: nat, all: seq<nat>, content: Bytes)
    requires Temp(id) !in f && g == f[Temp(id) := content] && ids + [id] <= all && AddsTemps(g, f', all, |ids| + 1)
    ensures AddsTemps(f, f', all, |ids|)
  {
    assert all[|ids|] == (ids + [id])[|ids|] == id;
    forall name ensures At(f', name) == At(f, name) || exists k :: |ids| <= k < |all| && name == Temp(all[k]) {
      if name == Temp(id) {
        assert name == Temp(all[|ids|]);
      } else {
        assert At(g, name) == At(f, name);
      }
    }
  }

  /** Only the target has changed, and it holds the generation's member. */
  ghost predicate Holding(codec: Codec, f: Files, g: Generation, r: nat, f': Files) {
    forall t :: 0 <= t < 3 ==> At(f', Target(t)) == if t == r then Some(Content(codec, g, t)) else At(f, Target(t))
  }

  lemma ReplaceNext(codec: Codec, s: State, past: set<Generation>, t: State, i: nat, ids: seq<nat>, r: nat)
    returns (files: Files, rest: seq<nat>)
    requires Start(codec, s, past) && CanReach(codec, s, t) && i < |t.writers| && t.writers[i].phase == Replacing(ids, r) && r < 3
    ensures CanReach(codec, s, Put(t, i, files, Replacing(rest, r + 1)))
    ensures Holding(codec, t.files, t.writers[i].generation, r, files)
    ensures ids != [] && rest == ids[1..] && files == (t.files - {Temp(ids[0])})[Target(r) := files[Target(r)]]
  {
    ReachedStateIsSound(codec, s, past, t);
    assert WriterInv(codec, t.files, t.writers[i]);
    rest := ids[1..];
    files := (t.files - {Temp(ids[0])})[Target(r) := t.files[Temp(ids[0])]];
    var u := Put(t, i, files, Replacing(rest, r + 1));
    assert Replaces(t.files, t.writers[i].phase, files, Replacing(rest, r + 1));
    assert StepOf(codec, t, u, i);
    Then(codec, s, t, u, i);
  }

  lemma FinishWriter(codec: Codec, s: State, t: State, i: nat, ids: seq<nat>)
    requires CanReach(codec, s, t) && i < |t.writers| && t.writers[i].phase == Replacing(ids, 3)
    ensures CanReach(codec, s, Put(t, i, t.files, Returned))
  {
    var u := Put(t, i, t.files, Returned);
    assert Turns(t.files, t.writers[i].phase, t.files, Returned);
    assert StepOf(codec, t, u, i);
    Then(codec, s, t, u, i);
  }

  predicate SamePayload(a: Writer, b: Writer) {
    a.generation.json == b.generation.json && a.generation.markdown == b.generation.markdown
  }

  /** The state in which two writers have come to the given phases. */
  function Both(s: State, a: nat, b: nat, files: Files, x: Phase, y: Phase): State
    requires a < |s.writers| && b < |s.writers| && a != b
  {
    State(files, s.writers[a := s.writers[a].(phase := x)][b := s.writers[b].(phase := y)])
  }

  lemma PutEither(s: State, a: nat, b: nat, f: Files, x: Phase, y: Phase, f': Files, z: Phase)
    requires a < |s.writers| && b < |s.writers| && a != b
    ensures Put(Both(s, a, b, f, x, y), a, f', z) == Both(s, a, b, f', z, y)
    ensures Put(Both(s, a, b, f, x, y), b, f', z) == Both(s, a, b, f', x, z)
  {
    var t := Both(s, a, b, f, x, y);
    assert Put(t, a, f', z).writers == Both(s, a, b, f', z, y).writers;
    assert Put(t, b, f', z).writers == Both(s, a, b, f', x, z).writers;
  }

  lemma BothStage(codec: Codec, s: State, past: set<Generation>, a: nat, b: nat)
    returns (files: Files, first: seq<nat>, second: seq<nat>)
    requires Start(codec, s, past) && a < |s.writers| && b < |s.writers| && a != b
    ensures CanReach(codec, s, Both(s, a, b, files, Replacing(first, 0), Replacing(second, 0)))
  {
    assert Leads(codec, [s], s, s);
    assert s == Both(s, a, b, s.files, Staging([]), Staging([]));
    files, first := StageRest(codec, s, s, a, []);
    PutEither(s, a, b, s.files, Staging([]), Staging([]), files, Replacing(first, 0));
    var t := Both(s, a, b, files, Replacing(first, 0), Staging([]));
    files, second := StageRest(codec, s, t, b, []);
    PutEither(s, a, b, t.files, Replacing(first, 0), Staging([]), files, Replacing(second, 0));
  }

  /** A replacement by the first of the two writers. */
  lemma FirstReplaces(codec: Codec, s: State, past: set<Generation>, a: nat, b: nat, f: Files, ids: seq<nat>, r: nat, y: Phase)
    returns (files: Files, rest: seq<nat>)
    requires Start(codec, s, past) && a < |s.writers| && b < |s.writers| && a != b && r < 3
    requires CanReach(codec, s, Both(s, a, b, f, Replacing(ids, r), y))
    ensures CanReach(codec, s, Both(s, a, b, files, Replacing(rest, r + 1), y))
    ensures Holding(codec, f, s.writers[a].generation, r, files)
  {
    files, rest := ReplaceNext(codec, s, past, Both(s, a, b, f, Replacing(ids, r), y), a, ids, r);
    PutEither(s, a, b, f, Replacing(ids, r), y, files, Replacing(rest, r + 1));
  }

  lemma SecondReplaces(codec: Codec, s: State, past: set<Generation>, a: nat, b: nat, f: Files, x: Phase, ids: seq<nat>, r: nat)
    returns (files: Files, rest: seq<nat>)
    requires Start(codec, s, past) && a < |s.writers| && b < |s.writers| && a != b && r < 3
    requires CanReach(codec, s, Both(s, a, b, f, x, Replacing(ids, r)))
    ensures CanReach(codec, s, Both(s, a, b, files, x, Replacing(rest, r + 1)))
    ensures Holding(codec, f, s.writers[b].generation, r, files)
  {
    files, rest := ReplaceNext(codec, s, past, Both(s, a, b, f, x, Replacing(ids, r)), b, ids, r);
    PutEither(s, a, b, f, x, Replacing(ids, r), files, Replacing(rest, r + 1));
  }

  /** Writer b's payload under writer a's manifest. */
  ghost predicate Mixed(codec: Codec, files: Files, a: Generation, b: Generation) {
    && At(files, Target(0)) == Some(b.json) && At(files, Target(1)) == Some(b.markdown)
    && At(files, Target(2)) == Some(Content(codec, a, 2))
  }

  /** Writer a replaces both payload files before b's whole publication, and the
      manifest after it; then both return. */
  lemma Overtake(codec: Codec, s: State, past: set<Generation>, a: nat, b: nat) returns (files: Files)
    requires Start(codec, s, past) && a < |s.writers| && b < |s.writers| && a != b
    ensures CanReach(codec, s, Both(s, a, b, files, Returned, Returned))
    ensures Mixed(codec, files, s.writers[a].generation, s.writers[b].generation)
  {
    var first, second;
    files, first, second := BothStage(codec, s, past, a, b);
    files, first := FirstReplaces(codec, s, past, a, b, files, first, 0, Replacing(second, 0));
    files, first := FirstReplaces(codec, s, past, a, b, files, first, 1, Replacing(second, 0));
    files, second := SecondReplaces(codec, s, past, a, b, files, Replacing(first, 2), second, 0);
    files, second := SecondReplaces(codec, s, past, a, b, files, Replacing(first, 2), second, 1);
    files, second := SecondReplaces(codec, s, past, a, b, files, Replacing(first, 2), second, 2);
    files, first := FirstReplaces(codec, s, past, a, b, files, first, 2, Replacing(second, 3));
    FinishWriter(codec, s, Both(s, a, b, files, Replacing(first, 3), Replacing(second, 3)), a, first);
    PutEither(s, a, b, files, Replacing(first, 3), Replacing(second, 3), files, Returned);
    FinishWriter(codec, s, Both(s, a, b, files, Returned, Replacing(second, 3)), b, second);
    PutEither(s, a, b, files, Returned, Replacing(second, 3), files, Returned);
  }

  /** From any start, two writers of different payloads can both return and
      leave an artifact that does not validate. */
  lemma BothReturnAndItIsInvalid(codec: Codec, s: State, past: set<Generation>, a: nat, b: nat) returns (files: Files)
    requires Injective(codec) && Start(codec, s, past) && a < |s.writers| && b < |s.writers|
    requires !SamePayload(s.writers[a], s.writers[b])
    ensures CanReach(codec, s, Both(s, a, b, files, Returned, Returned))
    ensures !Validates(codec, files)
  {
    files := Overtake(codec, s, past, a, b);
    ManifestDecides(codec, files, s.writers[a].generation);
  }

  // ---- Where every writer can still get to ----

  /** What a writer leaves that goes on to its return: its own members, from the
      given one on, under their names; none of its temporaries; all else as it was. */
  ghost predicate Finished(codec: Codec, f: Files, f': Files, g: Generation, own: set<nat>, r: nat) {
    && (forall k :: 0 <= k < 3 ==> At(f', Target(k)) == if k >= r then Some(Content(codec, g, k)) else At(f, Target(k)))
    && forall id :: At(f', Temp(id)) == if id in own then None else At(f, Temp(id))
  }

  lemma {:induction false} ReplaceRest(codec: Codec, s: State, past: set<Generation>, t: State, i: nat, ids: seq<nat>, r: nat)
    returns (files: Files)
    requires Start(codec, s, past) && CanReach(codec, s, t) && i < |t.writers| && t.writers[i].phase == Replacing(ids, r) && r <= 3
    ensures CanReach(codec, s, Put(t, i, files, Returned))
    ensures Finished(codec, t.files, files, t.writers[i].generation, Owned(Replacing(ids, r)), r)
    decreases 3 - r
  {
    ReachedStateIsSound(codec, s, past, t);
    assert WriterInv(codec, t.files, t.writers[i]);
    if r == 3 {
      files := t.files;
      FinishWriter(codec, s, t, i, ids);
    } else {
      var once, rest := ReplaceNext(codec, s, past, t, i, ids, r);
      var u := Put(t, i, once, Replacing(rest, r + 1));
      files := ReplaceRest(codec, s, past, u, i, rest, r + 1);
      assert Put(u, i, files, Returned) == Put(t, i, files, Returned);
      ReplacedFirst(codec, t.files, once, files, t.writers[i].generation, ids, r);
    }
  }

  lemma ReplacedFirst(codec: Codec, f: Files, once: Files, f': Files, g: Generation, ids: seq<nat>, r: nat)
    requires r < 3 && ids != [] && Holding(codec, f, g, r, once)
    requires once == (f - {Temp(ids[0])})[Target(r) := once[Target(r)]]
    requires Finished(codec, once, f', g, Owned(Replacing(ids[1..], r + 1)), r + 1)
    ensures Finished(codec, f, f', g, Owned(Replacing(ids, r)), r)
  {
    assert ids == [ids[0]] + ids[1..];
    forall id ensures At(f', Temp(id)) == if id in Owned(Replacing(ids, r)) then None else At(f, Temp(id)) {
      assert Target(r) != Temp(id);
    }
  }

  lemma FillRest(codec: Codec, s: State, past: set<Generation>, t: State, i: nat, ids: seq<nat>, partial: nat) returns (files: Files)
    requires Start(codec, s, past) && CanReach(codec, s, t) && i < |t.writers| && t.writers[i].phase == Filling(ids, partial)
    ensures |ids| < 3 && CanReach(codec, s, Put(t, i, files, Staging(ids + [partial])))
    ensures forall name :: name != Temp(partial) ==> At(files, name) == At(t.files, name)
  {
    ReachedStateIsSound(codec, s, past, t);
    var w := t.writers[i];
    assert WriterInv(codec, t.files, w);
    var content := Content(codec, w.generation, |ids|);
    files := t.files[Temp(partial) := content];
    var filled := Put(t, i, files, Filling(ids, partial));
    if t.files[Temp(partial)] == content {
      assert files == t.files && filled == t;
    } else {
      assert Fills(codec, w.generation, t.files, w.phase, files, Filling(ids, partial));
      assert StepOf(codec, t, filled, i);
      Then(codec, s, t, filled, i);
    }
    var closed := Put(t, i, files, Staging(ids + [partial]));
    assert Fills(codec, w.generation, files, Filling(ids, partial), files, Staging(ids + [partial]));
    assert StepOf(codec, filled, closed, i);
    Then(codec, s, filled, closed, i);
  }

  lemma StagedFinishes(codec: Codec, f: Files, g: Files, f': Files, gen: Generation, own: set<nat>, all: seq<nat>, n: nat)
    requires AddsTemps(f, g, all, n) && Finished(codec, g, f', gen, Owned(Replacing(all, 0)), 0)
    requires forall k :: 0 <= k < n ==> all[k] in own
    requires forall id :: id in own ==> exists k :: 0 <= k < n && all[k] == id
    ensures Finished(codec, f, f', gen, own, 0)
  {
    forall id ensures At(f', Temp(id)) == if id in own then None else At(f, Temp(id)) {
      if k :| 0 <= k < |all| && all[k] == id {
        assert id in all;
      }
    }
  }

  /** From any reachable state, a writer on its way can by its own steps alone
      return with its whole payload published, but for what others have
      replaced since it did: its temporaries are gone, and nobody else's are touched. */
  lemma WriterCanFinish(codec: Codec, s: State, past: set<Generation>, t: State, i: nat) returns (files: Files)
    requires Start(codec, s, past) && CanReach(codec, s, t) && i < |t.writers|
    requires t.writers[i].phase.Staging? || t.writers[i].phase.Filling? || t.writers[i].phase.Replacing?
    ensures CanReach(codec, s, Put(t, i, files, Returned))
    ensures var p := t.writers[i].phase;
            Finished(codec, t.files, files, t.writers[i].generation, Owned(p), if p.Replacing? then p.replaced else 0)
  {
    ReachedStateIsSound(codec, s, past, t);
    var w := t.writers[i];
    assert WriterInv(codec, t.files, w);
    if w.phase.Replacing? {
      files := ReplaceRest(codec, s, past, t, i, w.phase.ids, w.phase.replaced);
    } else {
      var u, ids := t, w.phase.ids;
      if w.phase.Filling? {
        var filled := FillRest(codec, s, past, t, i, ids, w.phase.partial);
        ids := ids + [w.phase.partial];
        u := Put(t, i, filled, Staging(ids));
      }
      var staged, all := StageRest(codec, s, u, i, ids);
      var v := Put(u, i, staged, Replacing(all, 0));
      files := ReplaceRest(codec, s, past, v, i, all, 0);
      assert Put(v, i, files, Returned) == Put(t, i, files, Returned);
      StagedFinishes(codec, u.files, staged, files, w.generation, Owned(Staging(ids)), all, |ids|);
    }
  }

  lemma {:induction false} CleanRest(codec: Codec, s: State, t: State, i: nat, ids: seq<nat>)
    requires CanReach(codec, s, t) && i < |t.writers| && t.writers[i].phase == Cleaning(ids)
    ensures CanReach(codec, s, Put(t, i, t.files - Temps(ids), Stopped))
    decreases |ids|
  {
    if ids == [] {
      var u := Put(t, i, t.files, Stopped);
      assert Turns(t.files, t.writers[i].phase, t.files, Stopped);
      assert StepOf(codec, t, u, i);
      Then(codec, s, t, u, i);
      assert t.files - Temps([]) == t.files;
    } else {
      var files := t.files - {Temp(ids[0])};
      var u := Put(t, i, files, Cleaning(ids[1..]));
      assert Removes(t.files, t.writers[i].phase, files, Cleaning(ids[1..]));
      assert StepOf(codec, t, u, i);
      Then(codec, s, t, u, i);
      CleanRest(codec, s, u, i, ids[1..]);
      assert ids == [ids[0]] + ids[1..];
      assert files - Temps(ids[1..]) == t.files - Temps(ids);
      assert Put(u, i, t.files - Temps(ids), Stopped) == Put(t, i, t.files - Temps(ids), Stopped);
    }
  }

  /** And it can fail with all its temporaries removed, and nothing else changed. */
  lemma WriterCanCleanUp(codec: Codec, s: State, past: set<Generation>, t: State, i: nat) returns (files: Files)
    requires Start(codec, s, past) && CanReach(codec, s, t) && i < |t.writers|
    requires !t.writers[i].phase.Returned? && !t.writers[i].phase.Stopped?
    ensures CanReach(codec, s, Put(t, i, files, Stopped))
    ensures files == t.files - set id | id in Owned(t.writers[i].phase) :: Temp(id)
  {
    ReachedStateIsSound(codec, s, past, t);
    var w := t.writers[i];
    assert WriterInv(codec, t.files, w);
    var u, ids := t, w.phase.ids;
    if w.phase.Staging? && |ids| == 3 {
      u := Put(t, i, t.files, Replacing(ids, 0));
      assert Turns(t.files, w.phase, t.files, Replacing(ids, 0));
      assert StepOf(codec, t, u, i);
      Then(codec, s, t, u, i);
    }
    if !w.phase.Cleaning? {
      var files' := if w.phase.Filling? then t.files - {Temp(w.phase.partial)} else t.files;
      var v := Put(t, i, files', Cleaning(ids));
      assert Removes(t.files, w.phase, files', Cleaning(ids)) || Turns(t.files, u.writers[i].phase, files', Cleaning(ids));
      assert StepOf(codec, u, v, i);
      Then(codec, s, u, v, i);
      u := v;
    }
    CleanRest(codec, s, u, i, ids);
    files := u.files - Temps(ids);
    assert Put(u, i, files, Stopped) == Put(t, i, files, Stopped);
    assert files == t.files - set id | id in Owned(w.phase) :: Temp(id);
  }

  /** Or stop at any moment, leaving everything as it is. */
  lemma WriterMayStop(codec: Codec, t: State, i: nat)
    requires i < |t.writers| && !t.writers[i].phase.Returned?
    ensures StepOf(codec, t, Put(t, i, t.files, Stopped), i)
  {
    assert Turns(t.files, t.writers[i].phase, t.files, Stopped);
  }

  lemma {:induction false} ReplacedSoFar(codec: Codec, run: seq<State>, past: set<Generation>, n: nat, i: nat, t: nat)
    requires Run(codec, run, past) && n < |run| && i < |run[n].writers| && t < 3
    requires var p := run[n].writers[i].phase; p.Returned? || (p.Replacing? && t < p.replaced)
    ensures Latest(codec, run, n, t).Some?
  {
    if n > 0 {
      assert StepAt(codec, run, n);
      var l: nat :| StepOf(codec, run[n - 1], run[n], l);
      LatestAfter(codec, run, n, l, t);
      if !ReplacesAt(codec, run, n, l, t) {
        ReplacedSoFar(codec, run, past, n - 1, i, t);
      }
    }
  }

  /** Nobody is midway or has broken off, and somebody has returned. */
  ghost predicate Settled(s: State) {
    && (forall i :: 0 <= i < |s.writers| ==>
          var p := s.writers[i].phase; p.Staging? || p.Filling? || p.Returned? || (p.Replacing? && p.replaced == 0))
    && exists i :: 0 <= i < |s.writers| && s.writers[i].phase.Returned?
  }

  ghost predicate ReturnsLeaveItValid(codec: Codec, s: State, past: set<Generation>) {
    forall run: seq<State>, n: nat :: Run(codec, run, past) && run[0] == s && 0 <= n < |run| && Settled(run[n]) ==> Validates(codec, run[n].files)
  }

  ghost predicate OnePayload(s: State) {
    forall i, j :: 0 <= i < |s.writers| && 0 <= j < |s.writers| ==> SamePayload(s.writers[i], s.writers[j])
  }

  /** Writers of one payload: from the first return on, in every state of every
      run, broken-off writers included, the artifact validates. */
  lemma OnePayloadStaysValid(codec: Codec, run: seq<State>, past: set<Generation>, n: nat, i: nat)
    requires Injective(codec) && Run(codec, run, past) && n < |run| && OnePayload(run[0])
    requires i < |run[n].writers| && run[n].writers[i].phase.Returned?
    ensures Validates(codec, run[n].files)
  {
    ReplacedSoFar(codec, run, past, n, i, 0);
    ReplacedSoFar(codec, run, past, n, i, 1);
    ReplacedSoFar(codec, run, past, n, i, 2);
    LatestHolds(codec, run, past, n, 0);
    LatestHolds(codec, run, past, n, 1);
    LastReplacementsDecide(codec, run, past, n);
  }

  /** Whatever writers start together: every state that they can settle in is
      valid exactly when they all publish the same payload. */
  lemma ReturnsLeaveItValidIff(codec: Codec, s: State, past: set<Generation>)
    requires Injective(codec) && Start(codec, s, past)
    ensures ReturnsLeaveItValid(codec, s, past) <==> OnePayload(s)
  {
    if OnePayload(s) {
      forall run: seq<State>, n: nat | Run(codec, run, past) && run[0] == s && 0 <= n < |run| && Settled(run[n])
        ensures Validates(codec, run[n].files)
      {
        var i :| 0 <= i < |run[n].writers| && run[n].writers[i].phase.Returned?;
        OnePayloadStaysValid(codec, run, past, n, i);
      }
    }
    if a, b :| 0 <= a < |s.writers| && 0 <= b < |s.writers| && !SamePayload(s.writers[a], s.writers[b]) {
      var files := BothReturnAndItIsInvalid(codec, s, past, a, b);
      var run: seq<State> :| Leads(codec, run, s, Both(s, a, b, files, Returned, Returned));
      assert run[|run| - 1].writers[a].phase.Returned?;
    }
  }
}
