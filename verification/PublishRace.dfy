/** Several publishers at once over one dist directory, stopping anywhere. */
module PublishRace {
  import opened Text
  import opened PublishDirectory

  /** Looking and renaming are separate calls; so are renaming and undoing it. */
  datatype Phase = Ready | Looked(present: bool) | Renamed(publication: Publication) | Kept | Stopped

  datatype Publisher = Publisher(source: Path, destination: Path, phase: Phase)

  datatype State = State(names: Names, publishers: seq<Publisher>)

  ghost predicate Act(names: Names, p: Publisher, names': Names, phase: Phase) {
    || (p.phase.Ready? && names' == names && phase == Looked(p.destination in names))
    || (p.phase == Looked(false) && p.source in names && p.destination !in names
        && names' == Moved(names, p.source, p.destination) && phase == Renamed(Created))
    || (p.phase == Looked(true) && p.source in names && p.destination in names
        && names' == Exchanged(names, p.source, p.destination) && phase == Renamed(Replaced))
    || (p.phase.Renamed? && names' == names && phase == Kept)
    || (p.phase == Renamed(Created) && p.destination in names && p.source !in names
        && names' == Moved(names, p.destination, p.source) && phase == Stopped)
    || (p.phase == Renamed(Replaced) && p.source in names && p.destination in names
        && names' == Exchanged(names, p.source, p.destination) && phase == Stopped)
    || (!p.phase.Kept? && names' == names && phase == Stopped)
  }

  ghost predicate StepOf(s: State, t: State, i: nat) {
    && i < |s.publishers| == |t.publishers|
    && t.publishers == s.publishers[i := s.publishers[i].(phase := t.publishers[i].phase)]
    && Act(s.names, s.publishers[i], t.names, t.publishers[i].phase)
  }

  ghost predicate Step(s: State, t: State) {
    exists i: nat :: StepOf(s, t, i)
  }

  ghost predicate StepAt(run: seq<State>, k: nat) {
    0 < k < |run| && Step(run[k - 1], run[k])
  }

  predicate WellPlaced(p: Publisher) {
    StagingPath(p.source) && DestinationPath(p.destination)
  }

  ghost predicate Start(s: State) {
    OneNameEach(s.names) && forall p :: p in s.publishers ==> WellPlaced(p) && p.phase.Ready?
  }

  ghost predicate Run(run: seq<State>) {
    run != [] && Start(run[0]) && forall k :: 0 < k < |run| ==> StepAt(run, k)
  }

  // ---- Conservation ----

  ghost predicate SameTrees(a: Names, b: Names) {
    OneNameEach(b) && forall t :: t in a.Values <==> t in b.Values
  }

  lemma MoveConserves(names: Names, from: Path, to: Path)
    requires OneNameEach(names) && from in names && to !in names
    ensures SameTrees(names, Moved(names, from, to))
  {
    var after := Moved(names, from, to);
    forall t ensures t in names.Values <==> t in after.Values {
      if t in names.Values {
        var p :| p in names && names[p] == t;
        assert after[if p == from then to else p] == t;
      }
    }
  }

  lemma ExchangeConserves(names: Names, a: Path, b: Path)
    requires OneNameEach(names) && a in names && b in names
    ensures SameTrees(names, Exchanged(names, a, b))
  {
    var after := Exchanged(names, a, b);
    forall t ensures t in names.Values <==> t in after.Values {
      if t in names.Values {
        var p :| p in names && names[p] == t;
        assert after[if p == a then b else if p == b then a else p] == t;
      }
    }
  }

  lemma StepConserves(s: State, t: State)
    requires OneNameEach(s.names) && Step(s, t)
    ensures SameTrees(s.names, t.names)
  {
    var i: nat :| StepOf(s, t, i);
    var p := s.publishers[i];
    if p.phase == Looked(false) && t.names != s.names {
      MoveConserves(s.names, p.source, p.destination);
    } else if p.phase == Renamed(Created) && t.names != s.names {
      MoveConserves(s.names, p.destination, p.source);
    } else if t.names != s.names {
      ExchangeConserves(s.names, p.source, p.destination);
    }
  }

  /** No interleaving of publishers, rollbacks and crashes loses, duplicates or
      mixes trees: the same trees have one name each, always. */
  lemma {:induction false} TreesAreConserved(run: seq<State>, k: nat)
    requires Run(run) && k < |run|
    ensures SameTrees(run[0].names, run[k].names)
  {
    if k > 0 {
      TreesAreConserved(run, k - 1);
      assert StepAt(run, k);
      StepConserves(run[k - 1], run[k]);
    }
  }

  // ---- A destination that exists ----

  ghost predicate HeldUp(s: State, destination: Path) {
    && destination in s.names
    && forall i :: 0 <= i < |s.publishers| ==>
         && WellPlaced(s.publishers[i])
         && (s.publishers[i].destination == destination ==>
               s.publishers[i].phase != Looked(false) && s.publishers[i].phase != Renamed(Created))
  }

  lemma StepHoldsUp(s: State, t: State, destination: Path)
    requires DestinationPath(destination) && HeldUp(s, destination) && Step(s, t)
    ensures HeldUp(t, destination)
  {
  }

  /** A destination that exists at the start never disappears. */
  lemma {:induction false} DestinationNeverVanishes(run: seq<State>, destination: Path, k: nat)
    requires Run(run) && DestinationPath(destination) && destination in run[0].names && k < |run|
    ensures HeldUp(run[k], destination)
  {
    if k > 0 {
      DestinationNeverVanishes(run, destination, k - 1);
      assert StepAt(run, k);
      StepHoldsUp(run[k - 1], run[k], destination);
    }
  }

  // ---- A publisher left alone ----

  /** In any state, a publisher that is about to start can publish: three steps
      of its own, and the namespace is the published one. */
  lemma PublisherCanPublish(s: State, i: nat) returns (looked: State, renamed: State, kept: State)
    requires i < |s.publishers| && s.publishers[i].phase.Ready? && WellPlaced(s.publishers[i])
    requires s.publishers[i].source in s.names
    ensures StepOf(s, looked, i) && StepOf(looked, renamed, i) && StepOf(renamed, kept, i)
    ensures kept.publishers == s.publishers[i := s.publishers[i].(phase := Kept)]
    ensures renamed.names == kept.names == Published(s.names, s.publishers[i].source, s.publishers[i].destination)
  {
    var p := s.publishers[i];
    var present := p.destination in s.names;
    looked := State(s.names, s.publishers[i := p.(phase := Looked(present))]);
    var after := Published(s.names, p.source, p.destination);
    renamed := State(after, s.publishers[i := p.(phase := Renamed(if present then Replaced else Created))]);
    kept := State(after, s.publishers[i := p.(phase := Kept)]);
  }

  /** And until it has returned it can stop at any moment, leaving things as they are. */
  lemma PublisherMayStop(s: State, i: nat)
    requires i < |s.publishers| && !s.publishers[i].phase.Kept?
    ensures StepOf(s, State(s.names, s.publishers[i := s.publishers[i].(phase := Stopped)]), i)
  {
  }

  // ---- What a rollback restores ----

  function At(names: Names, path: Path): Option<Tree> {
    if path in names then Some(names[path]) else None
  }

  ghost predicate Renames(run: seq<State>, i: nat, j: nat) {
    && 0 < j < |run| && StepOf(run[j - 1], run[j], i)
    && run[j - 1].publishers[i].phase.Looked? && run[j].publishers[i].phase.Renamed?
  }

  /** Publisher i undoes its rename (and does not just stop). */
  ghost predicate RollsBack(run: seq<State>, i: nat, k: nat) {
    && 0 < k < |run| && StepOf(run[k - 1], run[k], i)
    && run[k - 1].publishers[i].phase.Renamed? && run[k].publishers[i].phase.Stopped?
    && run[k].names != run[k - 1].names
  }

  /** Both names of publisher i are after step k as they were before step j. */
  ghost predicate Restored(run: seq<State>, i: nat, j: nat, k: nat)
    requires 0 < j < |run| && k < |run| && i < |run[0].publishers|
  {
    var p := run[0].publishers[i];
    && At(run[k].names, p.source) == At(run[j - 1].names, p.source)
    && At(run[k].names, p.destination) == At(run[j - 1].names, p.destination)
  }

  /** Publisher l changes the namespace in step n. */
  ghost predicate Changes(run: seq<State>, n: nat, l: nat) {
    0 < n < |run| && StepOf(run[n - 1], run[n], l) && run[n].names != run[n - 1].names
  }

  lemma {:induction false} PublishersStay(run: seq<State>, n: nat)
    requires Run(run) && n < |run|
    ensures |run[n].publishers| == |run[0].publishers|
    ensures forall l :: 0 <= l < |run[0].publishers| ==>
              run[n].publishers[l] == run[0].publishers[l].(phase := run[n].publishers[l].phase)
    ensures forall l :: 0 <= l < |run[0].publishers| ==> WellPlaced(run[0].publishers[l])
  {
    if n > 0 {
      PublishersStay(run, n - 1);
      assert StepAt(run, n);
    }
  }

  function Rank(phase: Phase): nat {
    match phase
    case Ready => 0
    case Looked(_) => 1
    case Renamed(_) => 2
    case _ => 3
  }

  /** A publisher that stands on its rename at both ends has made no step between. */
  lemma {:induction false} StandsStill(run: seq<State>, i: nat, j: nat, k: nat)
    requires Run(run) && j <= k < |run| && i < |run[0].publishers|
    ensures |run[j].publishers| == |run[k].publishers| == |run[0].publishers|
    ensures Rank(run[j].publishers[i].phase) <= Rank(run[k].publishers[i].phase)
    ensures run[j].publishers[i].phase.Renamed? && run[k].publishers[i].phase.Renamed? ==>
              run[j].publishers[i] == run[k].publishers[i] && forall n :: j < n <= k ==> !Changes(run, n, i)
  {
    PublishersStay(run, k);
    PublishersStay(run, j);
    if j < k {
      StandsStill(run, i, j, k - 1);
      assert StepAt(run, k);
    }
  }

  // ---- Where a tree goes ----

  /** Every change of the namespace swaps what two names mean, an absent meaning included. */
  function Swap(p: Publisher, path: Path): Path {
    if path == p.source then p.destination else if path == p.destination then p.source else path
  }

  lemma ChangeSwaps(run: seq<State>, n: nat, l: nat, path: Path)
    requires Run(run) && Changes(run, n, l)
    ensures l < |run[0].publishers|
    ensures At(run[n].names, Swap(run[0].publishers[l], path)) == At(run[n - 1].names, path)
  {
    PublishersStay(run, n - 1);
    PublishersStay(run, n);
  }

  lemma SomeoneChanges(run: seq<State>, n: nat)
    requires Run(run) && 0 < n < |run| && forall l: nat :: !Changes(run, n, l)
    ensures run[n].names == run[n - 1].names
  {
    assert StepAt(run, n);
    var l: nat :| StepOf(run[n - 1], run[n], l);
    assert !Changes(run, n, l);
  }

  /** Where the tree that `path` names after step j is found after step n, by the
      order of the changes alone. */
  ghost function Track(run: seq<State>, j: nat, n: nat, path: Path): Path
    requires Run(run) && n < |run|
    decreases n
  {
    if n <= j then path
    else if l: nat :| Changes(run, n, l) then
      PublishersStay(run, n - 1);
      Swap(run[0].publishers[l], Track(run, j, n - 1, path))
    else Track(run, j, n - 1, path)
  }

  lemma {:induction false} TrackFollows(run: seq<State>, j: nat, n: nat, path: Path)
    requires Run(run) && j <= n < |run|
    ensures At(run[n].names, Track(run, j, n, path)) == At(run[j].names, path)
    decreases n
  {
    if j < n {
      TrackFollows(run, j, n - 1, path);
      if l: nat :| Changes(run, n, l) {
        forall l: nat | Changes(run, n, l)
          ensures l < |run[0].publishers|
          ensures At(run[n].names, Swap(run[0].publishers[l], Track(run, j, n - 1, path))) == At(run[j].names, path)
        {
          ChangeSwaps(run, n, l, Track(run, j, n - 1, path));
        }
      } else {
        SomeoneChanges(run, n);
      }
    }
  }

  /** A tree is back at its name exactly when the changes lead it back. */
  lemma BackIff(run: seq<State>, j: nat, n: nat, path: Path)
    requires Run(run) && j <= n < |run| && path in run[j].names
    ensures At(run[n].names, path) == At(run[j].names, path) <==> Track(run, j, n, path) == path
  {
    TrackFollows(run, j, n, path);
    TreesAreConserved(run, n);
  }

  /** For every run: a rollback puts both names back exactly when the changes made
      since the rename lead the two trees back to where the rename put them. */
  lemma RollbackRestoresIff(run: seq<State>, i: nat, j: nat, k: nat)
    requires Run(run) && j < k && Renames(run, i, j) && RollsBack(run, i, k)
    ensures i < |run[0].publishers|
    ensures var p := run[0].publishers[i];
            Restored(run, i, j, k) <==>
            && Track(run, j, k - 1, p.destination) == p.destination
            && (run[j].publishers[i].phase == Renamed(Replaced) ==> Track(run, j, k - 1, p.source) == p.source)
  {
    PublishersStay(run, j);
    StandsStill(run, i, j, k - 1);
    RenameSwaps(run, i, j);
    UndoSwaps(run, i, k);
    var p := run[0].publishers[i];
    BackIff(run, j, k - 1, p.destination);
    if run[j].publishers[i].phase == Renamed(Replaced) {
      BackIff(run, j, k - 1, p.source);
    }
  }

  lemma RenameSwaps(run: seq<State>, i: nat, j: nat)
    requires Run(run) && Renames(run, i, j)
    ensures i < |run[0].publishers|
    ensures var p := run[0].publishers[i];
            && p.destination in run[j].names
            && (p.source in run[j].names <==> run[j].publishers[i].phase == Renamed(Replaced))
            && At(run[j].names, p.destination) == At(run[j - 1].names, p.source)
            && At(run[j].names, p.source) == At(run[j - 1].names, p.destination)
  {
    PublishersStay(run, j - 1);
  }

  lemma UndoSwaps(run: seq<State>, i: nat, k: nat)
    requires Run(run) && RollsBack(run, i, k)
    ensures i < |run[0].publishers|
    ensures var p := run[0].publishers[i];
            && At(run[k].names, p.destination) == At(run[k - 1].names, p.source)
            && At(run[k].names, p.source) == At(run[k - 1].names, p.destination)
            && p.destination in run[k - 1].names
            && (p.source in run[k - 1].names <==> run[k - 1].publishers[i].phase == Renamed(Replaced))
  {
    PublishersStay(run, k - 1);
  }

  // ---- Publishers that share a name ----

  predicate Share(p: Publisher, q: Publisher) {
    p.source == q.source || p.destination == q.destination
  }

  /** From step j to step n, no publisher that shares a name with publisher i changes anything. */
  ghost predicate LeftAlone(run: seq<State>, i: nat, j: nat, n: nat)
    requires Run(run) && i < |run[0].publishers|
  {
    forall m, l: nat :: j < m <= n && Changes(run, m, l) && l != i && l < |run[0].publishers| ==>
      !Share(run[0].publishers[i], run[0].publishers[l])
  }

  lemma {:induction false} LeftAloneStays(run: seq<State>, i: nat, j: nat, n: nat, path: Path)
    requires Run(run) && j <= n < |run| && i < |run[0].publishers| && LeftAlone(run, i, j, n)
    requires path == run[0].publishers[i].source || path == run[0].publishers[i].destination
    requires forall m :: j < m <= n ==> !Changes(run, m, i)
    ensures Track(run, j, n, path) == path
    decreases n
  {
    if j < n {
      LeftAloneStays(run, i, j, n - 1, path);
      PublishersStay(run, n);
      forall l: nat | Changes(run, n, l) ensures l < |run[0].publishers| && Swap(run[0].publishers[l], path) == path {
        assert l < |run[0].publishers| && WellPlaced(run[0].publishers[l]) && WellPlaced(run[0].publishers[i]);
      }
    }
  }

  /** A rollback that no publisher of the same names comes between restores both. */
  lemma UndisturbedRollbackRestores(run: seq<State>, i: nat, j: nat, k: nat)
    requires Run(run) && j < k && Renames(run, i, j) && RollsBack(run, i, k)
    requires i < |run[0].publishers| && LeftAlone(run, i, j, k - 1)
    ensures Restored(run, i, j, k)
  {
    PublishersStay(run, j);
    StandsStill(run, i, j, k - 1);
    RollbackRestoresIff(run, i, j, k);
    LeftAloneStays(run, i, j, k - 1, run[0].publishers[i].source);
    LeftAloneStays(run, i, j, k - 1, run[0].publishers[i].destination);
  }

  // ---- Two publishers of one destination ----

  function With(publishers: seq<Publisher>, a: nat, x: Phase, b: nat, y: Phase): seq<Publisher>
    requires a < |publishers| && b < |publishers| && a != b
  {
    publishers[a := publishers[a].(phase := x)][b := publishers[b].(phase := y)]
  }

  /** Two publishers that can take their sources to one destination. */
  ghost predicate Rivals(s: State, a: nat, b: nat) {
    && Start(s) && a < |s.publishers| && b < |s.publishers| && a != b
    && s.publishers[a].destination == s.publishers[b].destination && s.publishers[a].source != s.publishers[b].source
    && s.publishers[a].source in s.names && s.publishers[b].source in s.names
  }

  /** The namespace after a's rename, after b's, and after a's rollback. */
  ghost function NamesAfter(s: State, a: nat, b: nat, n: nat): Names
    requires Rivals(s, a, b)
  {
    var d, p, q := s.publishers[a].destination, s.publishers[a].source, s.publishers[b].source;
    assert s.publishers[a] in s.publishers && s.publishers[b] in s.publishers;
    if n == 0 then s.names
    else if n == 1 then Published(s.names, p, d)
    else if n == 2 then Exchanged(Published(s.names, p, d), q, d)
    else if d in s.names then Exchanged(NamesAfter(s, a, b, 2), p, d)
    else Moved(NamesAfter(s, a, b, 2), d, p)
  }

  /** The first one's sync fails after the second has returned, and its rollback
      takes the second's generation down. */
  ghost function Overlap(s: State, a: nat, b: nat): seq<State>
    requires Rivals(s, a, b)
  {
    var present := s.publishers[a].destination in s.names;
    var x := Renamed(if present then Replaced else Created);
    var ps := s.publishers;
    [ s,
      State(NamesAfter(s, a, b, 0), With(ps, a, Looked(present), b, Ready)),
      State(NamesAfter(s, a, b, 1), With(ps, a, x, b, Ready)),
      State(NamesAfter(s, a, b, 1), With(ps, a, x, b, Looked(true))),
      State(NamesAfter(s, a, b, 2), With(ps, a, x, b, Renamed(Replaced))),
      State(NamesAfter(s, a, b, 2), With(ps, a, x, b, Kept)),
      State(NamesAfter(s, a, b, 3), With(ps, a, Stopped, b, Kept)) ]
  }

  lemma FirstActs(ps: seq<Publisher>, a: nat, x: Phase, x2: Phase, b: nat, y: Phase, names: Names, names2: Names)
    requires a < |ps| && b < |ps| && a != b && Act(names, ps[a].(phase := x), names2, x2)
    ensures StepOf(State(names, With(ps, a, x, b, y)), State(names2, With(ps, a, x2, b, y)), a)
  {
  }

  lemma SecondActs(ps: seq<Publisher>, a: nat, x: Phase, b: nat, y: Phase, y2: Phase, names: Names, names2: Names)
    requires a < |ps| && b < |ps| && a != b && Act(names, ps[b].(phase := y), names2, y2)
    ensures StepOf(State(names, With(ps, a, x, b, y)), State(names2, With(ps, a, x, b, y2)), b)
  {
  }

  lemma OverlapBegins(s: State, a: nat, b: nat)
    requires Rivals(s, a, b)
    ensures var run := Overlap(s, a, b);
            StepOf(run[0], run[1], a) && StepOf(run[1], run[2], a) && StepOf(run[2], run[3], b)
  {
    var ps, run, present := s.publishers, Overlap(s, a, b), s.publishers[a].destination in s.names;
    assert ps[a] in ps && ps[b] in ps;
    assert ps == With(ps, a, Ready, b, Ready);
    FirstActs(ps, a, Ready, Looked(present), b, Ready, s.names, s.names);
    FirstActs(ps, a, Looked(present), run[2].publishers[a].phase, b, Ready, s.names, run[2].names);
    SecondActs(ps, a, run[2].publishers[a].phase, b, Ready, Looked(true), run[2].names, run[2].names);
  }

  lemma OverlapEnds(s: State, a: nat, b: nat)
    requires Rivals(s, a, b)
    ensures var run := Overlap(s, a, b);
            StepOf(run[3], run[4], b) && StepOf(run[4], run[5], b) && StepOf(run[5], run[6], a)
  {
    var ps, run := s.publishers, Overlap(s, a, b);
    assert ps[a] in ps && ps[b] in ps;
    var x := run[2].publishers[a].phase;
    SecondActs(ps, a, x, b, Looked(true), Renamed(Replaced), run[3].names, run[4].names);
    SecondActs(ps, a, x, b, Renamed(Replaced), Kept, run[4].names, run[5].names);
    FirstActs(ps, a, x, Stopped, b, Kept, run[5].names, run[6].names);
  }

  lemma SixSteps(run: seq<State>)
    requires |run| == 7 && Step(run[0], run[1]) && Step(run[1], run[2]) && Step(run[2], run[3])
    requires Step(run[3], run[4]) && Step(run[4], run[5]) && Step(run[5], run[6])
    ensures forall k :: 0 < k < |run| ==> StepAt(run, k)
  {
  }

  lemma OverlapIsARun(s: State, a: nat, b: nat)
    requires Rivals(s, a, b)
    ensures var run := Overlap(s, a, b); |run| == 7 && Run(run)
  {
    OverlapBegins(s, a, b);
    OverlapEnds(s, a, b);
    SixSteps(Overlap(s, a, b));
  }

  /** From any start, two publishers of one destination can end so: the second
      has returned with its generation published, and the first one's rollback
      takes that generation down again. */
  lemma RollbackCanUnpublishAnother(s: State, a: nat, b: nat)
    requires Rivals(s, a, b)
    ensures var run, d := Overlap(s, a, b), s.publishers[a].destination;
            && |run| == 7 && Run(run) && Renames(run, a, 2) && RollsBack(run, a, 6) && !Restored(run, a, 2, 6)
            && run[5].publishers[b].phase.Kept? && run[6].publishers[b].phase.Kept?
            && At(run[5].names, d) == At(s.names, s.publishers[b].source) && At(run[6].names, d) == At(s.names, d)
  {
    OverlapIsARun(s, a, b);
    OverlapBegins(s, a, b);
    OverlapEnds(s, a, b);
    assert s.publishers[a] in s.publishers && s.publishers[b] in s.publishers;
  }

  // ---- When every rollback restores ----

  ghost predicate RollbackRestores(run: seq<State>, i: nat, j: nat, k: nat) {
    Run(run) && i < |run[0].publishers| && 0 < j < k < |run| && Renames(run, i, j) && RollsBack(run, i, k) ==>
      Restored(run, i, j, k)
  }

  ghost predicate RollbacksAlwaysRestore(s: State) {
    forall run: seq<State>, i: nat, j: nat, k: nat :: Run(run) && run[0] == s ==> RollbackRestores(run, i, j, k)
  }

  /** Each publisher has a staged tree of its own. */
  ghost predicate OwnSources(s: State) {
    && (forall i :: 0 <= i < |s.publishers| ==> s.publishers[i].source in s.names)
    && forall i, j :: 0 <= i < j < |s.publishers| ==> s.publishers[i].source != s.publishers[j].source
  }

  ghost predicate OwnDestinations(s: State) {
    forall i, j :: 0 <= i < j < |s.publishers| ==> s.publishers[i].destination != s.publishers[j].destination
  }

  /** Publishers with staged trees of their own: every rollback of every run
      restores what its rename changed exactly when no two share a destination. */
  lemma RollbacksRestoreIff(s: State)
    requires Start(s) && OwnSources(s)
    ensures RollbacksAlwaysRestore(s) <==> OwnDestinations(s)
  {
    if OwnDestinations(s) {
      forall run: seq<State>, i: nat, j: nat, k: nat | Run(run) && run[0] == s ensures RollbackRestores(run, i, j, k) {
        if i < |run[0].publishers| && 0 < j < k < |run| && Renames(run, i, j) && RollsBack(run, i, k) {
          UndisturbedRollbackRestores(run, i, j, k);
        }
      }
    }
    if a, b :| 0 <= a < b < |s.publishers| && s.publishers[a].destination == s.publishers[b].destination {
      RollbackCanUnpublishAnother(s, a, b);
      assert !RollbackRestores(Overlap(s, a, b), a, 2, 6);
    }
  }
}
