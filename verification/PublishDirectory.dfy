/** Publishing a release generation by one rename, with rollback. */
module PublishDirectory {
  type Path = seq<string>

  /** A directory tree; directories have no second name, so an id stands for it. */
  type Tree = nat

  type Names = map<Path, Tree>

  // ---- The two renames ----

  function Moved(names: Names, from: Path, to: Path): Names
    requires from in names
  {
    (names - {from})[to := names[from]]
  }

  function Exchanged(names: Names, a: Path, b: Path): Names
    requires a in names && b in names
  {
    names[a := names[b]][b := names[a]]
  }

  /** The namespace once the generation is published. */
  function Published(names: Names, source: Path, destination: Path): Names
    requires source in names
  {
    if destination in names then Exchanged(names, source, destination) else Moved(names, source, destination)
  }

  // ---- One publisher, with a fault at every call ----

  datatype Publication = Created | Replaced

  datatype Stage =
    | BadPaths | SourceUnsafe | StagingSync | OpenDist | OpenParent | ParentSync | DestinationUnsafe | Rename
    | AfterRename | Rollback | Close

  datatype Outcome = Returned(publication: Publication) | Raised(stage: Stage)

  /** Which calls fail in one run. */
  datatype Faults = Faults(
    sourceTree: bool, stagingSync: bool, openDist: bool, openParent: bool, parentSync: bool, statDestination: bool,
    destinationTree: bool, rename: bool, publishedTree: bool, renameSync: bool, rollbackRename: bool,
    rollbackSync: bool, closeParent: bool, closeDist: bool)

  predicate StagingPath(source: Path) {
    |source| >= 2 && |source[0]| >= 5 && source[0][..5] == ".rkc-"
  }

  predicate DestinationPath(destination: Path) {
    destination == ["evidence"] || destination == ["release"]
  }

  class Namespace {
    var names: Names
    /** Every state a crash could leave behind. */
    ghost var seen: seq<Names>

    ghost predicate Valid()
      reads this
    {
      seen != [] && seen[|seen| - 1] == names
    }

    constructor (names: Names)
      ensures Valid() && this.names == names && seen == [names]
    {
      this.names, seen := names, [names];
    }

    method RenameNoReplace(from: Path, to: Path, fault: bool) returns (ok: bool)
      requires Valid()
      modifies this
      ensures Valid() && ok == (!fault && from in old(names) && to !in old(names))
      ensures names == (if ok then Moved(old(names), from, to) else old(names)) && seen == old(seen) + [names]
    {
      ok := !fault && from in names && to !in names;
      if ok {
        names := (names - {from})[to := names[from]];
      }
      seen := seen + [names];
    }

    method RenameExchange(a: Path, b: Path, fault: bool) returns (ok: bool)
      requires Valid()
      modifies this
      ensures Valid() && ok == (!fault && a in old(names) && b in old(names))
      ensures names == (if ok then Exchanged(old(names), a, b) else old(names)) && seen == old(seen) + [names]
    {
      ok := !fault && a in names && b in names;
      if ok {
        names := names[a := names[b]][b := names[a]];
      }
      seen := seen + [names];
    }

    method RollbackPublication(publication: Publication, source: Path, destination: Path, faults: Faults) returns (ok: bool)
      requires Valid() && destination in names && (publication.Created? <==> source !in names)
      modifies this
      ensures Valid() && ok == (!faults.rollbackRename && !faults.rollbackSync)
      ensures names == if faults.rollbackRename then old(names)
                       else if publication.Replaced? then Exchanged(old(names), source, destination)
                       else Moved(old(names), destination, source)
      ensures seen == old(seen) + [names]
    {
      if publication.Replaced? {
        ok := RenameExchange(source, destination, faults.rollbackRename);
      } else {
        ok := RenameNoReplace(destination, source, faults.rollbackRename);
      }
      ok := ok && !faults.rollbackSync;
    }

    /** What happens between opening and closing the two parent directories. */
    method PublishOpened(source: Path, destination: Path, faults: Faults) returns (outcome: Outcome)
      requires Valid() && OneNameEach(names) && source in names && source != destination
      modifies this
      ensures Valid() && old(seen) <= seen && OneOfTwo(seen[|old(seen)|..], old(names), Published(old(names), source, destination))
      ensures outcome.Returned? ==> outcome.publication == if destination in old(names) then Replaced else Created
      ensures outcome.Returned? <==> !FaultBeforeRename(faults, destination in old(names)) && !FaultAfterRename(faults)
      ensures names == if IsPublished(faults, destination in old(names)) then Published(old(names), source, destination) else old(names)
      ensures outcome.Raised? ==> ExplainsOpened(outcome.stage, faults, destination in old(names))
    {
      if faults.parentSync {
        return Raised(ParentSync);
      }
      var publication;
      if faults.statDestination {
        return Raised(DestinationUnsafe);
      }
      if destination !in names {
        var ok := RenameNoReplace(source, destination, faults.rename);
        if !ok {
          return Raised(Rename);
        }
        publication := Created;
      } else {
        if faults.destinationTree {
          return Raised(DestinationUnsafe);
        }
        var ok := RenameExchange(source, destination, faults.rename);
        if !ok {
          return Raised(Rename);
        }
        publication := Replaced;
      }
      if faults.publishedTree || faults.renameSync {
        RollbackUndoes(old(names), source, destination);
        var restored := RollbackPublication(publication, source, destination, faults);
        return Raised(if restored then AfterRename else Rollback);
      }
      outcome := Returned(publication);
    }

    /** Returned or raised, and at every instant in between, the two names are
        as before or as published.  The last clause says exactly when a call
        that raises has nevertheless published. */
    method Publish(source: Path, destination: Path, faults: Faults) returns (outcome: Outcome)
      requires Valid() && OneNameEach(names)
      modifies this
      ensures Valid() && old(seen) <= seen
      ensures source !in old(names) ==> outcome.Raised? && names == old(names) && seen == old(seen)
      ensures source in old(names) ==> OneOfTwo(seen[|old(seen)|..], old(names), Published(old(names), source, destination))
      ensures outcome.Returned? ==> names == Published(old(names), source, destination)
                                    && outcome.publication == if destination in old(names) then Replaced else Created
      ensures outcome.Returned? <==> Opens(source, destination, old(names), faults) && !FaultBeforeRename(faults, destination in old(names))
                                     && !FaultAfterRename(faults) && !faults.closeParent && !faults.closeDist
      ensures source in old(names) ==> names == old(names) || names == Published(old(names), source, destination)
      ensures outcome.Raised? ==>
                (names != old(names) <==> Opens(source, destination, old(names), faults)
                                          && IsPublished(faults, destination in old(names)))
      ensures outcome.Raised? ==> Explains(outcome.stage, source, destination, old(names), faults)
    {
      if !StagingPath(source) || source !in names || !DestinationPath(destination) {
        return Raised(BadPaths);
      }
      if faults.sourceTree {
        return Raised(SourceUnsafe);
      }
      if faults.stagingSync {
        return Raised(StagingSync);
      }
      if faults.openDist {
        return Raised(OpenDist);
      }
      if faults.openParent {
        return Raised(if faults.closeDist then Close else OpenParent);
      }
      PublishedDiffers(names, source, destination);
      outcome := PublishOpened(source, destination, faults);
      // The `finally` block: a close that fails replaces the outcome.
      if faults.closeParent {
        return Raised(Close);
      }
      if faults.closeDist {
        return Raised(Close);
      }
    }
  }

  /** No tree has two names. */
  ghost predicate OneNameEach(names: Names) {
    forall p, q :: p in names && q in names && names[p] == names[q] ==> p == q
  }

  ghost predicate OneOfTwo(states: seq<Names>, a: Names, b: Names) {
    forall n :: n in states ==> n == a || n == b
  }

  predicate GoodPaths(source: Path, destination: Path, names: Names) {
    StagingPath(source) && source in names && DestinationPath(destination)
  }

  /** Both parent directories have been opened. */
  predicate CloseFails(faults: Faults) {
    faults.closeParent || faults.closeDist
  }

  /** The error of a run names the first call that failed, or the failing close
      or rollback that hides it. */
  predicate Explains(stage: Stage, source: Path, destination: Path, names: Names, faults: Faults) {
    var reached := GoodPaths(source, destination, names) && !faults.sourceTree && !faults.stagingSync && !faults.openDist;
    match stage
    case BadPaths => !GoodPaths(source, destination, names)
    case SourceUnsafe => GoodPaths(source, destination, names) && faults.sourceTree
    case StagingSync => GoodPaths(source, destination, names) && !faults.sourceTree && faults.stagingSync
    case OpenDist =>
      GoodPaths(source, destination, names) && !faults.sourceTree && !faults.stagingSync && faults.openDist
    case OpenParent => reached && faults.openParent && !faults.closeDist
    case Close => reached && if faults.openParent then faults.closeDist else CloseFails(faults)
    case _ => Opens(source, destination, names, faults) && !CloseFails(faults) && ExplainsOpened(stage, faults, destination in names)
  }

  predicate ExplainsOpened(stage: Stage, faults: Faults, replacing: bool) {
    match stage
    case ParentSync => faults.parentSync
    case DestinationUnsafe => !faults.parentSync && (faults.statDestination || (replacing && faults.destinationTree))
    case Rename => !faults.parentSync && !faults.statDestination && !(replacing && faults.destinationTree) && faults.rename
    case AfterRename =>
      !FaultBeforeRename(faults, replacing) && FaultAfterRename(faults) && !faults.rollbackRename && !faults.rollbackSync
    case Rollback =>
      !FaultBeforeRename(faults, replacing) && FaultAfterRename(faults) && (faults.rollbackRename || faults.rollbackSync)
    case _ => false
  }

  /** Every check before the parent directories are open has passed. */
  predicate Opens(source: Path, destination: Path, names: Names, faults: Faults) {
    && StagingPath(source) && source in names && DestinationPath(destination)
    && !faults.sourceTree && !faults.stagingSync && !faults.openDist && !faults.openParent
  }

  /** The rename happened and was not undone. */
  predicate IsPublished(faults: Faults, replacing: bool) {
    !FaultBeforeRename(faults, replacing) && (FaultAfterRename(faults) ==> faults.rollbackRename)
  }

  predicate FaultBeforeRename(faults: Faults, replacing: bool) {
    faults.parentSync || faults.statDestination || (replacing && faults.destinationTree) || faults.rename
  }

  predicate FaultAfterRename(faults: Faults) {
    faults.publishedTree || faults.renameSync
  }

  lemma RollbackUndoes(names: Names, source: Path, destination: Path)
    requires source in names && source != destination
    ensures var after := Published(names, source, destination);
            if destination in names then Exchanged(after, source, destination) == names
            else source !in after && Moved(after, destination, source) == names
  {
  }

  lemma PublishedDiffers(names: Names, source: Path, destination: Path)
    requires OneNameEach(names) && source in names && source != destination
    ensures Published(names, source, destination) != names
  {
  }

  /** Either way the generation is complete: the destination names the whole new
      tree or the whole old one, and is absent only if it was. */
  lemma DestinationIsAlwaysComplete(names: Names, source: Path, destination: Path, state: Names)
    requires source in names && source != destination
    requires state == names || state == Published(names, source, destination)
    ensures destination in names ==> destination in state
    ensures destination in state ==> state[destination] == names[source] || (destination in names && state[destination] == names[destination])
    ensures destination in names ==> state.Values == names.Values
  {
    if destination in names {
      var after := Published(names, source, destination);
      forall t ensures t in after.Values <==> t in names.Values {
        if t in names.Values {
          var p :| p in names && names[p] == t;
          assert after[if p == source then destination else if p == destination then source else p] == t;
        }
      }
    }
  }

  /** A close that fails after a successful publication: the call raises, the
      rename stands although no rollback failed. */
  method FailedCloseStillPublishes() returns (space: Namespace, outcome: Outcome)
    ensures fresh(space) && outcome.Raised?
    ensures space.names == map[["release"] := 1, [".rkc-x", "release"] := 0]
  {
    var staging, release := ".rkc-x", "release";
    var source, destination := [staging, release], [release];
    assert staging[..5] == ".rkc-" && |source| != |destination|;
    var names: Names := map[destination := 0, source := 1];
    space := new Namespace(names);
    var faults := Faults(false, false, false, false, false, false, false, false, false, false, false, false, true, false);
    assert Opens(source, destination, names, faults) && IsPublished(faults, true);
    outcome := space.Publish(source, destination, faults);
    PublishedDiffers(names, source, destination);
    assert Published(names, source, destination) == map[destination := 1, source := 0];
  }
}
