/** The canonical publication tables and every guard on them: the foreign keys,
    checks and triggers of the SQLite migrations, one row per statement. */
module SnapshotStore {
  import opened Text

  type Id = string

  datatype BuildState = Open | Committed | Aborted

  /** `base` stands for base_current_snapshot_id and parent_snapshot_id, which a
      CHECK makes equal. */
  datatype Build = Build(repository: Id, base: Option<Id>, state: BuildState, committed: Option<Id>)

  datatype Snapshot = Snapshot(repository: Id, parent: Option<Id>, build: Id, content: string)

  datatype Repository = Repository(affinity: Option<Id>, current: Option<Id>)

  /** A record of a build or a snapshot: its owner, family and id. */
  datatype Key = Key(owner: Id, family: string, record: Id)

  /** `order` is the snapshot table in the order of insertion. */
  datatype Database = Database(
    repositories: map<Id, Repository>, builds: map<Id, Build>, order: seq<Id>, snapshots: map<Id, Snapshot>,
    staged: map<Key, string>, records: map<Key, string>)

  datatype Statement =
    | InsertRepository(id: Id, repository: Repository)
    | UpdateRepository(id: Id, repository: Repository)
    | DeleteRepository(id: Id)
    | InsertBuild(id: Id, build: Build)
    | UpdateBuild(id: Id, build: Build)
    | DeleteBuild(id: Id)
    | InsertSnapshot(id: Id, snapshot: Snapshot)
    | UpdateSnapshot(id: Id, snapshot: Snapshot)
    | DeleteSnapshot(id: Id)
    | InsertStaged(key: Key, json: string)
    | UpdateStaged(key: Key, to: Key, json: string)
    | DeleteStaged(key: Key)
    | InsertRecord(key: Key, json: string)
    | UpdateRecord(key: Key, json: string)
    | DeleteRecord(key: Key)

  // ---- The guards ----

  predicate SnapshotOf(db: Database, s: Id, repository: Id) {
    s in db.snapshots && db.snapshots[s].repository == repository
  }

  predicate OptionalSnapshotOf(db: Database, s: Option<Id>, repository: Id) {
    s.Some? ==> SnapshotOf(db, s.value, repository)
  }

  predicate IsOpen(db: Database, build: Id) {
    build in db.builds && db.builds[build].state.Open?
  }

  predicate Owns(db: Database, build: Id, s: Id) {
    s in db.snapshots && db.snapshots[s].build == build
  }

  predicate Referenced(db: Database, build: Id) {
    exists s :: s in db.snapshots && db.snapshots[s].build == build
  }

  predicate HasStaged(db: Database, build: Id) {
    exists key :: key in db.staged && key.owner == build
  }

  /** The row shape and foreign keys of a build. */
  predicate BuildFits(db: Database, row: Build) {
    && row.repository in db.repositories && (row.state.Committed? <==> row.committed.Some?)
    && OptionalSnapshotOf(db, row.base, row.repository) && OptionalSnapshotOf(db, row.committed, row.repository)
  }

  /** builds_commit_snapshot_guard and builds_commit_compare_and_swap_guard. */
  predicate MayCommit(db: Database, id: Id, row: Build) {
    && row.committed.Some? && SnapshotOf(db, row.committed.value, row.repository) && Owns(db, id, row.committed.value)
    && row.repository in db.repositories && db.repositories[row.repository].current == row.base
  }

  /** The current pointer of a repository may become `s`. */
  predicate MayPublish(db: Database, id: Id, before: Option<Id>, s: Id) {
    && SnapshotOf(db, s, id) && db.snapshots[s].build in db.builds
    && var build := db.builds[db.snapshots[s].build];
    && build.repository == id && build.state.Committed? && build.committed == Some(s)
    && (before != Some(s) ==> db.snapshots[s].parent == build.base == before)
  }

  predicate RepositoryUpdateAllowed(db: Database, id: Id, row: Repository) {
    id in db.repositories ==>
      var before := db.repositories[id];
      && (before.affinity.Some? ==> row.affinity == before.affinity)
      && (before.current.Some? ==> row.current.Some?)
      && (row.current.Some? ==> row.affinity == Some(id) && MayPublish(db, id, before.current, row.current.value))
  }

  predicate RepositoryDeleteAllowed(db: Database, id: Id) {
    id in db.repositories ==>
      && (forall s :: s in db.snapshots ==> db.snapshots[s].repository != id)
      && (forall b :: b in db.builds && db.builds[b].repository == id ==> db.builds[b].state.Open?)
  }

  predicate BuildUpdateAllowed(db: Database, id: Id, row: Build) {
    id in db.builds ==>
      var before := db.builds[id];
      && before.state.Open? && row.base == before.base && BuildFits(db, row)
      && (row.repository != before.repository ==> !Referenced(db, id))
      && (!row.state.Open? ==> !HasStaged(db, id))
      && (row.state.Committed? ==> MayCommit(db, id, row))
  }

  predicate BuildDeleteAllowed(db: Database, id: Id) {
    id in db.builds ==> db.builds[id].state.Open? && !Referenced(db, id)
  }

  predicate SnapshotInsertAllowed(db: Database, id: Id, row: Snapshot) {
    && id !in db.snapshots && !Referenced(db, row.build) && IsOpen(db, row.build)
    && db.builds[row.build].repository == row.repository && db.builds[row.build].base == row.parent
    && row.repository in db.repositories
    // The foreign key is checked with the new row in place.
    && (row.parent == Some(id) || OptionalSnapshotOf(db, row.parent, row.repository))
  }

  predicate RecordInsertAllowed(db: Database, key: Key) {
    && key !in db.records && key.owner in db.snapshots && IsOpen(db, db.snapshots[key.owner].build)
  }

  predicate Allowed(db: Database, st: Statement) {
    match st
    case InsertRepository(id, row) => id !in db.repositories && row.current.None?
    case UpdateRepository(id, row) => RepositoryUpdateAllowed(db, id, row)
    case DeleteRepository(id) => RepositoryDeleteAllowed(db, id)
    case InsertBuild(id, row) => id !in db.builds && row.state.Open? && BuildFits(db, row)
    case UpdateBuild(id, row) => BuildUpdateAllowed(db, id, row)
    case DeleteBuild(id) => BuildDeleteAllowed(db, id)
    case InsertSnapshot(id, row) => SnapshotInsertAllowed(db, id, row)
    case UpdateSnapshot(id, _) => id !in db.snapshots
    case DeleteSnapshot(id) => id !in db.snapshots
    case InsertStaged(key, _) => key !in db.staged && IsOpen(db, key.owner)
    case UpdateStaged(key, to, _) =>
      key in db.staged ==> IsOpen(db, key.owner) && IsOpen(db, to.owner) && (to == key || to !in db.staged)
    case DeleteStaged(key) => key in db.staged ==> IsOpen(db, key.owner)
    case InsertRecord(key, _) => RecordInsertAllowed(db, key)
    case UpdateRecord(key, _) => key !in db.records
    case DeleteRecord(key) => key !in db.records
  }

  // ---- The effects ----

  function WithoutOwner(rows: map<Key, string>, owners: set<Id>): map<Key, string> {
    map key | key in rows && key.owner !in owners :: rows[key]
  }

  function BuildsOf(db: Database, repository: Id): set<Id> {
    set b | b in db.builds && db.builds[b].repository == repository
  }

  /** Statements that match no row change nothing; deletes cascade. */
  function Apply(db: Database, st: Statement): Database {
    match st
    case InsertRepository(id, row) => db.(repositories := db.repositories[id := row])
    case UpdateRepository(id, row) => if id in db.repositories then db.(repositories := db.repositories[id := row]) else db
    case DeleteRepository(id) =>
      if id !in db.repositories then db
      else db.(repositories := db.repositories - {id}, builds := db.builds - BuildsOf(db, id),
               staged := WithoutOwner(db.staged, BuildsOf(db, id)))
    case InsertBuild(id, row) => db.(builds := db.builds[id := row])
    case UpdateBuild(id, row) => if id in db.builds then db.(builds := db.builds[id := row]) else db
    case DeleteBuild(id) => db.(builds := db.builds - {id}, staged := WithoutOwner(db.staged, {id}))
    case InsertSnapshot(id, row) => db.(order := db.order + [id], snapshots := db.snapshots[id := row])
    case InsertStaged(key, json) => db.(staged := db.staged[key := json])
    case UpdateStaged(key, to, json) => if key in db.staged then db.(staged := (db.staged - {key})[to := json]) else db
    case DeleteStaged(key) => db.(staged := db.staged - {key})
    case InsertRecord(key, json) => db.(records := db.records[key := json])
    case _ => db
  }

  // ---- What a statement shows ----

  function At<K, V>(rows: map<K, V>, key: K): Option<V> {
    if key in rows then Some(rows[key]) else None
  }

  /** One row is written, if it may be; the table holds every other row as before. */
  ghost predicate Writes<K(!new), V>(rows: map<K, V>, key: K, row: V, now: map<K, V>) {
    forall k :: At(now, k) == if k == key then Some(row) else At(rows, k)
  }

  ghost predicate Replaces<K(!new), V>(rows: map<K, V>, key: K, row: V, now: map<K, V>) {
    if key in rows then Writes(rows, key, row, now) else now == rows
  }

  ghost predicate Removes<K(!new), V>(rows: map<K, V>, gone: set<K>, now: map<K, V>) {
    forall k :: At(now, k) == if k in gone then None else At(rows, k)
  }

  /** Staged rows go with their builds. */
  ghost predicate Cascades(db: Database, gone: set<Id>, d: Database) {
    && Removes(db.builds, gone, d.builds)
    && forall key :: At(d.staged, key) == if key.owner in gone then None else At(db.staged, key)
  }

  /** The row under `key` becomes the one under `to`, with other contents. */
  ghost predicate Moves(rows: map<Key, string>, key: Key, to: Key, json: string, now: map<Key, string>) {
    forall k :: At(now, k) == if k == to then Some(json) else if k == key then None else At(rows, k)
  }

  /** What SQL says a statement does to the tables, row by row; no guard is
      asked, but a row is not inserted over another. */
  ghost predicate HasEffect(db: Database, st: Statement, d: Database) {
    match st
    case InsertRepository(id, row) =>
      id !in db.repositories && Writes(db.repositories, id, row, d.repositories) && d == db.(repositories := d.repositories)
    case UpdateRepository(id, row) =>
      Replaces(db.repositories, id, row, d.repositories) && d == db.(repositories := d.repositories)
    case DeleteRepository(id) =>
      && Removes(db.repositories, {id}, d.repositories)
      && (if id in db.repositories then Cascades(db, BuildsOf(db, id), d) else d.builds == db.builds && d.staged == db.staged)
      && d == db.(repositories := d.repositories, builds := d.builds, staged := d.staged)
    case InsertBuild(id, row) =>
      id !in db.builds && Writes(db.builds, id, row, d.builds) && d == db.(builds := d.builds)
    case UpdateBuild(id, row) => Replaces(db.builds, id, row, d.builds) && d == db.(builds := d.builds)
    case DeleteBuild(id) => Cascades(db, {id}, d) && d == db.(builds := d.builds, staged := d.staged)
    case InsertSnapshot(id, row) =>
      && id !in db.snapshots && Writes(db.snapshots, id, row, d.snapshots) && d.order == db.order + [id]
      && d == db.(snapshots := d.snapshots, order := d.order)
    case UpdateSnapshot(id, row) => Replaces(db.snapshots, id, row, d.snapshots) && d == db.(snapshots := d.snapshots)
    case DeleteSnapshot(id) =>
      && Removes(db.snapshots, {id}, d.snapshots)
      && (if id in db.snapshots then id !in d.order else d.order == db.order)
      && d == db.(snapshots := d.snapshots, order := d.order)
    case InsertStaged(key, json) =>
      key !in db.staged && Writes(db.staged, key, json, d.staged) && d == db.(staged := d.staged)
    case UpdateStaged(key, to, json) =>
      && (if key in db.staged then (to == key || to !in db.staged) && Moves(db.staged, key, to, json, d.staged)
          else d.staged == db.staged)
      && d == db.(staged := d.staged)
    case DeleteStaged(key) => Removes(db.staged, {key}, d.staged) && d == db.(staged := d.staged)
    case InsertRecord(key, json) =>
      key !in db.records && Writes(db.records, key, json, d.records) && d == db.(records := d.records)
    case UpdateRecord(key, json) => Replaces(db.records, key, json, d.records) && d == db.(records := d.records)
    case DeleteRecord(key) => Removes(db.records, {key}, d.records) && d == db.(records := d.records)
  }

  lemma SameRows<K, V>(a: map<K, V>, b: map<K, V>)
    requires forall k :: At(a, k) == At(b, k)
    ensures a == b
  {
    forall k ensures (k in a <==> k in b) && (k in a ==> a[k] == b[k]) {
      assert At(a, k) == At(b, k);
    }
  }

  lemma DeletesHaveEffect(db: Database, st: Statement)
    requires Allowed(db, st) && (st.DeleteRepository? || st.DeleteBuild?)
    ensures HasEffect(db, st, Apply(db, st))
  {
  }

  lemma ParentsHaveEffect(db: Database, st: Statement)
    requires Allowed(db, st)
    requires st.InsertRepository? || st.UpdateRepository? || st.InsertBuild? || st.UpdateBuild? || st.InsertSnapshot?
    ensures HasEffect(db, st, Apply(db, st))
  {
  }

  lemma RowsHaveEffect(db: Database, st: Statement)
    requires Allowed(db, st) && IsRowStatement(st)
    ensures HasEffect(db, st, Apply(db, st))
  {
  }

  /** An admitted statement does what SQL says. */
  lemma StatementHasEffect(db: Database, st: Statement)
    requires Allowed(db, st)
    ensures HasEffect(db, st, Apply(db, st))
  {
    if IsRowStatement(st) {
      RowsHaveEffect(db, st);
    } else if st.DeleteRepository? || st.DeleteBuild? {
      DeletesHaveEffect(db, st);
    } else {
      ParentsHaveEffect(db, st);
    }
  }

  // ---- What every statement keeps ----

  /** The snapshot table: each row once, after its parent, as its build says. */
  ghost predicate SnapshotsInv(db: Database) {
    && (forall s :: s in db.snapshots <==> s in db.order)
    && (forall i, j :: 0 <= i < j < |db.order| ==> db.order[i] != db.order[j])
    && (forall i :: 0 <= i < |db.order| ==> ParentIsEarlier(db, i))
  }

  predicate ParentIsEarlier(db: Database, i: nat) {
    i < |db.order| && db.order[i] in db.snapshots &&
    var parent := db.snapshots[db.order[i]].parent;
    parent.Some? ==> parent.value in db.order[..i]
  }

  ghost predicate OwnershipInv(db: Database) {
    && (forall s :: s in db.snapshots ==>
          && db.snapshots[s].build in db.builds
          && db.builds[db.snapshots[s].build].repository == db.snapshots[s].repository
          && db.builds[db.snapshots[s].build].base == db.snapshots[s].parent)
    && (forall s, t :: s in db.snapshots && t in db.snapshots && db.snapshots[s].build == db.snapshots[t].build ==> s == t)
  }

  ghost predicate BuildsInv(db: Database) {
    forall b :: b in db.builds ==>
      && BuildFits(db, db.builds[b])
      && (db.builds[b].committed.Some? ==> Owns(db, b, db.builds[b].committed.value))
  }

  /** Closed builds hold no staged rows; records have their snapshot. */
  ghost predicate RowsInv(db: Database) {
    && (forall key :: key in db.staged ==> IsOpen(db, key.owner))
    && (forall key :: key in db.records ==> key.owner in db.snapshots)
  }

  /** A published snapshot is the one its committed build names. */
  ghost predicate PointersInv(db: Database) {
    forall r :: r in db.repositories && db.repositories[r].current.Some? ==>
      var s := db.repositories[r].current.value;
      && SnapshotOf(db, s, r) && db.snapshots[s].build in db.builds
      && db.builds[db.snapshots[s].build].state.Committed?
      && db.builds[db.snapshots[s].build].committed == Some(s)
      && db.repositories[r].affinity == Some(r)
  }

  ghost predicate Inv(db: Database) {
    SnapshotsInv(db) && OwnershipInv(db) && BuildsInv(db) && RowsInv(db) && PointersInv(db)
  }

  lemma SnapshotsFrame(db: Database, d: Database)
    requires SnapshotsInv(db) && d.snapshots == db.snapshots && d.order == db.order
    ensures SnapshotsInv(d)
  {
    forall i | 0 <= i < |d.order| ensures ParentIsEarlier(d, i) {
      assert ParentIsEarlier(db, i);
    }
  }

  lemma OwnershipFrame(db: Database, d: Database)
    requires OwnershipInv(db) && d.snapshots == db.snapshots && d.builds == db.builds
    ensures OwnershipInv(d)
  {
  }

  lemma BuildsFrame(db: Database, d: Database)
    requires BuildsInv(db) && d.snapshots == db.snapshots && d.builds == db.builds
    requires db.repositories.Keys <= d.repositories.Keys
    ensures BuildsInv(d)
  {
  }

  lemma RowsFrame(db: Database, d: Database)
    requires RowsInv(db) && d.snapshots == db.snapshots && d.builds == db.builds && d.staged == db.staged && d.records == db.records
    ensures RowsInv(d)
  {
  }

  lemma PointersFrame(db: Database, d: Database)
    requires PointersInv(db) && d.snapshots == db.snapshots && d.builds == db.builds && d.repositories == db.repositories
    ensures PointersInv(d)
  {
  }

  lemma PointersAfterRepository(db: Database, st: Statement)
    requires PointersInv(db) && Allowed(db, st) && (st.InsertRepository? || st.UpdateRepository?)
    ensures PointersInv(Apply(db, st))
  {
  }

  lemma RepositoryStatementsKeep(db: Database, st: Statement)
    requires Inv(db) && Allowed(db, st) && (st.InsertRepository? || st.UpdateRepository?)
    ensures Inv(Apply(db, st))
  {
    var d := Apply(db, st);
    SnapshotsFrame(db, d);
    OwnershipFrame(db, d);
    BuildsFrame(db, d);
    RowsFrame(db, d);
    PointersAfterRepository(db, st);
  }

  lemma OwnershipAfterDelete(db: Database, st: Statement)
    requires OwnershipInv(db) && Allowed(db, st) && st.DeleteRepository?
    ensures OwnershipInv(Apply(db, st))
  {
  }

  lemma BuildsAfterDelete(db: Database, st: Statement)
    requires BuildsInv(db) && Allowed(db, st) && st.DeleteRepository?
    ensures BuildsInv(Apply(db, st))
  {
  }

  lemma PointersAfterDelete(db: Database, st: Statement)
    requires PointersInv(db) && Allowed(db, st) && st.DeleteRepository?
    ensures PointersInv(Apply(db, st))
  {
  }

  lemma DeleteRepositoryKeeps(db: Database, st: Statement)
    requires Inv(db) && Allowed(db, st) && st.DeleteRepository?
    ensures Inv(Apply(db, st))
  {
    var d := Apply(db, st);
    SnapshotsFrame(db, d);
    OwnershipAfterDelete(db, st);
    BuildsAfterDelete(db, st);
    PointersAfterDelete(db, st);
    assert RowsInv(d) by {
      forall key | key in d.staged ensures IsOpen(d, key.owner) {
        assert IsOpen(db, key.owner);
      }
    }
  }

  lemma InsertBuildKeeps(db: Database, st: Statement)
    requires Inv(db) && Allowed(db, st) && st.InsertBuild?
    ensures Inv(Apply(db, st))
  {
    var d := Apply(db, st);
    SnapshotsFrame(db, d);
    assert BuildsInv(d) by {
      forall b | b in db.builds ensures BuildFits(d, d.builds[b]) {
        assert BuildFits(db, db.builds[b]);
      }
    }
    assert RowsInv(d) by {
      forall key | key in d.staged ensures IsOpen(d, key.owner) {
        assert IsOpen(db, key.owner);
      }
    }
  }

  lemma OwnershipAfterUpdate(db: Database, st: Statement)
    requires OwnershipInv(db) && Allowed(db, st) && st.UpdateBuild?
    ensures OwnershipInv(Apply(db, st))
  {
  }

  lemma BuildsAfterUpdate(db: Database, st: Statement)
    requires BuildsInv(db) && Allowed(db, st) && st.UpdateBuild?
    ensures BuildsInv(Apply(db, st))
  {
  }

  lemma RowsAfterUpdate(db: Database, st: Statement)
    requires RowsInv(db) && Allowed(db, st) && st.UpdateBuild?
    ensures RowsInv(Apply(db, st))
  {
  }

  lemma PointersAfterUpdate(db: Database, st: Statement)
    requires PointersInv(db) && Allowed(db, st) && st.UpdateBuild?
    ensures PointersInv(Apply(db, st))
  {
  }

  lemma UpdateBuildKeeps(db: Database, st: Statement)
    requires Inv(db) && Allowed(db, st) && st.UpdateBuild?
    ensures Inv(Apply(db, st))
  {
    SnapshotsFrame(db, Apply(db, st));
    OwnershipAfterUpdate(db, st);
    BuildsAfterUpdate(db, st);
    RowsAfterUpdate(db, st);
    PointersAfterUpdate(db, st);
  }

  lemma DeleteBuildKeeps(db: Database, st: Statement)
    requires Inv(db) && Allowed(db, st) && st.DeleteBuild?
    ensures Inv(Apply(db, st))
  {
    var d := Apply(db, st);
    SnapshotsFrame(db, d);
    forall b | b in d.builds ensures BuildFits(d, d.builds[b]) {
      assert BuildFits(db, db.builds[b]);
    }
    forall key | key in d.staged ensures IsOpen(d, key.owner) {
      assert IsOpen(db, key.owner);
    }
  }

  lemma AppendKeepsOrder(db: Database, d: Database, id: Id, row: Snapshot)
    requires SnapshotsInv(db) && id !in db.snapshots && (row.parent.Some? ==> row.parent.value in db.snapshots)
    requires d.order == db.order + [id] && d.snapshots == db.snapshots[id := row]
    ensures SnapshotsInv(d)
  {
    assert forall x :: x in d.order <==> x in db.order || x == id;
    forall i | 0 <= i < |d.order| ensures ParentIsEarlier(d, i) {
      if i < |db.order| {
        assert ParentIsEarlier(db, i) && db.order[i] in db.order;
        assert d.order[..i] == db.order[..i];
      } else {
        assert d.order[..i] == db.order;
      }
    }
  }

  lemma SnapshotsAfterInsert(db: Database, st: Statement)
    requires Inv(db) && Allowed(db, st) && st.InsertSnapshot?
    ensures SnapshotsInv(Apply(db, st))
  {
    assert BuildFits(db, db.builds[st.snapshot.build]);
    AppendKeepsOrder(db, Apply(db, st), st.id, st.snapshot);
  }

  lemma OwnershipAfterInsert(db: Database, st: Statement)
    requires Inv(db) && Allowed(db, st) && st.InsertSnapshot?
    ensures OwnershipInv(Apply(db, st))
  {
  }

  lemma OthersAfterInsert(db: Database, st: Statement)
    requires Inv(db) && Allowed(db, st) && st.InsertSnapshot?
    ensures BuildsInv(Apply(db, st)) && RowsInv(Apply(db, st)) && PointersInv(Apply(db, st))
  {
    var d := Apply(db, st);
    forall b | b in d.builds ensures BuildFits(d, d.builds[b]) {
      assert BuildFits(db, db.builds[b]);
    }
    forall key | key in d.staged ensures IsOpen(d, key.owner) {
      assert IsOpen(db, key.owner);
    }
  }

  lemma InsertSnapshotKeeps(db: Database, st: Statement)
    requires Inv(db) && Allowed(db, st) && st.InsertSnapshot?
    ensures Inv(Apply(db, st))
  {
    SnapshotsAfterInsert(db, st);
    OwnershipAfterInsert(db, st);
    OthersAfterInsert(db, st);
  }

  predicate IsRowStatement(st: Statement) {
    st.InsertStaged? || st.UpdateStaged? || st.DeleteStaged? || st.InsertRecord? || st.UpdateRecord? || st.DeleteRecord?
    || st.UpdateSnapshot? || st.DeleteSnapshot?
  }

  lemma RowsAfterRow(db: Database, st: Statement)
    requires RowsInv(db) && Allowed(db, st) && IsRowStatement(st)
    ensures RowsInv(Apply(db, st))
  {
  }

  lemma RowStatementsKeep(db: Database, st: Statement)
    requires Inv(db) && Allowed(db, st) && IsRowStatement(st)
    ensures Inv(Apply(db, st))
  {
    var d := Apply(db, st);
    SnapshotsFrame(db, d);
    OwnershipFrame(db, d);
    BuildsFrame(db, d);
    PointersFrame(db, d);
    RowsAfterRow(db, st);
  }

  lemma StatementKeepsInv(db: Database, st: Statement)
    requires Inv(db) && Allowed(db, st)
    ensures Inv(Apply(db, st))
  {
    match st {
      case InsertRepository(_, _) => RepositoryStatementsKeep(db, st);
      case UpdateRepository(_, _) => RepositoryStatementsKeep(db, st);
      case DeleteRepository(_) => DeleteRepositoryKeeps(db, st);
      case InsertBuild(_, _) => InsertBuildKeeps(db, st);
      case UpdateBuild(_, _) => UpdateBuildKeeps(db, st);
      case DeleteBuild(_) => DeleteBuildKeeps(db, st);
      case InsertSnapshot(_, _) => InsertSnapshotKeeps(db, st);
      case _ => RowStatementsKeep(db, st);
    }
  }

  // ---- What every statement leaves alone ----

  function Current(db: Database, repository: Id): Option<Id> {
    if repository in db.repositories then db.repositories[repository].current else None
  }

  predicate IsClosed(db: Database, build: Id) {
    build in db.builds && !db.builds[build].state.Open?
  }

  /** The record's snapshot belongs to a closed build. */
  predicate Sealed(db: Database, key: Key) {
    key.owner in db.snapshots && IsClosed(db, db.snapshots[key.owner].build)
  }

  ghost predicate SnapshotsStay(db: Database, d: Database) {
    && db.order <= d.order
    && forall s :: s in db.snapshots ==> s in d.snapshots && d.snapshots[s] == db.snapshots[s]
  }

  ghost predicate ClosedStay(db: Database, d: Database) {
    && (forall b :: IsClosed(db, b) ==> b in d.builds && d.builds[b] == db.builds[b])
    && (forall key :: Sealed(db, key) ==> (key in d.records <==> key in db.records))
    && (forall key :: Sealed(db, key) && key in db.records ==> d.records[key] == db.records[key])
  }

  /** A current pointer stays or moves to a child of the snapshot it names. */
  predicate Advances(db: Database, d: Database, repository: Id) {
    var before, now := Current(db, repository), Current(d, repository);
    now == before || (now.Some? && now.value in db.snapshots && db.snapshots[now.value].parent == before)
  }

  lemma StatementLeavesSnapshots(db: Database, st: Statement)
    requires Allowed(db, st)
    ensures SnapshotsStay(db, Apply(db, st))
  {
  }

  lemma StatementLeavesClosedBuilds(db: Database, st: Statement, b: Id)
    requires Allowed(db, st) && IsClosed(db, b)
    ensures b in Apply(db, st).builds && Apply(db, st).builds[b] == db.builds[b]
  {
  }

  lemma StatementLeavesSealed(db: Database, st: Statement, key: Key)
    requires Allowed(db, st) && Sealed(db, key)
    ensures key in Apply(db, st).records <==> key in db.records
    ensures key in db.records ==> Apply(db, st).records[key] == db.records[key]
  {
  }

  lemma StatementLeavesClosed(db: Database, st: Statement)
    requires Allowed(db, st)
    ensures ClosedStay(db, Apply(db, st))
  {
    var d := Apply(db, st);
    forall b | IsClosed(db, b) ensures b in d.builds && d.builds[b] == db.builds[b] {
      StatementLeavesClosedBuilds(db, st, b);
    }
    forall key | Sealed(db, key)
      ensures (key in d.records <==> key in db.records) && (key in db.records ==> d.records[key] == db.records[key])
    {
      StatementLeavesSealed(db, st, key);
    }
  }

  lemma StatementAdvances(db: Database, st: Statement, repository: Id)
    requires Inv(db) && Allowed(db, st)
    ensures Advances(db, Apply(db, st), repository)
  {
  }

  /** Commits compare the pointer with the build's base. */
  lemma StatementCommits(db: Database, st: Statement, b: Id)
    requires Allowed(db, st) && IsOpen(db, b) && b in Apply(db, st).builds && Apply(db, st).builds[b].state.Committed?
    ensures var row := Apply(db, st).builds[b];
            row.base == db.builds[b].base == Current(db, row.repository)
  {
  }

  // ---- Runs ----

  const EMPTY := Database(map[], map[], [], map[], map[], map[])

  ghost predicate Step(db: Database, d: Database) {
    exists st :: Allowed(db, st) && d == Apply(db, st)
  }

  ghost predicate StepAt(run: seq<Database>, k: nat) {
    0 < k < |run| && Step(run[k - 1], run[k])
  }

  ghost predicate Run(run: seq<Database>) {
    run != [] && run[0] == EMPTY && forall k :: 0 < k < |run| ==> StepAt(run, k)
  }

  lemma {:induction false} RunKeepsInv(run: seq<Database>, k: nat)
    requires Run(run) && k < |run|
    ensures Inv(run[k])
  {
    if k > 0 {
      RunKeepsInv(run, k - 1);
      assert StepAt(run, k);
      var st :| Allowed(run[k - 1], st) && run[k] == Apply(run[k - 1], st);
      StatementKeepsInv(run[k - 1], st);
    }
  }

  /** Closed builds hold no staged rows, and every current pointer names the
      committed snapshot of its build, in every state of every run. */
  lemma ReachableStatesAreSound(run: seq<Database>, k: nat)
    requires Run(run) && k < |run|
    ensures forall key :: key in run[k].staged ==> IsOpen(run[k], key.owner)
    ensures PointersInv(run[k])
  {
    RunKeepsInv(run, k);
  }

  /** Snapshots never change; closed builds and their records neither. */
  lemma {:induction false} PublishedStateIsImmutable(run: seq<Database>, j: nat, k: nat)
    requires Run(run) && j <= k < |run|
    ensures SnapshotsStay(run[j], run[k]) && ClosedStay(run[j], run[k])
    decreases k
  {
    if j < k {
      PublishedStateIsImmutable(run, j, k - 1);
      RunKeepsInv(run, k - 1);
      assert StepAt(run, k);
      var st :| Allowed(run[k - 1], st) && run[k] == Apply(run[k - 1], st);
      StatementLeavesSnapshots(run[k - 1], st);
      StatementLeavesClosed(run[k - 1], st);
      StayingComposes(run[j], run[k - 1], run[k]);
    }
  }

  lemma StayingComposes(a: Database, b: Database, c: Database)
    requires SnapshotsStay(a, b) && SnapshotsStay(b, c) && ClosedStay(a, b) && ClosedStay(b, c)
    ensures SnapshotsStay(a, c) && ClosedStay(a, c)
  {
  }

  // ---- Lineage ----

  function IndexOf(order: seq<Id>, s: Id): (i: nat)
    requires s in order
    ensures i < |order| && order[i] == s
  {
    if order[|order| - 1] == s then |order| - 1 else
      assert order == order[..|order| - 1] + [order[|order| - 1]];
      IndexOf(order[..|order| - 1], s)
  }

  lemma IndexIs(order: seq<Id>, i: nat)
    requires i < |order| && forall j, k :: 0 <= j < k < |order| ==> order[j] != order[k]
    ensures order[i] in order && IndexOf(order, order[i]) == i
  {
  }

  lemma ParentIsOlder(db: Database, s: Id)
    requires SnapshotsInv(db) && s in db.snapshots && db.snapshots[s].parent.Some?
    ensures var p := db.snapshots[s].parent.value;
            p in db.snapshots && s in db.order && p in db.order && IndexOf(db.order, p) < IndexOf(db.order, s)
  {
    var i := IndexOf(db.order, s);
    var p := db.snapshots[s].parent.value;
    assert ParentIsEarlier(db, i);
    var j :| 0 <= j < i && db.order[..i][j] == p;
    IndexIs(db.order, j);
  }

  /** A parent chain from NULL to the snapshot. */
  predicate IsLineage(db: Database, s: Option<Id>, line: seq<Id>) {
    && (forall x :: x in line ==> x in db.snapshots)
    && (s == if line == [] then None else Some(line[|line| - 1]))
    && (line != [] ==> db.snapshots[line[0]].parent == None)
    && (forall i :: 0 < i < |line| ==> db.snapshots[line[i]].parent == Some(line[i - 1]))
  }

  lemma {:induction false} LineageAges(db: Database, s: Option<Id>, line: seq<Id>, i: nat, j: nat)
    requires SnapshotsInv(db) && IsLineage(db, s, line) && i < j < |line|
    ensures line[i] in db.order && line[j] in db.order && IndexOf(db.order, line[i]) < IndexOf(db.order, line[j])
    decreases j
  {
    assert db.snapshots[line[j]].parent == Some(line[j - 1]);
    ParentIsOlder(db, line[j]);
    if i < j - 1 {
      LineageAges(db, s, line, i, j - 1);
    }
  }

  lemma LineageIsDistinct(db: Database, s: Option<Id>, line: seq<Id>)
    requires SnapshotsInv(db) && IsLineage(db, s, line)
    ensures forall i, j :: 0 <= i < j < |line| ==> line[i] != line[j]
  {
    forall i, j | 0 <= i < j < |line| ensures line[i] != line[j] {
      LineageAges(db, s, line, i, j);
    }
  }

  /** The successive values of a repository's current pointer. */
  ghost function History(run: seq<Database>, k: nat, repository: Id): seq<Id>
    requires k < |run|
  {
    if k == 0 then []
    else
      var before, now := Current(run[k - 1], repository), Current(run[k], repository);
      History(run, k - 1, repository) + if now != before && now.Some? then [now.value] else []
  }

  predicate HasCurrent(db: Database, repository: Id) {
    Current(db, repository).Some? ==> Current(db, repository).value in db.snapshots
  }

  lemma CurrentExists(db: Database, repository: Id)
    requires PointersInv(db)
    ensures HasCurrent(db, repository)
  {
  }

  /** What a step of a run does to one repository's pointer. */
  ghost predicate PointerMoves(db: Database, d: Database, repository: Id) {
    SnapshotsStay(db, d) && Advances(db, d, repository) && HasCurrent(d, repository)
  }

  lemma ReachableHasCurrent(run: seq<Database>, k: nat, repository: Id)
    requires Run(run) && k < |run|
    ensures HasCurrent(run[k], repository)
  {
    RunKeepsInv(run, k);
    CurrentExists(run[k], repository);
  }

  lemma StepFacts(run: seq<Database>, k: nat, repository: Id)
    requires Run(run) && 0 < k < |run|
    ensures PointerMoves(run[k - 1], run[k], repository)
  {
    ReachableHasCurrent(run, k, repository);
    assert StepAt(run, k);
    RunKeepsInv(run, k - 1);
    StepLeaves(run[k - 1], run[k], repository);
  }

  lemma StepLeaves(db: Database, d: Database, repository: Id)
    requires Inv(db) && Step(db, d)
    ensures SnapshotsStay(db, d) && Advances(db, d, repository)
  {
    var st :| Allowed(db, st) && d == Apply(db, st);
    StatementLeavesSnapshots(db, st);
    StatementAdvances(db, st, repository);
  }

  lemma LineageMoves(db: Database, d: Database, repository: Id, line: seq<Id>)
    requires SnapshotsStay(db, d) && Advances(db, d, repository) && IsLineage(db, Current(db, repository), line)
    ensures var before, now := Current(db, repository), Current(d, repository);
            IsLineage(d, now, line + if now != before && now.Some? then [now.value] else [])
  {
  }

  /** The pointers a repository has had are, in order, a parent chain from NULL
      to the one it has: each publication's parent is the one it replaces. */
  lemma {:induction false} HistoryIsTheLineage(run: seq<Database>, k: nat, repository: Id)
    requires Run(run) && k < |run|
    ensures IsLineage(run[k], Current(run[k], repository), History(run, k, repository))
  {
    if k > 0 {
      HistoryIsTheLineage(run, k - 1, repository);
      StepFacts(run, k, repository);
      LineageMoves(run[k - 1], run[k], repository, History(run, k - 1, repository));
    }
  }

  ghost predicate Distinct(line: seq<Id>) {
    forall i, j :: 0 <= i < j < |line| ==> line[i] != line[j]
  }

  lemma NoSnapshotIsCurrentTwice(run: seq<Database>, k: nat, repository: Id)
    requires Run(run) && k < |run|
    ensures Distinct(History(run, k, repository))
  {
    HistoryIsTheLineage(run, k, repository);
    RunKeepsInv(run, k);
    LineageIsDistinct(run[k], Current(run[k], repository), History(run, k, repository));
  }

  lemma {:induction false} HistoryGrows(run: seq<Database>, j: nat, k: nat, repository: Id)
    requires Run(run) && j <= k < |run|
    ensures History(run, j, repository) <= History(run, k, repository)
    ensures |History(run, j, repository)| == |History(run, k, repository)| ==>
              forall m :: j <= m <= k ==> Current(run[m], repository) == Current(run[j], repository)
    decreases k
  {
    if j < k {
      HistoryGrows(run, j, k - 1, repository);
      StepFacts(run, k, repository);
    }
  }

  lemma SameEndSameLength(short: seq<Id>, long: seq<Id>)
    requires short <= long && Distinct(long) && (short == [] <==> long == [])
    requires short != [] ==> short[|short| - 1] == long[|long| - 1]
    ensures |short| == |long|
  {
  }

  /** A pointer value that has been left never comes back. */
  lemma PointersNeverReturn(run: seq<Database>, i: nat, k: nat, repository: Id)
    requires Run(run) && i <= k < |run| && Current(run[i], repository) == Current(run[k], repository)
    ensures forall m :: i <= m <= k ==> Current(run[m], repository) == Current(run[i], repository)
  {
    HistoryIsTheLineage(run, i, repository);
    HistoryIsTheLineage(run, k, repository);
    NoSnapshotIsCurrentTwice(run, k, repository);
    HistoryGrows(run, i, k, repository);
    SameEndSameLength(History(run, i, repository), History(run, k, repository));
  }

  /** A build commits only if the pointer it was based on has been current at
      every moment since: a stale build never commits. */
  lemma CommitMeansUndisturbed(run: seq<Database>, i: nat, k: nat, b: Id)
    requires Run(run) && i < k < |run| && IsOpen(run[k - 1], b) && b in run[k].builds && run[k].builds[b].state.Committed?
    requires Current(run[i], run[k].builds[b].repository) == run[k].builds[b].base
    ensures forall m :: i <= m < k ==> Current(run[m], run[k].builds[b].repository) == run[k].builds[b].base
  {
    assert StepAt(run, k);
    var st :| Allowed(run[k - 1], st) && run[k] == Apply(run[k - 1], st);
    StatementCommits(run[k - 1], st, b);
    PointersNeverReturn(run, i, k - 1, run[k].builds[b].repository);
  }

  /** Nor does a stale publication, committed in time, ever become current. */
  lemma PublicationMeansUndisturbed(run: seq<Database>, i: nat, k: nat, repository: Id)
    requires Run(run) && i < k < |run|
    requires Current(run[k], repository) != Current(run[k - 1], repository)
    ensures Current(run[k], repository).Some? && HasCurrent(run[k], repository)
    ensures var parent := run[k].snapshots[Current(run[k], repository).value].parent;
            Current(run[i], repository) == parent ==> forall m :: i <= m < k ==> Current(run[m], repository) == parent
  {
    StepFacts(run, k, repository);
    if Current(run[i], repository) == Current(run[k - 1], repository) {
      PointersNeverReturn(run, i, k - 1, repository);
    }
  }

  // ---- The statements are admitted when they should be ----

  function Begin(db: Database, repository: Id, b: Id): Statement {
    InsertBuild(b, Build(repository, Current(db, repository), Open, None))
  }

  function Record(db: Database, repository: Id, b: Id, s: Id, content: string): Statement {
    InsertSnapshot(s, Snapshot(repository, Current(db, repository), b, content))
  }

  function Commit(db: Database, repository: Id, b: Id, s: Id): Statement {
    UpdateBuild(b, Build(repository, Current(db, repository), Committed, Some(s)))
  }

  function Publish(repository: Id, s: Id): Statement {
    UpdateRepository(repository, Repository(Some(repository), Some(s)))
  }

  /** Undisturbed, a build based on the current snapshot always gets through. */
  lemma PublicationCycleIsAdmitted(db: Database, repository: Id, b: Id, s: Id, content: string)
    requires Inv(db) && repository in db.repositories && b !in db.builds && s !in db.snapshots
    requires db.repositories[repository].affinity in {None, Some(repository)}
    ensures var one := Apply(db, Begin(db, repository, b));
            var two := Apply(one, Record(db, repository, b, s, content));
            var three := Apply(two, Commit(db, repository, b, s));
            && Allowed(db, Begin(db, repository, b)) && Allowed(one, Record(db, repository, b, s, content))
            && Allowed(two, Commit(db, repository, b, s)) && Allowed(three, Publish(repository, s))
            && Current(Apply(three, Publish(repository, s)), repository) == Some(s)
  {
    CurrentExists(db, repository);
    CycleReachesCommit(db, repository, b, s, content);
  }

  lemma CycleReachesCommit(db: Database, repository: Id, b: Id, s: Id, content: string)
    requires Inv(db) && repository in db.repositories && b !in db.builds && s !in db.snapshots
    ensures var one := Apply(db, Begin(db, repository, b));
            var two := Apply(one, Record(db, repository, b, s, content));
            && Allowed(db, Begin(db, repository, b)) && Allowed(one, Record(db, repository, b, s, content))
            && Allowed(two, Commit(db, repository, b, s))
  {
    var one := Apply(db, Begin(db, repository, b));
    assert forall t :: t in one.snapshots ==> one.snapshots[t].build != b;
    assert forall key :: key in one.staged ==> IsOpen(db, key.owner);
  }

  /** A connection: statements change the tables in place, or are rejected whole. */
  class Connection {
    var db: Database

    constructor ()
      ensures db == EMPTY && Inv(db)
    {
      db := EMPTY;
    }

    method Execute(st: Statement) returns (accepted: bool)
      requires Inv(db)
      modifies this
      ensures Inv(db) && accepted == Allowed(old(db), st)
      ensures db == if accepted then Apply(old(db), st) else old(db)
      ensures accepted ==> HasEffect(old(db), st, db)
      ensures SnapshotsStay(old(db), db) && ClosedStay(old(db), db)
      ensures forall r :: Advances(old(db), db, r)
    {
      accepted := Allowed(db, st);
      if accepted {
        StatementKeepsInv(db, st);
        StatementHasEffect(db, st);
        StatementLeavesSnapshots(db, st);
        StatementLeavesClosed(db, st);
        forall r ensures Advances(db, Apply(db, st), r) {
          StatementAdvances(db, st, r);
        }
        db := Apply(db, st);
      }
    }
  }
}
