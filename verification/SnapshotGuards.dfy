/** The guards of the snapshot store, judged from outside: they refuse exactly
    the statements whose effect would break a rule, and a build that begins can
    be staged, closed and published, or given up. */
module SnapshotGuards {
  import opened Text
  import opened SnapshotStore

  // ---- The rules ----

  /** An affinity, once given, is kept. */
  predicate AffinityStays(db: Database, d: Database, r: Id) {
    r in db.repositories && r in d.repositories && db.repositories[r].affinity.Some? ==>
      d.repositories[r].affinity == db.repositories[r].affinity
  }

  /** A build starts open, keeps its base, and commits only while its base is current. */
  predicate BuildLawful(db: Database, d: Database, b: Id) {
    b in d.builds ==>
      if b !in db.builds then d.builds[b].state.Open?
      else
        && d.builds[b].base == db.builds[b].base
        && (IsOpen(db, b) && d.builds[b].state.Committed? ==> Current(db, d.builds[b].repository) == d.builds[b].base)
  }

  ghost predicate Lawful(db: Database, d: Database) {
    && Inv(d) && SnapshotsStay(db, d) && ClosedStay(db, d)
    && (forall r :: Advances(db, d, r) && AffinityStays(db, d, r))
    && (forall b :: BuildLawful(db, d, b))
    && (forall s :: s in d.snapshots && s !in db.snapshots ==> IsOpen(db, d.snapshots[s].build))
  }

  /** Rows that may not even be rewritten as they are. */
  predicate TouchesPublished(db: Database, st: Statement) {
    match st
    case UpdateSnapshot(id, _) => id in db.snapshots
    case DeleteSnapshot(id) => id in db.snapshots
    case UpdateRecord(key, _) => key in db.records
    case DeleteRecord(key) => key in db.records
    case UpdateBuild(id, _) => IsClosed(db, id)
    case _ => false
  }

  // ---- What is admitted is lawful ----

  lemma AdmittedKeepsAffinity(db: Database, st: Statement, r: Id)
    requires Allowed(db, st)
    ensures AffinityStays(db, Apply(db, st), r)
  {
  }

  lemma OtherBuildsStay(db: Database, st: Statement, b: Id)
    requires Allowed(db, st) && !(st.UpdateBuild? && st.id == b) && b in db.builds && b in Apply(db, st).builds
    ensures Apply(db, st).builds[b] == db.builds[b]
  {
  }

  lemma NewBuildsAreOpen(db: Database, st: Statement, b: Id)
    requires Allowed(db, st) && b !in db.builds && b in Apply(db, st).builds
    ensures Apply(db, st).builds[b].state.Open?
  {
  }

  lemma AdmittedMovesBuilds(db: Database, st: Statement, b: Id)
    requires Allowed(db, st)
    ensures BuildLawful(db, Apply(db, st), b)
  {
    if b in Apply(db, st).builds {
      if b !in db.builds {
        NewBuildsAreOpen(db, st, b);
      } else if !(st.UpdateBuild? && st.id == b) {
        OtherBuildsStay(db, st, b);
      }
    }
  }

  lemma AdmittedJoinsOpenBuilds(db: Database, st: Statement, s: Id)
    requires Allowed(db, st) && s in Apply(db, st).snapshots && s !in db.snapshots
    ensures IsOpen(db, Apply(db, st).snapshots[s].build)
  {
  }

  lemma AdmittedIsLawful(db: Database, st: Statement)
    requires Inv(db) && Allowed(db, st)
    ensures Lawful(db, Apply(db, st)) && HasEffect(db, st, Apply(db, st)) && !TouchesPublished(db, st)
  {
    StatementKeepsInv(db, st);
    StatementHasEffect(db, st);
    StatementLeavesSnapshots(db, st);
    StatementLeavesClosed(db, st);
    var d := Apply(db, st);
    forall r ensures Advances(db, d, r) && AffinityStays(db, d, r) {
      StatementAdvances(db, st, r);
      AdmittedKeepsAffinity(db, st, r);
    }
    forall b ensures BuildLawful(db, d, b) {
      AdmittedMovesBuilds(db, st, b);
    }
    forall s | s in d.snapshots && s !in db.snapshots ensures IsOpen(db, d.snapshots[s].build) {
      AdmittedJoinsOpenBuilds(db, st, s);
    }
  }

  // ---- What is lawful is admitted ----

  lemma LawfulRepositoryInsert(db: Database, st: Statement, d: Database)
    requires Inv(db) && st.InsertRepository? && HasEffect(db, st, d) && Inv(d)
    ensures Allowed(db, st)
  {
    assert At(d.repositories, st.id) == Some(st.repository);
  }

  lemma LawfulRepositoryUpdate(db: Database, st: Statement, d: Database)
    requires Inv(db) && st.UpdateRepository? && HasEffect(db, st, d) && Inv(d)
    requires Advances(db, d, st.id) && AffinityStays(db, d, st.id)
    ensures Allowed(db, st)
  {
    if st.id in db.repositories {
      assert At(d.repositories, st.id) == Some(st.repository);
      assert OwnershipInv(d) && PointersInv(d);
    }
  }

  lemma LawfulRepositoryDelete(db: Database, st: Statement, d: Database)
    requires Inv(db) && st.DeleteRepository? && HasEffect(db, st, d) && Inv(d) && ClosedStay(db, d)
    ensures Allowed(db, st)
  {
    if st.id in db.repositories {
      assert At(d.repositories, st.id) == None;
      forall s | s in db.snapshots ensures db.snapshots[s].repository != st.id {
        assert s in d.snapshots && BuildFits(d, d.builds[d.snapshots[s].build]);
      }
      forall b | b in db.builds && db.builds[b].repository == st.id ensures db.builds[b].state.Open? {
        assert b in BuildsOf(db, st.id) && At(d.builds, b) == None;
      }
    }
  }

  lemma LawfulBuildInsert(db: Database, st: Statement, d: Database)
    requires st.InsertBuild? && HasEffect(db, st, d) && Inv(d) && BuildLawful(db, d, st.id)
    ensures Allowed(db, st)
  {
    assert At(d.builds, st.id) == Some(st.build);
    assert BuildFits(d, d.builds[st.id]);
  }

  lemma LawfulBuildUpdate(db: Database, st: Statement, d: Database)
    requires Inv(db) && st.UpdateBuild? && HasEffect(db, st, d) && Inv(d) && BuildLawful(db, d, st.id)
    requires !TouchesPublished(db, st)
    ensures Allowed(db, st)
  {
    if st.id in db.builds {
      assert At(d.builds, st.id) == Some(st.build);
      assert BuildFits(d, d.builds[st.id]);
      assert st.build.committed.Some? ==> Owns(d, st.id, st.build.committed.value);
      assert forall key :: key in d.staged ==> IsOpen(d, key.owner);
      assert forall s :: s in d.snapshots ==> d.builds[d.snapshots[s].build].repository == d.snapshots[s].repository;
      assert forall s :: s in db.snapshots ==> db.builds[db.snapshots[s].build].repository == db.snapshots[s].repository;
    }
  }

  lemma LawfulBuildDelete(db: Database, st: Statement, d: Database)
    requires Inv(db) && st.DeleteBuild? && HasEffect(db, st, d) && Inv(d) && ClosedStay(db, d)
    ensures Allowed(db, st)
  {
    if st.id in db.builds {
      assert At(d.builds, st.id) == None;
    }
  }

  lemma LawfulSnapshotInsert(db: Database, st: Statement, d: Database)
    requires Inv(db) && st.InsertSnapshot? && HasEffect(db, st, d) && Inv(d) && IsOpen(db, st.snapshot.build)
    ensures Allowed(db, st)
  {
    var row := st.snapshot;
    assert At(d.snapshots, st.id) == Some(row);
    assert forall t :: t in db.snapshots ==> At(d.snapshots, t) == Some(db.snapshots[t]);
    assert BuildFits(db, db.builds[row.build]);
  }

  lemma LawfulRow(db: Database, st: Statement, d: Database)
    requires Inv(db) && IsRowStatement(st) && HasEffect(db, st, d) && Inv(d) && ClosedStay(db, d) && !TouchesPublished(db, st)
    ensures Allowed(db, st)
  {
    match st {
      case InsertStaged(key, json) => assert At(d.staged, key) == Some(json);
      case UpdateStaged(key, to, json) =>
        if key in db.staged {
          assert At(d.staged, to) == Some(json);
        }
      case InsertRecord(key, json) =>
        assert At(d.records, key) == Some(json);
        assert key.owner in d.snapshots && !Sealed(db, key);
      case _ =>
    }
  }

  lemma LawfulRepositoryStatement(db: Database, st: Statement, d: Database)
    requires st.InsertRepository? || st.UpdateRepository? || st.DeleteRepository?
    requires Inv(db) && HasEffect(db, st, d) && Lawful(db, d)
    ensures Allowed(db, st)
  {
    match st {
      case InsertRepository(_, _) => LawfulRepositoryInsert(db, st, d);
      case UpdateRepository(_, _) => LawfulRepositoryUpdate(db, st, d);
      case _ => LawfulRepositoryDelete(db, st, d);
    }
  }

  lemma LawfulBuildStatement(db: Database, st: Statement, d: Database)
    requires st.InsertBuild? || st.UpdateBuild? || st.DeleteBuild?
    requires Inv(db) && HasEffect(db, st, d) && Lawful(db, d) && !TouchesPublished(db, st)
    ensures Allowed(db, st)
  {
    match st {
      case InsertBuild(_, _) => LawfulBuildInsert(db, st, d);
      case UpdateBuild(_, _) => LawfulBuildUpdate(db, st, d);
      case _ => LawfulBuildDelete(db, st, d);
    }
  }

  lemma LawfulIsAdmitted(db: Database, st: Statement, d: Database)
    requires Inv(db) && HasEffect(db, st, d) && Lawful(db, d) && !TouchesPublished(db, st)
    ensures Allowed(db, st)
  {
    if IsRowStatement(st) {
      LawfulRow(db, st, d);
    } else if st.InsertSnapshot? {
      assert At(d.snapshots, st.id) == Some(st.snapshot);
      LawfulSnapshotInsert(db, st, d);
    } else if st.InsertBuild? || st.UpdateBuild? || st.DeleteBuild? {
      LawfulBuildStatement(db, st, d);
    } else {
      LawfulRepositoryStatement(db, st, d);
    }
  }

  /** The guards are exact: a statement is admitted if and only if it leaves
      published rows untouched and what SQL says it does is lawful. */
  lemma GuardsAreExact(db: Database, st: Statement)
    requires Inv(db)
    ensures Allowed(db, st) <==> !TouchesPublished(db, st) && exists d :: HasEffect(db, st, d) && Lawful(db, d)
  {
    if Allowed(db, st) {
      AdmittedIsLawful(db, st);
    }
    if d :| HasEffect(db, st, d) && Lawful(db, d) {
      if !TouchesPublished(db, st) {
        LawfulIsAdmitted(db, st, d);
      }
    }
  }

  lemma SameTables(d: Database, e: Database)
    requires forall k :: At(d.repositories, k) == At(e.repositories, k)
    requires forall k :: At(d.builds, k) == At(e.builds, k)
    requires forall k :: At(d.snapshots, k) == At(e.snapshots, k)
    requires forall k :: At(d.staged, k) == At(e.staged, k)
    requires forall k :: At(d.records, k) == At(e.records, k)
    requires d.order == e.order
    ensures d == e
  {
    SameRows(d.repositories, e.repositories);
    SameRows(d.builds, e.builds);
    SameRows(d.snapshots, e.snapshots);
    SameRows(d.staged, e.staged);
    SameRows(d.records, e.records);
  }

  lemma RowEffectIsUnique(db: Database, st: Statement, d: Database, e: Database)
    requires IsRowStatement(st) && Allowed(db, st) && HasEffect(db, st, d) && HasEffect(db, st, e)
    ensures d == e
  {
    SameTables(d, e);
  }

  lemma ParentEffectIsUnique(db: Database, st: Statement, d: Database, e: Database)
    requires !IsRowStatement(st) && HasEffect(db, st, d) && HasEffect(db, st, e)
    ensures d == e
  {
    SameTables(d, e);
  }

  /** And what an admitted statement does is all that SQL leaves it to do. */
  lemma EffectIsUnique(db: Database, st: Statement, d: Database, e: Database)
    requires Allowed(db, st) && HasEffect(db, st, d) && HasEffect(db, st, e)
    ensures d == e
  {
    if IsRowStatement(st) {
      RowEffectIsUnique(db, st, d, e);
    } else {
      ParentEffectIsUnique(db, st, d, e);
    }
  }

  // ---- Sequences of statements ----

  /** Every statement is admitted in turn, and they lead to `d`. */
  ghost predicate Admits(db: Database, sts: seq<Statement>, d: Database)
    decreases |sts|
  {
    if sts == [] then d == db else Allowed(db, sts[0]) && Admits(Apply(db, sts[0]), sts[1..], d)
  }

  lemma {:induction false} AdmitsThen(db: Database, a: seq<Statement>, m: Database, b: seq<Statement>, d: Database)
    requires Admits(db, a, m) && Admits(m, b, d)
    ensures Admits(db, a + b, d)
    decreases |a|
  {
    if a == [] {
      assert a + b == b;
    } else {
      AdmitsThen(Apply(db, a[0]), a[1..], m, b, d);
      assert (a + b)[1..] == a[1..] + b;
    }
  }

  lemma AdmitsOne(db: Database, st: Statement)
    requires Allowed(db, st)
    ensures Admits(db, [st], Apply(db, st))
  {
    assert [st][1..] == [];
  }

  lemma {:induction false} AdmitsKeepsInv(db: Database, sts: seq<Statement>, d: Database)
    requires Inv(db) && Admits(db, sts, d)
    ensures Inv(d)
    decreases |sts|
  {
    if sts != [] {
      StatementKeepsInv(db, sts[0]);
      AdmitsKeepsInv(Apply(db, sts[0]), sts[1..], d);
    }
  }

  datatype Row = Row(key: Key, json: string)

  ghost predicate RowsOf(rows: seq<Row>, owner: Id) {
    && (forall i :: 0 <= i < |rows| ==> rows[i].key.owner == owner)
    && (forall i, j :: 0 <= i < j < |rows| ==> rows[i].key != rows[j].key)
  }

  function Stage(rows: seq<Row>): (sts: seq<Statement>) {
    if rows == [] then [] else [InsertStaged(rows[0].key, rows[0].json)] + Stage(rows[1..])
  }

  function Unstage(rows: seq<Row>): seq<Statement> {
    if rows == [] then [] else [DeleteStaged(rows[0].key)] + Unstage(rows[1..])
  }

  function Fill(rows: seq<Row>): seq<Statement> {
    if rows == [] then [] else [InsertRecord(rows[0].key, rows[0].json)] + Fill(rows[1..])
  }

  ghost predicate Holds(table: map<Key, string>, rows: seq<Row>) {
    forall i :: 0 <= i < |rows| ==> At(table, rows[i].key) == Some(rows[i].json)
  }

  ghost predicate Names(rows: seq<Row>, key: Key) {
    exists i :: 0 <= i < |rows| && rows[i].key == key
  }

  lemma NamesFirst(rows: seq<Row>, key: Key)
    requires rows != []
    ensures Names(rows, key) <==> rows[0].key == key || Names(rows[1..], key)
  {
    if i :| 0 <= i < |rows| && rows[i].key == key && i > 0 {
      assert rows[1..][i - 1].key == key;
    }
    if Names(rows[1..], key) {
      var i :| 0 <= i < |rows[1..]| && rows[1..][i].key == key;
      assert rows[i + 1].key == key;
    }
  }

  /** The rows, and otherwise what `before` holds. */
  ghost predicate Adds(before: map<Key, string>, rows: seq<Row>, now: map<Key, string>) {
    && Holds(now, rows)
    && forall k :: !Names(rows, k) ==> At(now, k) == At(before, k)
  }

  lemma AddsFirst(before: map<Key, string>, rows: seq<Row>, now: map<Key, string>)
    requires rows != [] && (forall i, j :: 0 <= i < j < |rows| ==> rows[i].key != rows[j].key)
    requires Adds(before[rows[0].key := rows[0].json], rows[1..], now)
    ensures Adds(before, rows, now)
  {
    forall i | 0 <= i < |rows| ensures At(now, rows[i].key) == Some(rows[i].json) {
      if i > 0 {
        assert rows[1..][i - 1] == rows[i];
      }
    }
    forall k | !Names(rows, k) ensures At(now, k) == At(before, k) {
      NamesFirst(rows, k);
    }
  }

  lemma {:induction false} StageIsAdmitted(db: Database, b: Id, rows: seq<Row>) returns (d: Database)
    requires IsOpen(db, b) && RowsOf(rows, b) && forall i :: 0 <= i < |rows| ==> rows[i].key !in db.staged
    ensures Admits(db, Stage(rows), d) && d == db.(staged := d.staged) && Adds(db.staged, rows, d.staged)
    decreases |rows|
  {
    d := db;
    if rows != [] {
      assert forall i :: 0 <= i < |rows[1..]| ==> rows[1..][i] == rows[i + 1];
      d := StageIsAdmitted(Apply(db, Stage(rows)[0]), b, rows[1..]);
      AddsFirst(db.staged, rows, d.staged);
    }
  }

  lemma {:induction false} FillIsAdmitted(db: Database, s: Id, rows: seq<Row>) returns (d: Database)
    requires s in db.snapshots && IsOpen(db, db.snapshots[s].build)
    requires RowsOf(rows, s) && forall i :: 0 <= i < |rows| ==> rows[i].key !in db.records
    ensures Admits(db, Fill(rows), d) && d == db.(records := d.records) && Adds(db.records, rows, d.records)
    decreases |rows|
  {
    d := db;
    if rows != [] {
      assert forall i :: 0 <= i < |rows[1..]| ==> rows[1..][i] == rows[i + 1];
      d := FillIsAdmitted(Apply(db, Fill(rows)[0]), s, rows[1..]);
      AddsFirst(db.records, rows, d.records);
    }
  }

  lemma {:induction false} UnstageIsAdmitted(db: Database, b: Id, rows: seq<Row>) returns (d: Database)
    requires IsOpen(db, b) && RowsOf(rows, b)
    ensures Admits(db, Unstage(rows), d) && d == db.(staged := d.staged)
    ensures forall k :: At(d.staged, k) == if Names(rows, k) then None else At(db.staged, k)
    decreases |rows|
  {
    d := db;
    if rows != [] {
      assert forall i :: 0 <= i < |rows[1..]| ==> rows[1..][i] == rows[i + 1];
      d := UnstageIsAdmitted(Apply(db, Unstage(rows)[0]), b, rows[1..]);
      forall k ensures At(d.staged, k) == if Names(rows, k) then None else At(db.staged, k) {
        NamesFirst(rows, k);
      }
    }
  }

  lemma StagedAndGone(before: map<Key, string>, rows: seq<Row>, staged: map<Key, string>, now: map<Key, string>)
    requires Adds(before, rows, staged) && forall i :: 0 <= i < |rows| ==> rows[i].key !in before
    requires forall k :: At(now, k) == if Names(rows, k) then None else At(staged, k)
    ensures now == before
  {
    forall k ensures At(now, k) == At(before, k) {
      if Names(rows, k) {
        var i :| 0 <= i < |rows| && rows[i].key == k;
      }
    }
    SameRows(now, before);
  }

  // ---- A build with staging ----

  lemma StagingPartIsAdmitted(db: Database, repository: Id, b: Id, rows: seq<Row>) returns (staged: Database)
    requires Inv(db) && repository in db.repositories && b !in db.builds && RowsOf(rows, b)
    ensures Admits(db, [Begin(db, repository, b)] + Stage(rows), staged)
    ensures staged == Apply(db, Begin(db, repository, b)).(staged := staged.staged) && Adds(db.staged, rows, staged.staged)
  {
    var begin := Begin(db, repository, b);
    CurrentExists(db, repository);
    AdmitsOne(db, begin);
    var one := Apply(db, begin);
    staged := StageIsAdmitted(one, b, rows);
    AdmitsThen(db, [begin], one, Stage(rows), staged);
  }

  /** The snapshot is recorded and its records are inserted beside the staged rows. */
  lemma RecordingPartIsAdmitted(db: Database, staged: Database, repository: Id, b: Id, s: Id, content: string, records: seq<Row>)
    returns (filled: Database)
    requires Inv(db) && repository in db.repositories && b !in db.builds && s !in db.snapshots && RowsOf(records, s)
    requires staged == Apply(db, Begin(db, repository, b)).(staged := staged.staged)
    ensures Admits(staged, [Record(db, repository, b, s, content)] + Fill(records), filled)
    ensures filled == Apply(staged, Record(db, repository, b, s, content)).(records := filled.records)
    ensures Adds(db.records, records, filled.records)
  {
    var record := Record(db, repository, b, s, content);
    CycleReachesCommit(db, repository, b, s, content);
    assert Allowed(staged, record);
    AdmitsOne(staged, record);
    var two := Apply(staged, record);
    assert two.records == db.records;
    assert forall key :: key in db.records ==> key.owner in db.snapshots;
    filled := FillIsAdmitted(two, s, records);
    AdmitsThen(staged, [record], two, Fill(records), filled);
  }

  lemma ClosingPartIsAdmitted(db: Database, repository: Id, b: Id, s: Id, content: string, records: map<Key, string>)
    requires Inv(db) && repository in db.repositories && b !in db.builds && s !in db.snapshots
    requires db.repositories[repository].affinity in {None, Some(repository)}
    ensures var two := Apply(Apply(db, Begin(db, repository, b)), Record(db, repository, b, s, content)).(records := records);
            var three := Apply(two, Commit(db, repository, b, s));
            Allowed(two, Commit(db, repository, b, s)) && Allowed(three, Publish(repository, s))
  {
    PublicationCycleIsAdmitted(db, repository, b, s, content);
    var one := Apply(Apply(db, Begin(db, repository, b)), Record(db, repository, b, s, content));
    CommitIgnoresRecords(one, records, repository, b, s, Commit(db, repository, b, s));
  }

  lemma CommitIgnoresRecords(db: Database, records: map<Key, string>, repository: Id, b: Id, s: Id, commit: Statement)
    requires commit.UpdateBuild? && Allowed(db, commit) && Allowed(Apply(db, commit), Publish(repository, s))
    ensures Allowed(db.(records := records), commit)
    ensures Allowed(Apply(db.(records := records), commit), Publish(repository, s))
  {
  }

  /** What one build is to write. */
  datatype Plan = Plan(repository: Id, build: Id, snapshot: Id, content: string, rows: seq<Row>, records: seq<Row>)

  ghost predicate Fits(p: Plan, db: Database) {
    && p.repository in db.repositories && p.build !in db.builds && p.snapshot !in db.snapshots
    && db.repositories[p.repository].affinity in {None, Some(p.repository)}
    && RowsOf(p.rows, p.build) && RowsOf(p.records, p.snapshot)
  }

  function Staging(p: Plan, db: Database): seq<Statement>
    requires p.repository in db.repositories
  {
    [Begin(db, p.repository, p.build)] + Stage(p.rows)
  }

  function Publishing(p: Plan, db: Database): seq<Statement>
    requires p.repository in db.repositories
  {
    [Record(db, p.repository, p.build, p.snapshot, p.content)] + Fill(p.records)
    + (Unstage(p.rows) + [Commit(db, p.repository, p.build, p.snapshot), Publish(p.repository, p.snapshot)])
  }

  predicate Published(p: Plan, d: Database) {
    && Current(d, p.repository) == Some(p.snapshot)
    && IsClosed(d, p.build) && d.builds[p.build].committed == Some(p.snapshot)
  }

  /** The whole life of a build, whatever rows are staged and recorded: every
      statement is admitted; in the middle each staged row is there as it was
      written; at the end the staged rows are gone, the records are there, the
      build is committed and its snapshot is current. */
  lemma StagedCycleIsAdmitted(p: Plan, db: Database) returns (staged: Database, done: Database)
    requires Inv(db) && Fits(p, db)
    ensures Admits(db, Staging(p, db), staged) && Holds(staged.staged, p.rows)
    ensures Admits(staged, Publishing(p, db), done)
    ensures done.staged == db.staged && Holds(done.records, p.records) && Published(p, done)
  {
    staged := StagingPartIsAdmitted(db, p.repository, p.build, p.rows);
    var filled := RecordingPartIsAdmitted(db, staged, p.repository, p.build, p.snapshot, p.content, p.records);
    var emptied := UnstageIsAdmitted(filled, p.build, p.rows);
    assert forall key :: key in db.staged ==> IsOpen(db, key.owner);
    StagedAndGone(db.staged, p.rows, staged.staged, emptied.staged);
    done := ClosingAdmits(db, filled, emptied, p.repository, p.build, p.snapshot, p.content, p.rows);
    AdmitsThen(staged, [Record(db, p.repository, p.build, p.snapshot, p.content)] + Fill(p.records), filled,
               Unstage(p.rows) + [Commit(db, p.repository, p.build, p.snapshot), Publish(p.repository, p.snapshot)], done);
  }

  lemma ClosingAdmits(db: Database, filled: Database, emptied: Database, repository: Id, b: Id, s: Id, content: string, rows: seq<Row>)
    returns (done: Database)
    requires Inv(db) && repository in db.repositories && b !in db.builds && s !in db.snapshots
    requires db.repositories[repository].affinity in {None, Some(repository)}
    requires Admits(filled, Unstage(rows), emptied)
    requires emptied == Apply(Apply(db, Begin(db, repository, b)), Record(db, repository, b, s, content)).(records := filled.records)
    ensures Admits(filled, Unstage(rows) + [Commit(db, repository, b, s), Publish(repository, s)], done)
    ensures done.staged == db.staged && done.records == filled.records
    ensures Current(done, repository) == Some(s) && IsClosed(done, b) && done.builds[b].committed == Some(s)
  {
    var commit, publish := Commit(db, repository, b, s), Publish(repository, s);
    ClosingPartIsAdmitted(db, repository, b, s, content, filled.records);
    var three := Apply(emptied, commit);
    done := Apply(three, publish);
    assert Admits(emptied, [commit, publish], done) by {
      AdmitsOne(three, publish);
      assert [commit, publish][1..] == [publish];
    }
    AdmitsThen(filled, Unstage(rows), emptied, [commit, publish], done);
  }

  // ---- Giving a build up ----

  function StagedKeys(db: Database, b: Id): set<Key> {
    set key | key in db.staged && key.owner == b
  }

  lemma {:induction false} EmptyingIsAdmitted(db: Database, b: Id) returns (sts: seq<Statement>)
    requires IsOpen(db, b)
    ensures Admits(db, sts, db.(staged := WithoutOwner(db.staged, {b})))
    decreases |StagedKeys(db, b)|
  {
    if StagedKeys(db, b) == {} {
      sts := [];
      forall key | key in db.staged ensures key.owner != b {
        assert key !in StagedKeys(db, b);
      }
      assert WithoutOwner(db.staged, {b}) == db.staged;
    } else {
      var key :| key in StagedKeys(db, b);
      var less := Apply(db, DeleteStaged(key));
      assert StagedKeys(less, b) == StagedKeys(db, b) - {key};
      var rest := EmptyingIsAdmitted(less, b);
      assert WithoutOwner(less.staged, {b}) == WithoutOwner(db.staged, {b});
      sts := [DeleteStaged(key)] + rest;
      assert sts[1..] == rest;
    }
  }

  /** From every reachable state, every open build can be emptied and aborted;
      nothing else changes. */
  lemma OpenBuildCanBeGivenUp(run: seq<Database>, k: nat, b: Id) returns (sts: seq<Statement>, d: Database)
    requires Run(run) && k < |run| && IsOpen(run[k], b)
    ensures Admits(run[k], sts, d) && IsClosed(d, b) && d.builds[b] == run[k].builds[b].(state := Aborted)
    ensures d == run[k].(builds := run[k].builds[b := d.builds[b]], staged := WithoutOwner(run[k].staged, {b}))
  {
    RunKeepsInv(run, k);
    var db := run[k];
    var abort := UpdateBuild(b, db.builds[b].(state := Aborted));
    var empty := db.(staged := WithoutOwner(db.staged, {b}));
    var removals := EmptyingIsAdmitted(db, b);
    assert BuildFits(db, db.builds[b]);
    AdmitsOne(empty, abort);
    d := Apply(empty, abort);
    sts := removals + [abort];
    AdmitsThen(db, removals, empty, [abort], d);
  }
}
