/**
 * The SQLite persistence layer for projects and sessions, as operations on the two tables.
 * The schema's constraints (primary keys, non-blank names and dirs, the foreign key from a
 * session to its project with its cascade, the parent link that is cleared when the parent
 * goes, the unique harness session id) are the invariant `Valid`, and every write is shown
 * to keep it. The lock and `BEGIN IMMEDIATE` of a transaction, its `COMMIT` and its
 * `ROLLBACK` take their outcome as a parameter. The CRUD and list calls of `Sqlite` are
 * modelled with the connection lock sound and the driver accepting the statement: their only
 * errors are the schema's constraint refusals and the checks on the rows affected.
 */
module Database {
  import opened Wrappers
  import opened Domain
  import opened Seqs
  import Codec

  // ---------------------------------------------------------------------------
  // Errors

  /** The schema constraint a statement broke. */
  datatype Constraint =
    | NotBlankCheck(table: string, column: string)
    | PrimaryKey(table: string)
    | ForeignKey

  /** What the SQLite driver reports. */
  datatype SqlError = QueryReturnedNoRows | ConstraintFailed(constraint: Constraint) | OtherSqlError(detail: string)

  datatype DatabaseError =
    | QueryError(cause: SqlError)
    | PoisonedLock
    | UnexpectedRowsAffected(op: string, expected: nat, actual: nat)

  /** The driver's text for an error. The blank-text CHECKs of the schema have no name, so
      SQLite names such a CHECK by its expression, `length(trim(<column>)) > 0`; a key
      constraint is named by its table and column. */
  function SqlErrorText(e: SqlError): (text: string)
    ensures e.ConstraintFailed? && e.constraint.NotBlankCheck? ==>
      StartsWith(text, "CHECK constraint failed: ") && EndsWith(text, "length(trim(" + e.constraint.column + ")) > 0")
    ensures e.ConstraintFailed? && e.constraint.PrimaryKey? ==>
      StartsWith(text, "UNIQUE constraint failed: ") && EndsWith(text, e.constraint.table + ".id")
    ensures e == ConstraintFailed(ForeignKey) ==> text == "FOREIGN KEY constraint failed"
    ensures e.OtherSqlError? ==> text == e.detail
  {
    match e
    case QueryReturnedNoRows => "Query returned no rows"
    case ConstraintFailed(NotBlankCheck(_, column)) =>
      var expression := "length(trim(" + column + ")) > 0";
      ConcatAffixes("CHECK constraint failed: ", expression);
      "CHECK constraint failed: " + expression
    case ConstraintFailed(PrimaryKey(table)) =>
      ConcatAffixes("UNIQUE constraint failed: ", table + ".id");
      "UNIQUE constraint failed: " + (table + ".id")
    case ConstraintFailed(ForeignKey) => "FOREIGN KEY constraint failed"
    case OtherSqlError(detail) => detail
  }

  /** The two CHECKs of a project report different texts, so the message says which of name
      and dir was blank. */
  lemma CheckTextsNameTheColumn()
    ensures SqlErrorText(ConstraintFailed(NotBlankCheck("projects", "name"))) != SqlErrorText(ConstraintFailed(NotBlankCheck("projects", "dir")))
  {
    assert |SqlErrorText(ConstraintFailed(NotBlankCheck("projects", "name")))| == 47;
  }

  /** The `Display` text of a database error. */
  function ErrorText(e: DatabaseError): (text: string)
    ensures e.QueryError? ==> text == "Generic database error " + SqlErrorText(e.cause)
    ensures e.UnexpectedRowsAffected? ==>
      StartsWith(text, e.op + " unexpected rows affected, expected ") && EndsWith(text, " got " + Codec.Decimal(e.actual))
  {
    match e
    case QueryError(cause) => "Generic database error " + SqlErrorText(cause)
    case PoisonedLock => "Db conn lock poisoned"
    case UnexpectedRowsAffected(op, expected, actual) =>
      var head := op + " unexpected rows affected, expected ";
      var tail := " got " + Codec.Decimal(actual);
      assert (head + Codec.Decimal(expected) + tail)[..|head|] == head;
      assert (head + Codec.Decimal(expected) + tail)[|head + Codec.Decimal(expected)|..] == tail;
      head + Codec.Decimal(expected) + tail
  }

  // ---------------------------------------------------------------------------
  // Row-count helpers

  /** `check_returning_row_error`: a `RETURNING` statement that matched no row is an update
      of a missing row; every other driver error passes through. */
  function CheckReturningRowError(op: string, err: SqlError): (r: DatabaseError)
    ensures err.QueryReturnedNoRows? <==> r == UnexpectedRowsAffected(op, 1, 0)
    ensures !err.QueryReturnedNoRows? ==> r == QueryError(err)
  {
    if err.QueryReturnedNoRows? then UnexpectedRowsAffected(op, 1, 0) else QueryError(err)
  }

  /** `assert_one_row_affected`. */
  function AssertOneRowAffected(op: string, rows: nat): (r: Result<(), DatabaseError>)
    ensures r.Success? <==> rows == 1
    ensures r.Failure? ==> r.error == UnexpectedRowsAffected(op, 1, rows)
  {
    if rows == 1 then Success(()) else Failure(UnexpectedRowsAffected(op, 1, rows))
  }

  // ---------------------------------------------------------------------------
  // The tables and their constraints

  /** The rows of `projects` and `sessions`, by primary key. */
  datatype Tables = Tables(projects: map<Uuid, Project>, sessions: map<Uuid, Session>)

  const NoTables := Tables(map[], map[])

  /** `length(trim(x)) > 0`: SQLite's `trim` strips spaces only. */
  predicate NotBlank(s: string)
  {
    exists i :: 0 <= i < |s| && s[i] != ' '
  }

  predicate ProjectRowValid(key: Uuid, p: Project)
  {
    p.id == key && NotBlank(p.name) && NotBlank(p.dir)
  }

  /** No two sessions share a harness session id (NULLs may repeat). */
  ghost predicate HarnessIdsUnique(sessions: map<Uuid, Session>)
  {
    forall a, b :: a in sessions && b in sessions && a != b && sessions[a].harnessSessionId.Some? ==>
      sessions[a].harnessSessionId != sessions[b].harnessSessionId
  }

  ghost predicate Valid(t: Tables)
  {
    (forall k :: k in t.projects ==> ProjectRowValid(k, t.projects[k])) &&
    (forall k :: k in t.sessions ==> t.sessions[k].id == k && t.sessions[k].projectId in t.projects) &&
    (forall k :: k in t.sessions && t.sessions[k].parentSessionId.Some? ==> t.sessions[k].parentSessionId.value in t.sessions) &&
    HarnessIdsUnique(t.sessions)
  }

  lemma NoTablesValid()
    ensures Valid(NoTables)
  {
  }

  /** Clear the parent link of a session whose parent is among `gone`. */
  function Orphan(s: Session, gone: set<Uuid>): (r: Session)
    ensures r == s.(parentSessionId := r.parentSessionId)
    ensures r.parentSessionId.Some? ==> r.parentSessionId == s.parentSessionId && r.parentSessionId.value !in gone
    ensures s.parentSessionId.Some? && s.parentSessionId.value !in gone ==> r == s
  {
    if s.parentSessionId.Some? && s.parentSessionId.value in gone then s.(parentSessionId := None) else s
  }

  /** Delete the sessions `gone`; `ON DELETE SET NULL` clears the links to them. */
  function DeleteSessionRows(sessions: map<Uuid, Session>, gone: set<Uuid>): (r: map<Uuid, Session>)
    ensures r.Keys == sessions.Keys - gone
    ensures forall k :: k in r ==> r[k] == Orphan(sessions[k], gone)
  {
    map k | k in sessions && k !in gone :: Orphan(sessions[k], gone)
  }

  lemma DeleteSessionRowsValid(t: Tables, projects: map<Uuid, Project>, gone: set<Uuid>)
    requires Valid(t)
    requires forall k :: k in projects ==> ProjectRowValid(k, projects[k])
    requires forall k :: k in t.sessions && k !in gone ==> t.sessions[k].projectId in projects
    ensures Valid(Tables(projects, DeleteSessionRows(t.sessions, gone)))
  {
    var r := DeleteSessionRows(t.sessions, gone);
    forall a, b | a in r && b in r && a != b && r[a].harnessSessionId.Some?
      ensures r[a].harnessSessionId != r[b].harnessSessionId
    {
      assert r[a].harnessSessionId == t.sessions[a].harnessSessionId;
      assert r[b].harnessSessionId == t.sessions[b].harnessSessionId;
    }
  }

  // ---------------------------------------------------------------------------
  // Writes

  /** `create_project`: the CHECK constraints come first, then the primary key. */
  function CreateProject(t: Tables, p: Project): (r: (Tables, Result<Project, DatabaseError>))
    ensures r.1.Success? <==> NotBlank(p.name) && NotBlank(p.dir) && p.id !in t.projects
    ensures r.1.Success? ==> r.0 == t.(projects := t.projects[p.id := p]) && r.1.value == p
    ensures r.1.Failure? ==> r.0 == t && r.1.error.QueryError?
    ensures p.id in t.projects ==> r.1.Failure?
  {
    if !NotBlank(p.name) then (t, Failure(QueryError(ConstraintFailed(NotBlankCheck("projects", "name")))))
    else if !NotBlank(p.dir) then (t, Failure(QueryError(ConstraintFailed(NotBlankCheck("projects", "dir")))))
    else if p.id in t.projects then (t, Failure(QueryError(ConstraintFailed(PrimaryKey("projects")))))
    else (t.(projects := t.projects[p.id := p]), Success(p))
  }

  /** `update_project`: name and dir from the argument, `updated_at` the clock's `now`,
      `created_at` kept; a missing row is reported as zero rows affected. */
  function UpdateProject(t: Tables, p: Project, now: Timestamp): (r: (Tables, Result<Project, DatabaseError>))
    ensures p.id !in t.projects ==> r == (t, Failure(UnexpectedRowsAffected("update_project", 1, 0)))
    ensures r.1.Success? <==> p.id in t.projects && NotBlank(p.name) && NotBlank(p.dir)
    ensures r.1.Success? ==>
      var u := r.1.value;
      u == t.projects[p.id].(name := p.name, dir := p.dir, updatedAt := now) &&
      r.0 == t.(projects := t.projects[p.id := u])
    ensures r.1.Failure? ==> r.0 == t
  {
    if p.id !in t.projects then (t, Failure(CheckReturningRowError("update_project", QueryReturnedNoRows)))
    else if !NotBlank(p.name) then (t, Failure(QueryError(ConstraintFailed(NotBlankCheck("projects", "name")))))
    else if !NotBlank(p.dir) then (t, Failure(QueryError(ConstraintFailed(NotBlankCheck("projects", "dir")))))
    else
      var u := t.projects[p.id].(name := p.name, dir := p.dir, updatedAt := now);
      (t.(projects := t.projects[p.id := u]), Success(u))
  }

  /** The sessions of project `id`. */
  function SessionsOfProject(sessions: map<Uuid, Session>, id: Uuid): (ids: set<Uuid>)
    ensures forall k :: k in ids <==> k in sessions && sessions[k].projectId == id
  {
    set k | k in sessions && sessions[k].projectId == id
  }

  /** `delete_project`: one row must go; the foreign key cascades to the project's sessions. */
  function DeleteProject(t: Tables, id: Uuid): (r: (Tables, Result<(), DatabaseError>))
    ensures r.1.Success? <==> id in t.projects
    ensures r.1.Failure? ==> r == (t, Failure(UnexpectedRowsAffected("delete_project", 1, 0)))
    ensures r.1.Success? ==> r.0.projects == t.projects - {id}
    ensures r.1.Success? ==> forall k :: k in r.0.sessions <==> k in t.sessions && t.sessions[k].projectId != id
  {
    var rows := if id in t.projects then 1 else 0;
    match AssertOneRowAffected("delete_project", rows)
    case Failure(e) => (t, Failure(e))
    case Success(_) => (Tables(t.projects - {id}, DeleteSessionRows(t.sessions, SessionsOfProject(t.sessions, id))), Success(()))
  }

  /** `create_session`: only the six columns are written; the rest take their defaults. */
  function CreateSession(t: Tables, s: Session): (r: (Tables, Result<Session, DatabaseError>))
    ensures r.1.Success? <==> s.id !in t.sessions && s.projectId in t.projects
    ensures r.1.Success? ==> r.1.value == SessionColumns(s) && r.0 == t.(sessions := t.sessions[s.id := SessionColumns(s)])
    ensures r.1.Failure? ==> r.0 == t && r.1.error.QueryError?
  {
    if s.id in t.sessions then (t, Failure(QueryError(ConstraintFailed(PrimaryKey("sessions")))))
    else if s.projectId !in t.projects then (t, Failure(QueryError(ConstraintFailed(ForeignKey))))
    else (t.(sessions := t.sessions[s.id := SessionColumns(s)]), Success(SessionColumns(s)))
  }

  /** `update_session`: project, visibility and name from the argument, `updated_at` the
      clock's `now`; the other columns are kept and the six columns are returned. */
  function UpdateSession(t: Tables, s: Session, now: Timestamp): (r: (Tables, Result<Session, DatabaseError>))
    ensures s.id !in t.sessions ==> r == (t, Failure(UnexpectedRowsAffected("update_session", 1, 0)))
    ensures r.1.Success? <==> s.id in t.sessions && s.projectId in t.projects
    ensures r.1.Success? ==>
      var u := t.sessions[s.id].(projectId := s.projectId, showInGui := s.showInGui, name := s.name, updatedAt := now);
      r.0 == t.(sessions := t.sessions[s.id := u]) && r.1.value == SessionColumns(u)
    ensures r.1.Failure? ==> r.0 == t
  {
    if s.id !in t.sessions then (t, Failure(CheckReturningRowError("update_session", QueryReturnedNoRows)))
    else if s.projectId !in t.projects then (t, Failure(QueryError(ConstraintFailed(ForeignKey))))
    else
      var u := t.sessions[s.id].(projectId := s.projectId, showInGui := s.showInGui, name := s.name, updatedAt := now);
      (t.(sessions := t.sessions[s.id := u]), Success(SessionColumns(u)))
  }

  /** `delete_session`: one row must go; children lose their parent link. */
  function DeleteSession(t: Tables, id: Uuid): (r: (Tables, Result<(), DatabaseError>))
    ensures r.1.Success? <==> id in t.sessions
    ensures r.1.Failure? ==> r == (t, Failure(UnexpectedRowsAffected("delete_session", 1, 0)))
    ensures r.1.Success? ==> r.0.projects == t.projects && r.0.sessions.Keys == t.sessions.Keys - {id}
  {
    var rows := if id in t.sessions then 1 else 0;
    match AssertOneRowAffected("delete_session", rows)
    case Failure(e) => (t, Failure(e))
    case Success(_) => (t.(sessions := DeleteSessionRows(t.sessions, {id})), Success(()))
  }

  // ---------------------------------------------------------------------------
  // Every write keeps the schema's constraints

  lemma CreateProjectValid(t: Tables, p: Project)
    requires Valid(t)
    ensures Valid(CreateProject(t, p).0)
  {
  }

  lemma UpdateProjectValid(t: Tables, p: Project, now: Timestamp)
    requires Valid(t)
    ensures Valid(UpdateProject(t, p, now).0)
  {
  }

  lemma DeleteProjectValid(t: Tables, id: Uuid)
    requires Valid(t)
    ensures Valid(DeleteProject(t, id).0)
  {
    if id in t.projects {
      DeleteSessionRowsValid(t, t.projects - {id}, SessionsOfProject(t.sessions, id));
    }
  }

  lemma CreateSessionValid(t: Tables, s: Session)
    requires Valid(t)
    ensures Valid(CreateSession(t, s).0)
  {
  }

  lemma UpdateSessionValid(t: Tables, s: Session, now: Timestamp)
    requires Valid(t)
    ensures Valid(UpdateSession(t, s, now).0)
  {
    var r := UpdateSession(t, s, now);
    if r.1.Success? {
      var u := r.0.sessions[s.id];
      forall a, b | a in r.0.sessions && b in r.0.sessions && a != b && r.0.sessions[a].harnessSessionId.Some?
        ensures r.0.sessions[a].harnessSessionId != r.0.sessions[b].harnessSessionId
      {
        assert r.0.sessions[a].harnessSessionId == t.sessions[a].harnessSessionId;
        assert r.0.sessions[b].harnessSessionId == t.sessions[b].harnessSessionId;
      }
    }
  }

  lemma DeleteSessionValid(t: Tables, id: Uuid)
    requires Valid(t)
    ensures Valid(DeleteSession(t, id).0)
  {
    if id in t.sessions {
      DeleteSessionRowsValid(t, t.projects, {id});
    }
  }

  /** Deleting a project takes its sessions with it: none of them can be read afterwards,
      and the sessions of other projects stay, at most losing a parent link. */
  lemma DeleteProjectCascades(t: Tables, id: Uuid, sid: Uuid)
    requires id in t.projects && sid in t.sessions
    ensures t.sessions[sid].projectId == id ==> GetSession(DeleteProject(t, id).0, sid).None?
    ensures t.sessions[sid].projectId != id ==>
      GetSession(DeleteProject(t, id).0, sid) == Some(SessionColumns(t.sessions[sid]))
  {
  }

  /** A session whose parent is deleted stays, with no parent. */
  lemma DeleteSessionOrphansChildren(t: Tables, id: Uuid, child: Uuid)
    requires id in t.sessions && child in t.sessions && child != id
    requires t.sessions[child].parentSessionId == Some(id)
    ensures child in DeleteSession(t, id).0.sessions
    ensures DeleteSession(t, id).0.sessions[child] == t.sessions[child].(parentSessionId := None)
  {
  }

  /** An update keeps `created_at` and moves `updated_at` forward when the clock has. */
  lemma UpdateProjectTimestamps(t: Tables, p: Project, now: Timestamp)
    requires Valid(t) && p.id in t.projects && NotBlank(p.name) && NotBlank(p.dir)
    requires now > t.projects[p.id].updatedAt
    ensures var u := UpdateProject(t, p, now).1.value;
      u.createdAt == t.projects[p.id].createdAt && u.updatedAt > t.projects[p.id].updatedAt && u.id == p.id
  {
  }

  lemma UpdateSessionTimestamps(t: Tables, s: Session, now: Timestamp)
    requires s.id in t.sessions && s.projectId in t.projects
    requires now > t.sessions[s.id].updatedAt
    ensures var u := UpdateSession(t, s, now).1.value;
      u.createdAt == t.sessions[s.id].createdAt && u.updatedAt > t.sessions[s.id].updatedAt && u.id == t.sessions[s.id].id
  {
  }

  // ---------------------------------------------------------------------------
  // Reads

  function GetProject(t: Tables, id: Uuid): (r: Option<Project>)
    ensures r.Some? <==> id in t.projects
    ensures r.Some? ==> r.value == t.projects[id]
  {
    if id in t.projects then Some(t.projects[id]) else None
  }

  /** `get_session`: the six columns of the row. */
  function GetSession(t: Tables, id: Uuid): (r: Option<Session>)
    ensures r.Some? <==> id in t.sessions
    ensures r.Some? ==> r.value == SessionColumns(t.sessions[id]) && HasDefaultExtras(r.value)
  {
    if id in t.sessions then Some(SessionColumns(t.sessions[id])) else None
  }

  /** A just-created row reads back as written. */
  lemma CreateThenGet(t: Tables, p: Project, s: Session)
    ensures CreateProject(t, p).1.Success? ==> GetProject(CreateProject(t, p).0, p.id) == Some(p)
    ensures CreateSession(t, s).1.Success? ==> GetSession(CreateSession(t, s).0, s.id) == Some(SessionColumns(s))
  {
  }

  /** `ORDER BY updated_at DESC`. */
  function ProjectNewerFirst(): (Project, Project) -> bool
  {
    (a: Project, b: Project) => a.updatedAt >= b.updatedAt
  }

  function SessionNewerFirst(): (Session, Session) -> bool
  {
    (a: Session, b: Session) => a.updatedAt >= b.updatedAt
  }

  lemma NewerFirstTotal()
    ensures TotalPreorder(ProjectNewerFirst()) && TotalPreorder(SessionNewerFirst())
  {
  }

  /** The six columns of the sessions of one project. */
  function ProjectSessionRows(sessions: map<Uuid, Session>, projectId: Uuid): (m: map<Uuid, Session>)
    ensures forall k :: k in m <==> k in sessions && sessions[k].projectId == projectId
    ensures forall k :: k in m ==> m[k] == SessionColumns(sessions[k])
  {
    map k | k in sessions && sessions[k].projectId == projectId :: SessionColumns(sessions[k])
  }

  // ---------------------------------------------------------------------------
  // The connection

  /** The connection. Its CRUD and list calls run with the lock sound and the driver
      accepting each statement; only `BeginTransaction` takes a failure as an input. */
  class Sqlite {
    var tables: Tables

    /** A fresh database after the migrations: both tables empty. */
    constructor ()
      ensures tables == NoTables && Valid(tables)
    {
      tables := NoTables;
    }

    /** `list_projects`: every project, newest `updated_at` first. */
    method ListProjects() returns (r: seq<Project>)
      ensures multiset(r) == ValueBag(tables.projects)
      ensures SortedBy(r, ProjectNewerFirst())
    {
      var all := CollectValues(tables.projects);
      NewerFirstTotal();
      SortBySorted(all, ProjectNewerFirst());
      r := SortBy(all, ProjectNewerFirst());
    }

    /** `list_sessions_by_project`: that project's sessions only, newest first, six columns each. */
    method ListSessionsByProject(projectId: Uuid) returns (r: seq<Session>)
      ensures multiset(r) == ValueBag(ProjectSessionRows(tables.sessions, projectId))
      ensures SortedBy(r, SessionNewerFirst())
      ensures forall i :: 0 <= i < |r| ==> r[i].projectId == projectId
    {
      var rows := ProjectSessionRows(tables.sessions, projectId);
      var all := CollectValues(rows);
      NewerFirstTotal();
      SortBySorted(all, SessionNewerFirst());
      r := SortBy(all, SessionNewerFirst());
      forall i | 0 <= i < |r| ensures r[i].projectId == projectId {
        assert r[i] in multiset(all);
        ValueBagMember(rows, r[i]);
      }
    }

    method GetProjectRow(id: Uuid) returns (r: Option<Project>)
      ensures r == GetProject(tables, id)
    {
      r := if id in tables.projects then Some(tables.projects[id]) else None;
    }

    method GetSessionRow(id: Uuid) returns (r: Option<Session>)
      ensures r == GetSession(tables, id)
    {
      r := if id in tables.sessions then Some(SessionColumns(tables.sessions[id])) else None;
    }

    method InsertProject(p: Project) returns (r: Result<Project, DatabaseError>)
      modifies this
      ensures (tables, r) == CreateProject(old(tables), p)
    {
      var res := CreateProject(tables, p);
      tables := res.0;
      r := res.1;
    }

    method UpdateProjectRow(p: Project, now: Timestamp) returns (r: Result<Project, DatabaseError>)
      modifies this
      ensures (tables, r) == UpdateProject(old(tables), p, now)
    {
      if p.id !in tables.projects {
        return Failure(CheckReturningRowError("update_project", QueryReturnedNoRows));
      }
      if !NotBlank(p.name) {
        return Failure(QueryError(ConstraintFailed(NotBlankCheck("projects", "name"))));
      }
      if !NotBlank(p.dir) {
        return Failure(QueryError(ConstraintFailed(NotBlankCheck("projects", "dir"))));
      }
      var u := tables.projects[p.id].(name := p.name, dir := p.dir, updatedAt := now);
      tables := tables.(projects := tables.projects[p.id := u]);
      r := Success(u);
    }

    method DeleteProjectRow(id: Uuid) returns (r: Result<(), DatabaseError>)
      modifies this
      ensures (tables, r) == DeleteProject(old(tables), id)
    {
      var rows := if id in tables.projects then 1 else 0;
      r := AssertOneRowAffected("delete_project", rows);
      if r.Success? {
        var gone := SessionsOfProject(tables.sessions, id);
        tables := Tables(tables.projects - {id}, DeleteSessionRows(tables.sessions, gone));
      }
    }

    method InsertSession(s: Session) returns (r: Result<Session, DatabaseError>)
      modifies this
      ensures (tables, r) == CreateSession(old(tables), s)
    {
      if s.id in tables.sessions {
        return Failure(QueryError(ConstraintFailed(PrimaryKey("sessions"))));
      }
      if s.projectId !in tables.projects {
        return Failure(QueryError(ConstraintFailed(ForeignKey)));
      }
      tables := tables.(sessions := tables.sessions[s.id := SessionColumns(s)]);
      r := Success(SessionColumns(s));
    }

    method UpdateSessionRow(s: Session, now: Timestamp) returns (r: Result<Session, DatabaseError>)
      modifies this
      ensures (tables, r) == UpdateSession(old(tables), s, now)
    {
      var res := UpdateSession(tables, s, now);
      tables := res.0;
      r := res.1;
    }

    method DeleteSessionRow(id: Uuid) returns (r: Result<(), DatabaseError>)
      modifies this
      ensures (tables, r) == DeleteSession(old(tables), id)
    {
      var rows := if id in tables.sessions then 1 else 0;
      r := AssertOneRowAffected("delete_session", rows);
      if r.Success? {
        tables := tables.(sessions := DeleteSessionRows(tables.sessions, {id}));
      }
    }

    /** `begin_transaction`: `begun` is whether taking the lock and `BEGIN IMMEDIATE` succeed. */
    method BeginTransaction(begun: Result<(), DatabaseError>) returns (r: Result<SqliteTransaction, DatabaseError>)
      ensures r.Success? <==> begun.Success?
      ensures r.Failure? ==> r.error == begun.error
      ensures r.Success? ==> fresh(r.value) && r.value.db == this && r.value.snapshot == tables && !r.value.finished
    {
      if begun.Failure? {
        return Failure(begun.error);
      }
      var tx := new SqliteTransaction(this);
      return Success(tx);
    }
  }

  // ---------------------------------------------------------------------------
  // Transactions

  /** An open transaction on the connection: the statements it runs change `db.tables`, and a
      rollback restores the tables as they were at `BEGIN`. `finished` makes it one-shot. */
  class SqliteTransaction {
    const db: Sqlite
    const snapshot: Tables
    var finished: bool

    constructor (db: Sqlite)
      ensures this.db == db && snapshot == db.tables && !finished
    {
      this.db := db;
      snapshot := db.tables;
      finished := false;
    }

    /** `commit`: `ran` is the outcome of `COMMIT;`, which runs only while unfinished. */
    method Commit(ran: Result<(), DatabaseError>) returns (r: Result<(), DatabaseError>)
      modifies this
      ensures (finished, r) == Finish(old(finished), ran)
    {
      if finished {
        return Success(());
      }
      r := ran;
      finished := ran.Success?;
    }

    /** `rollback`: as `commit`, and a `ROLLBACK;` that ran restores the tables. */
    method Rollback(ran: Result<(), DatabaseError>) returns (r: Result<(), DatabaseError>)
      modifies this, db
      ensures (finished, r) == Finish(old(finished), ran)
      ensures db.tables == if !old(finished) && ran.Success? then snapshot else old(db.tables)
    {
      if finished {
        return Success(());
      }
      r := ran;
      if ran.Success? {
        db.tables := snapshot;
        finished := true;
      }
    }

    /** `Drop`: an unfinished transaction is rolled back, ignoring the outcome. */
    method Drop(ran: Result<(), DatabaseError>)
      modifies this, db
      ensures finished
      ensures db.tables == if !old(finished) && ran.Success? then snapshot else old(db.tables)
    {
      if finished {
        return;
      }
      if ran.Success? {
        db.tables := snapshot;
      }
      finished := true;
    }
  }

  /** One `commit` or `rollback`: a finished transaction answers Ok and runs nothing; an
      unfinished one reports the statement's outcome and is finished only when it succeeded. */
  function Finish(finished: bool, ran: Result<(), DatabaseError>): (r: (bool, Result<(), DatabaseError>))
    ensures finished ==> r == (true, Success(()))
    ensures !finished ==> r.1 == ran
    ensures r.0 <==> finished || ran.Success?
  {
    if finished then (true, Success(())) else (ran.Success?, ran)
  }

  /** How many statements a run of `commit`/`rollback` calls executes successfully. */
  function Executed(finished: bool, calls: seq<Result<(), DatabaseError>>): nat
    decreases |calls|
  {
    if calls == [] then 0
    else
      var step := Finish(finished, calls[0]);
      (if !finished && calls[0].Success? then 1 else 0) + Executed(step.0, calls[1..])
  }

  /** One-shot: however many calls follow, at most one statement takes effect, and none once
      the transaction is finished. */
  lemma {:induction false} AtMostOneTakesEffect(finished: bool, calls: seq<Result<(), DatabaseError>>)
    ensures Executed(finished, calls) <= (if finished then 0 else 1)
    decreases |calls|
  {
    if calls != [] {
      var step := Finish(finished, calls[0]);
      AtMostOneTakesEffect(step.0, calls[1..]);
    }
  }
}
