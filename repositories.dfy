/**
 * The repositories over the database: the project repository, which delegates and wraps
 * database errors; the session repository that asks the harness for a session before
 * persisting it; and the transactional session repository that inserts first and rolls
 * back when the harness fails. The harness and the engine's own statement outcomes are
 * parameters.
 */
module Repositories {
  import opened Wrappers
  import opened Domain
  import opened Database
  import opened Protocol
  import Seqs

  function ProjectErr<T>(r: Result<T, DatabaseError>): (w: Result<T, ProjectRepoError>)
    ensures w.Success? <==> r.Success?
    ensures r.Success? ==> w.value == r.value
    ensures r.Failure? ==> w.error == ProjectDatabaseError(r.error)
  {
    match r
    case Success(v) => Success(v)
    case Failure(e) => Failure(ProjectDatabaseError(e))
  }

  function SessionErr<T>(r: Result<T, DatabaseError>): (w: Result<T, SessionRepoError>)
    ensures w.Success? <==> r.Success?
    ensures r.Success? ==> w.value == r.value
    ensures r.Failure? ==> w.error == SessionDatabaseError(r.error)
  {
    match r
    case Success(v) => Success(v)
    case Failure(e) => Failure(SessionDatabaseError(e))
  }

  /** `ProjectRepo`: each call is the database's, with its error wrapped. */
  class ProjectRepo {
    const db: Sqlite

    constructor (db: Sqlite)
      ensures this.db == db
    {
      this.db := db;
    }

    method List() returns (r: Result<seq<Project>, ProjectRepoError>)
      ensures r.Success? && multiset(r.value) == Seqs.ValueBag(db.tables.projects)
      ensures r.Success? && Seqs.SortedBy(r.value, ProjectNewerFirst())
    {
      var projects := db.ListProjects();
      r := Success(projects);
    }

    method Get(id: Uuid) returns (r: Result<Option<Project>, ProjectRepoError>)
      ensures r == Success(GetProject(db.tables, id))
    {
      var p := db.GetProjectRow(id);
      r := Success(p);
    }

    method Create(p: Project) returns (r: Result<Project, ProjectRepoError>)
      modifies db
      ensures db.tables == CreateProject(old(db.tables), p).0
      ensures r == ProjectErr(CreateProject(old(db.tables), p).1)
    {
      var created := db.InsertProject(p);
      r := ProjectErr(created);
    }

    method Update(p: Project, now: Timestamp) returns (r: Result<Project, ProjectRepoError>)
      modifies db
      ensures db.tables == UpdateProject(old(db.tables), p, now).0
      ensures r == ProjectErr(UpdateProject(old(db.tables), p, now).1)
    {
      var updated := db.UpdateProjectRow(p, now);
      r := ProjectErr(updated);
    }

    method Delete(id: Uuid) returns (r: Result<(), ProjectRepoError>)
      modifies db
      ensures db.tables == DeleteProject(old(db.tables), id).0
      ensures r == ProjectErr(DeleteProject(old(db.tables), id).1)
    {
      var deleted := db.DeleteProjectRow(id);
      r := ProjectErr(deleted);
    }
  }

  /** A project whose name is blank is refused with a database error and nothing is stored. */
  lemma BlankProjectRefused(t: Tables, p: Project)
    requires !NotBlank(p.name)
    ensures ProjectErr(CreateProject(t, p).1).Failure?
    ensures ProjectErr(CreateProject(t, p).1).error.ProjectDatabaseError?
    ensures CreateProject(t, p).0 == t
  {
  }

  // ---------------------------------------------------------------------------
  // Harness first, then persist

  /** The session `create` hands to the database: it carries the harness's session id and,
      when it named no directory, its project's. */
  function WithHarness(s: Session, projectDir: string, harnessSessionId: string): (r: Session)
    ensures r.harnessSessionId == Some(harnessSessionId)
    ensures s.dir.Some? ==> r.dir == s.dir
    ensures s.dir.None? ==> r.dir == Some(projectDir)
    ensures r == s.(harnessSessionId := r.harnessSessionId, dir := r.dir)
  {
    s.(harnessSessionId := Some(harnessSessionId), dir := if s.dir.None? then Some(projectDir) else s.dir)
  }

  /** `create` of the harness-first repository: the project must exist, then the harness
      must create its session, then the session is inserted. */
  function CreateHarnessFirst(t: Tables, s: Session, harness: Result<string, string>): (r: (Tables, Result<Session, SessionRepoError>))
    ensures s.projectId !in t.projects ==> r == (t, Failure(ProjectNotFound(s.projectId)))
    ensures s.projectId in t.projects && harness.Failure? ==> r == (t, Failure(HarnessError(harness.error)))
    ensures s.projectId in t.projects && harness.Success? ==>
      var created := WithHarness(s, t.projects[s.projectId].dir, harness.value);
      r == (CreateSession(t, created).0, SessionErr(CreateSession(t, created).1))
  {
    match GetProject(t, s.projectId)
    case None => (t, Failure(ProjectNotFound(s.projectId)))
    case Some(project) =>
      match harness
      case Failure(e) => (t, Failure(HarnessError(e)))
      case Success(harnessSessionId) =>
        var created := WithHarness(s, project.dir, harnessSessionId);
        var (after, row) := CreateSession(t, created);
        (after, SessionErr(row))
  }

  /** The harness id and the directory set by `WithHarness` never reach the table: the insert
      writes six columns, so the stored row and the answer have neither. */
  lemma HarnessIdNotStored(t: Tables, s: Session, harnessSessionId: string)
    ensures var r := CreateHarnessFirst(t, s, Success(harnessSessionId));
      r.1.Success? ==>
        s.id in r.0.sessions && r.0.sessions[s.id].harnessSessionId.None? && r.0.sessions[s.id].dir.None? &&
        r.1.value.harnessSessionId.None? && r.1.value.dir.None?
  {
  }

  /** A failed create stores nothing; a successful one stores the session under its id. */
  lemma HarnessFirstAtomic(t: Tables, s: Session, harness: Result<string, string>)
    ensures CreateHarnessFirst(t, s, harness).1.Failure? ==> CreateHarnessFirst(t, s, harness).0 == t
    ensures CreateHarnessFirst(t, s, harness).1.Success? ==>
      s.id in CreateHarnessFirst(t, s, harness).0.sessions && s.id !in t.sessions
  {
  }

  /** The session repository of `repo/session.rs`. */
  class HarnessFirstSessionRepo {
    const db: Sqlite

    constructor (db: Sqlite)
      ensures this.db == db
    {
      this.db := db;
    }

    /** `harness` is what the harness answers when asked to create the session. */
    method Create(s: Session, harness: Result<string, string>) returns (r: Result<Session, SessionRepoError>)
      modifies db
      ensures (db.tables, r) == CreateHarnessFirst(old(db.tables), s, harness)
    {
      var project := db.GetProjectRow(s.projectId);
      if project.None? {
        return Failure(ProjectNotFound(s.projectId));
      }
      if harness.Failure? {
        return Failure(HarnessError(harness.error));
      }
      var created := WithHarness(s, project.value.dir, harness.value);
      var row := db.InsertSession(created);
      r := SessionErr(row);
    }

    method Update(s: Session, now: Timestamp) returns (r: Result<Session, SessionRepoError>)
      modifies db
      ensures db.tables == UpdateSession(old(db.tables), s, now).0
      ensures r == SessionErr(UpdateSession(old(db.tables), s, now).1)
    {
      var updated := db.UpdateSessionRow(s, now);
      r := SessionErr(updated);
    }

    method Delete(id: Uuid) returns (r: Result<(), SessionRepoError>)
      modifies db
      ensures db.tables == DeleteSession(old(db.tables), id).0
      ensures r == SessionErr(DeleteSession(old(db.tables), id).1)
    {
      var deleted := db.DeleteSessionRow(id);
      r := SessionErr(deleted);
    }

    method ListByProject(projectId: Uuid) returns (r: Result<seq<Session>, SessionRepoError>)
      ensures r.Success? && forall i :: 0 <= i < |r.value| ==> r.value[i].projectId == projectId
      ensures r.Success? && multiset(r.value) == Seqs.ValueBag(ProjectSessionRows(db.tables.sessions, projectId))
    {
      var sessions := db.ListSessionsByProject(projectId);
      r := Success(sessions);
    }

    method Get(id: Uuid) returns (r: Result<Option<Session>, SessionRepoError>)
      ensures r == Success(GetSession(db.tables, id))
    {
      var s := db.GetSessionRow(id);
      r := Success(s);
    }
  }

  // ---------------------------------------------------------------------------
  // Insert in a transaction, then ask the harness

  /** What the engine answers to `BEGIN`, `ROLLBACK`, `COMMIT` and to the rollback a dropped
      unfinished transaction attempts. */
  datatype TxOutcomes = TxOutcomes(
    begin: Result<(), DatabaseError>,
    rollback: Result<(), DatabaseError>,
    commit: Result<(), DatabaseError>,
    dropRollback: Result<(), DatabaseError>)

  /** `create` of `data/session.rs`, path by path: a transaction that ends unfinished is
      rolled back when it is dropped. */
  function CreateInTransaction(t: Tables, s: Session, harness: Result<(), string>, o: TxOutcomes): (r: (Tables, Result<Session, SessionRepoError>))
    ensures s.projectId !in t.projects ==> r == (t, Failure(ProjectNotFound(s.projectId)))
    ensures r.1.Success? <==>
      s.projectId in t.projects && o.begin.Success? && CreateSession(t, s).1.Success? && harness.Success? && o.commit.Success?
    ensures r.1.Success? ==> r.0 == CreateSession(t, s).0 && r.1.value == SessionColumns(s)
    ensures s.projectId in t.projects && o.begin.Success? && CreateSession(t, s).1.Success? && harness.Failure? && o.rollback.Success? ==>
      r == (t, Failure(HarnessError(harness.error)))
  {
    if s.projectId !in t.projects then (t, Failure(ProjectNotFound(s.projectId)))
    else if o.begin.Failure? then (t, Failure(SessionDatabaseError(o.begin.error)))
    else
      var (inserted, row) := CreateSession(t, s);
      // dropping the unfinished transaction puts back the tables as they were at BEGIN
      var dropped := if o.dropRollback.Success? then t else inserted;
      if row.Failure? then (dropped, Failure(SessionDatabaseError(row.error)))
      else if harness.Failure? then
        if o.rollback.Success? then (t, Failure(HarnessError(harness.error)))
        else (dropped, Failure(SessionDatabaseError(o.rollback.error)))
      else if o.commit.Success? then (inserted, Success(row.value))
      else (dropped, Failure(SessionDatabaseError(o.commit.error)))
  }

  /** All or nothing: whenever `create` fails, the session is not stored, unless both the
      rollback it asked for and the one on drop failed too. */
  lemma CreateInTransactionAtomic(t: Tables, s: Session, harness: Result<(), string>, o: TxOutcomes)
    requires CreateInTransaction(t, s, harness, o).1.Failure?
    requires o.dropRollback.Success?
    ensures CreateInTransaction(t, s, harness, o).0 == t
  {
  }

  /** When the harness fails, whatever the insert did is undone by the explicit rollback. */
  lemma HarnessFailureRollsBack(t: Tables, s: Session, o: TxOutcomes, e: string)
    requires o.rollback.Success?
    ensures CreateInTransaction(t, s, Failure(e), o).0 == t
    ensures CreateInTransaction(t, s, Failure(e), o).1.Failure?
    ensures GetSession(CreateInTransaction(t, s, Failure(e), o).0, s.id) == GetSession(t, s.id)
  {
  }

  /** The session repository of `data/session.rs`. */
  class TransactionalSessionRepo {
    const db: Sqlite

    constructor (db: Sqlite)
      ensures this.db == db
    {
      this.db := db;
    }

    method Create(s: Session, harness: Result<(), string>, o: TxOutcomes) returns (r: Result<Session, SessionRepoError>)
      modifies db
      ensures (db.tables, r) == CreateInTransaction(old(db.tables), s, harness, o)
    {
      var project := db.GetProjectRow(s.projectId);
      if project.None? {
        return Failure(ProjectNotFound(s.projectId));
      }
      var begun := db.BeginTransaction(o.begin);
      if begun.Failure? {
        return Failure(SessionDatabaseError(begun.error));
      }
      var tx := begun.value;
      var created := db.InsertSession(s);
      if created.Failure? {
        tx.Drop(o.dropRollback);
        return Failure(SessionDatabaseError(created.error));
      }
      if harness.Failure? {
        var rolledBack := tx.Rollback(o.rollback);
        if rolledBack.Failure? {
          tx.Drop(o.dropRollback);
          return Failure(SessionDatabaseError(rolledBack.error));
        }
        tx.Drop(o.dropRollback);
        return Failure(HarnessError(harness.error));
      }
      var committed := tx.Commit(o.commit);
      if committed.Failure? {
        tx.Drop(o.dropRollback);
        return Failure(SessionDatabaseError(committed.error));
      }
      tx.Drop(o.dropRollback);
      r := Success(created.value);
    }

    /** Outside any transaction. */
    method Update(s: Session, now: Timestamp) returns (r: Result<Session, SessionRepoError>)
      modifies db
      ensures db.tables == UpdateSession(old(db.tables), s, now).0
      ensures r == SessionErr(UpdateSession(old(db.tables), s, now).1)
    {
      var updated := db.UpdateSessionRow(s, now);
      r := SessionErr(updated);
    }

    method Delete(id: Uuid) returns (r: Result<(), SessionRepoError>)
      modifies db
      ensures db.tables == DeleteSession(old(db.tables), id).0
      ensures r == SessionErr(DeleteSession(old(db.tables), id).1)
    {
      var deleted := db.DeleteSessionRow(id);
      r := SessionErr(deleted);
    }
  }

  /** The create handler: a missing or malformed body is refused before the repository is
      consulted, so nothing is stored. */
  method CreateSessionHandler(repo: TransactionalSessionRepo, body: Option<SessionModel>, harness: Result<(), string>, o: TxOutcomes)
    returns (r: Result<SessionModel, Status>)
    modifies repo.db
    ensures DecodeSessionBody(body).Failure? ==> r == Failure(DecodeSessionBody(body).error) && repo.db.tables == old(repo.db.tables)
    ensures DecodeSessionBody(body).Success? ==>
      var (after, created) := CreateInTransaction(old(repo.db.tables), DecodeSessionBody(body).value, harness, o);
      repo.db.tables == after &&
      r == (if created.Success? then Success(ToSessionModel(created.value)) else Failure(SessionRepoStatus(created.error)))
  {
    var session := DecodeSessionBody(body);
    if session.Failure? {
      return Failure(session.error);
    }
    var created := repo.Create(session.value, harness, o);
    r := if created.Success? then Success(ToSessionModel(created.value)) else Failure(SessionRepoStatus(created.error));
  }
}
