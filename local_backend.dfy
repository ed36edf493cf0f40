/**
 * `LocalBackend`: the repositories behind an in-memory copy of projects, sessions and
 * sessions grouped by project. Every write goes to the database first and, when it succeeds,
 * to the in-memory states; every read is answered from the states. The invariant that makes
 * this sound is `Mirrors`: the states hold what the tables hold.
 */
module LocalBackend {
  import opened Wrappers
  import opened Domain
  import opened Seqs
  import opened StateErrors
  import opened Database
  import opened Protocol
  import opened Repositories
  import opened EntityStore
  import opened GroupedStore

  // ---------------------------------------------------------------------------
  // Comparators

  datatype Ordering = Less | Equal | Greater

  /** `Ord::cmp` on timestamps. */
  function Cmp(x: Timestamp, y: Timestamp): (o: Ordering)
    ensures o == Less <==> x < y
    ensures o == Equal <==> x == y
    ensures o == Greater <==> x > y
  {
    if x < y then Less else if x == y then Equal else Greater
  }

  /** `sort_projects`: the later `updated_at` first. */
  function SortProjects(a: Project, b: Project): (o: Ordering)
    ensures o == Less <==> a.updatedAt > b.updatedAt
    ensures o == Equal <==> a.updatedAt == b.updatedAt
    ensures o == Greater <==> a.updatedAt < b.updatedAt
  {
    Cmp(b.updatedAt, a.updatedAt)
  }

  /** `sort_sessions`: the later `updated_at` first. */
  function SortSessions(a: Session, b: Session): (o: Ordering)
    ensures o == Less <==> a.updatedAt > b.updatedAt
    ensures o == Equal <==> a.updatedAt == b.updatedAt
    ensures o == Greater <==> a.updatedAt < b.updatedAt
  {
    Cmp(b.updatedAt, a.updatedAt)
  }

  /** `sort_by(sort_projects)` may keep `a` before `b` when they do not compare `Greater`. */
  function ProjectOrder(): (Project, Project) -> bool
  {
    (a: Project, b: Project) => SortProjects(a, b) != Greater
  }

  function SessionOrder(): (Session, Session) -> bool
  {
    (a: Session, b: Session) => SortSessions(a, b) != Greater
  }

  /** The comparators order newest first, exactly as `ORDER BY updated_at DESC` does, and are
      total preorders, which is what `sort_by` needs. */
  lemma OrdersNewestFirst()
    ensures forall a: Project, b: Project :: ProjectOrder()(a, b) <==> ProjectNewerFirst()(a, b)
    ensures forall a: Session, b: Session :: SessionOrder()(a, b) <==> SessionNewerFirst()(a, b)
    ensures TotalPreorder(ProjectOrder()) && TotalPreorder(SessionOrder())
  {
  }

  lemma OrdersArePreorders()
    ensures TotalPreorder(ProjectOrder()) && TotalPreorder(SessionOrder())
  {
    OrdersNewestFirst();
  }

  lemma SortedByEquivalent<T>(s: seq<T>, le1: (T, T) -> bool, le2: (T, T) -> bool)
    requires forall a, b :: le1(a, b) <==> le2(a, b)
    ensures SortedBy(s, le1) <==> SortedBy(s, le2)
  {
  }

  function ProjectKey(p: Project): Uuid
  {
    p.id
  }

  function SessionKey(s: Session): Uuid
  {
    s.id
  }

  function SessionProject(s: Session): Uuid
  {
    s.projectId
  }

  // ---------------------------------------------------------------------------
  // Errors

  datatype BackendError =
    | ProjectRepoFailed(projectError: ProjectRepoError)
    | SessionRepoFailed(sessionError: SessionRepoError)
    | StateFailed(stateError: StateError)

  /** `map_err(Into::into)` on what a state answers. */
  function FromState<T>(r: Result<T, StateError>): (w: Result<T, BackendError>)
    ensures w.Success? <==> r.Success?
    ensures r.Success? ==> w.value == r.value
    ensures r.Failure? ==> w.error == StateFailed(r.error)
  {
    match r
    case Success(v) => Success(v)
    case Failure(e) => Failure(StateFailed(e))
  }

  // ---------------------------------------------------------------------------
  // How the two session states and the tables agree

  /** Every entry of the keyed state is the one its group holds, and the grouped index knows
      exactly the keys the keyed state holds. */
  ghost predicate Agree<G, K, V>(items: map<K, V>, groups: map<G, map<K, V>>, index: map<K, G>)
  {
    items.Keys == index.Keys &&
    forall k :: k in items ==> index[k] in groups && k in groups[index[k]] && groups[index[k]][k] == items[k]
  }

  /** In-memory sessions agree with the stored rows on the six columns a session row carries:
      the state holds what `create` and `update` return, the table may hold more. */
  ghost predicate SessionsMirror(items: map<Uuid, Session>, rows: map<Uuid, Session>)
  {
    items.Keys == rows.Keys && forall k :: k in items ==> SessionColumns(items[k]) == SessionColumns(rows[k])
  }

  lemma {:induction false} SeededAgrees<G, K, V>(initial: seq<V>, groupOf: V -> G, keyOf: V -> K)
    requires KeysDistinct(initial, keyOf)
    ensures Agree(Indexed(initial, keyOf), Seeded(initial, groupOf, keyOf).0, Seeded(initial, groupOf, keyOf).1)
    decreases |initial|
  {
    if initial != [] {
      var prefix := initial[..|initial| - 1];
      var v := initial[|initial| - 1];
      assert forall i :: 0 <= i < |prefix| ==> prefix[i] == initial[i];
      SeededAgrees(prefix, groupOf, keyOf);
      assert keyOf(v) !in Indexed(prefix, keyOf);
    }
  }

  lemma AgreeUpsert<G, K, V>(items: map<K, V>, groups: map<G, map<K, V>>, index: map<K, G>, g: G, k: K, v: V)
    requires Agree(items, groups, index)
    ensures Agree(items[k := v], Upserted(groups, index, g, k, v).0, Upserted(groups, index, g, k, v).1)
  {
    var r := Upserted(groups, index, g, k, v);
    forall j | j in items && j != k
      ensures r.1[j] in r.0 && j in r.0[r.1[j]] && r.0[r.1[j]][j] == items[j]
    {
      var h := index[j];
      if h == g {
        assert j in GroupItems(groups, g);
      } else if Some(h) == MovedFrom(index, k, g) {
        assert r.0[h] == groups[h] - {k};
      }
    }
  }

  /** Upserting a session into both states keeps them in agreement and files it under its
      project only. */
  lemma UpsertedSession(items: map<Uuid, Session>, groups: map<Uuid, map<Uuid, Session>>, index: map<Uuid, Uuid>, u: Session)
    requires Agree(items, groups, index) && Consistent(groups, index) && Keyed(groups, SessionProject, SessionKey)
    ensures Agree(items[u.id := u], Upserted(groups, index, u.projectId, u.id, u).0, Upserted(groups, index, u.projectId, u.id, u).1)
    ensures var after := Upserted(groups, index, u.projectId, u.id, u).0;
      u.projectId in after && u.id in after[u.projectId] && after[u.projectId][u.id] == u &&
      forall g :: g in after && g != u.projectId ==> u.id !in after[g]
  {
    var (after, byKey) := Upserted(groups, index, u.projectId, u.id, u);
    AgreeUpsert(items, groups, index, u.projectId, u.id, u);
    UpsertKeeps(groups, index, u, SessionProject, SessionKey);
    assert Consistent(after, byKey);
    forall g | g in after && g != u.projectId ensures u.id !in after[g] {
      assert byKey[u.id] == u.projectId;
    }
  }

  lemma AgreeRemove<G, K, V>(items: map<K, V>, groups: map<G, map<K, V>>, index: map<K, G>, k: K)
    requires Agree(items, groups, index)
    ensures Agree(items - {k}, Removed(groups, index, k).0, Removed(groups, index, k).1)
  {
  }

  lemma AgreeGroupRemoved<G, K, V>(items: map<K, V>, groups: map<G, map<K, V>>, index: map<K, G>, g: G)
    requires Agree(items, groups, index)
    ensures Agree(items - GroupItems(groups, g).Keys, GroupRemoved(groups, index, g).0, GroupRemoved(groups, index, g).1)
  {
    var r := GroupRemoved(groups, index, g);
    forall j | j in items && j !in GroupItems(groups, g)
      ensures r.1[j] in r.0 && j in r.0[r.1[j]] && r.0[r.1[j]][j] == items[j]
    {
      assert index[j] != g;
    }
  }

  /** A group holds exactly the entries of the keyed state that belong to it. */
  lemma GroupIsItsMembers<G, K, V>(items: map<K, V>, groups: map<G, map<K, V>>, index: map<K, G>, g: G, groupOf: V -> G, keyOf: V -> K)
    requires Agree(items, groups, index) && Consistent(groups, index) && Keyed(groups, groupOf, keyOf)
    ensures GroupItems(groups, g).Keys == set k | k in items && groupOf(items[k]) == g
    ensures forall k :: k in GroupItems(groups, g) ==> k in items && GroupItems(groups, g)[k] == items[k]
  {
  }

  /** The columns of the rows left by a delete are those the rows had. */
  lemma DeleteSessionRowsMirror(items: map<Uuid, Session>, rows: map<Uuid, Session>, gone: set<Uuid>)
    requires SessionsMirror(items, rows)
    ensures SessionsMirror(items - gone, DeleteSessionRows(rows, gone))
  {
  }

  /** The ids of the sessions in `items` that belong to the project. */
  ghost function ProjectSessionIds(items: map<Uuid, Session>, projectId: Uuid): set<Uuid>
  {
    set k | k in items && items[k].projectId == projectId
  }

  /** The ids of a list of sessions. */
  ghost function SessionIds(sessions: seq<Session>): set<Uuid>
  {
    if sessions == [] then {} else SessionIds(sessions[..|sessions| - 1]) + {sessions[|sessions| - 1].id}
  }

  lemma {:induction false} SessionIdsAre(sessions: seq<Session>)
    ensures SessionIds(sessions) == set j | 0 <= j < |sessions| :: sessions[j].id
  {
    if sessions != [] {
      var n := |sessions| - 1;
      SessionIdsAre(sessions[..n]);
      assert (set j | 0 <= j < |sessions| :: sessions[j].id) == (set j | 0 <= j < n :: sessions[..n][j].id) + {sessions[n].id};
    }
  }

  /** `ListGroup` answers one session per key of the group, so removing each listed id
      removes the group's keys. */
  lemma ListedIds(sessions: seq<Session>, group: map<Uuid, Session>, le: (Session, Session) -> bool)
    requires Listing(sessions, group, le) && StoredUnderKey(group, SessionKey)
    ensures (set j | 0 <= j < |sessions| :: sessions[j].id) == group.Keys
  {
    KeyedBagKeys(sessions, group, SessionKey);
    assert (set j | 0 <= j < |sessions| :: sessions[j].id) == (set j | 0 <= j < |sessions| :: SessionKey(sessions[j]));
  }

  /** What `list_group` answers for a project: its sessions, as the keyed state holds them. */
  lemma ListedSessions(listed: seq<Session>, items: map<Uuid, Session>, groups: map<Uuid, map<Uuid, Session>>, index: map<Uuid, Uuid>, projectId: Uuid)
    requires Listing(listed, GroupItems(groups, projectId), SessionOrder())
    requires Agree(items, groups, index) && Consistent(groups, index) && Keyed(groups, SessionProject, SessionKey)
    ensures forall i :: 0 <= i < |listed| ==> listed[i].projectId == projectId && listed[i].id in items && listed[i] == items[listed[i].id]
    ensures (set i | 0 <= i < |listed| :: listed[i].id) == ProjectSessionIds(items, projectId)
  {
    var group := GroupItems(groups, projectId);
    KeyedBagKeys(listed, group, SessionKey);
    ListedIds(listed, group, SessionOrder());
    GroupIsItsMembers(items, groups, index, projectId, SessionProject, SessionKey);
  }

  /** Mirrored sessions belong to the projects their rows name. */
  lemma MirroredProjectSessions(items: map<Uuid, Session>, rows: map<Uuid, Session>, projectId: Uuid)
    requires SessionsMirror(items, rows)
    ensures ProjectSessionIds(items, projectId) == SessionsOfProject(rows, projectId)
  {
    forall k | k in items ensures items[k].projectId == rows[k].projectId {
      assert SessionColumns(items[k]).projectId == SessionColumns(rows[k]).projectId;
    }
  }

  /** What `new` seeds the states with: the listed projects are the project rows, keyed by
      id; distinct session ids seed agreeing session states; and sessions listed from the
      table are its rows, keyed by id. */
  lemma SeedsFromTables(projects: seq<Project>, sessions: seq<Session>, t: Tables)
    requires multiset(projects) == ValueBag(t.projects)
    ensures Database.Valid(t) ==> KeysDistinct(projects, ProjectKey) && Indexed(projects, ProjectKey) == t.projects
    ensures KeysDistinct(sessions, SessionKey) ==>
      Agree(Indexed(sessions, SessionKey), Seeded(sessions, SessionProject, SessionKey).0, Seeded(sessions, SessionProject, SessionKey).1)
    ensures Database.Valid(t) && multiset(sessions) == ValueBag(t.sessions) ==>
      KeysDistinct(sessions, SessionKey) && Indexed(sessions, SessionKey) == t.sessions
  {
    if Database.Valid(t) {
      KeyedBagKeys(projects, t.projects, ProjectKey);
      IndexedListing(projects, t.projects, ProjectKey);
    }
    if KeysDistinct(sessions, SessionKey) {
      SeededAgrees(sessions, SessionProject, SessionKey);
    }
    if Database.Valid(t) && multiset(sessions) == ValueBag(t.sessions) {
      KeyedBagKeys(sessions, t.sessions, SessionKey);
      IndexedListing(sessions, t.sessions, SessionKey);
    }
  }

  // ---------------------------------------------------------------------------
  // Each write keeps the states a mirror of the tables

  lemma CreateSessionMirrors(items: map<Uuid, Session>, t: Tables, s: Session, harness: Result<(), string>, o: TxOutcomes)
    requires Database.Valid(t) && SessionsMirror(items, t.sessions)
    ensures CreateInTransaction(t, s, harness, o).1.Success? ==>
      var (after, created) := CreateInTransaction(t, s, harness, o);
      Database.Valid(after) && after.projects == t.projects && created.value.id == s.id &&
      SessionsMirror(items[s.id := created.value], after.sessions)
    ensures CreateInTransaction(t, s, harness, o).1.Failure? && o.dropRollback.Success? ==>
      CreateInTransaction(t, s, harness, o).0 == t
  {
    var r := CreateInTransaction(t, s, harness, o);
    if r.1.Success? {
      CreateSessionValid(t, s);
      InsertedMirrors(items, t.sessions, SessionColumns(s));
    } else if o.dropRollback.Success? {
      CreateInTransactionAtomic(t, s, harness, o);
    }
  }

  /** Storing one row in both keeps the mirror. */
  lemma InsertedMirrors(items: map<Uuid, Session>, rows: map<Uuid, Session>, row: Session)
    requires SessionsMirror(items, rows)
    ensures SessionsMirror(items[row.id := row], rows[row.id := row])
  {
  }

  lemma UpdateSessionMirrors(items: map<Uuid, Session>, t: Tables, s: Session, now: Timestamp)
    requires SessionsMirror(items, t.sessions)
    requires s.id in t.sessions ==> t.sessions[s.id].id == s.id
    ensures var (after, updated) := Database.UpdateSession(t, s, now);
      after.projects == t.projects &&
      (updated.Success? ==> updated.value.id == s.id && SessionsMirror(items[s.id := updated.value], after.sessions))
  {
    var (after, updated) := Database.UpdateSession(t, s, now);
    if updated.Success? {
      var stored := items[s.id := updated.value];
      assert updated.value == SessionColumns(after.sessions[s.id]);
      forall k | k in stored ensures SessionColumns(stored[k]) == SessionColumns(after.sessions[k]) {
        if k != s.id {
          assert after.sessions[k] == t.sessions[k];
        }
      }
    }
  }

  lemma DeleteSessionMirrors(items: map<Uuid, Session>, t: Tables, id: Uuid)
    requires Database.Valid(t) && SessionsMirror(items, t.sessions)
    ensures var (after, deleted) := Database.DeleteSession(t, id);
      Database.Valid(after) && after.projects == t.projects &&
      (deleted.Success? ==> SessionsMirror(items - {id}, after.sessions))
  {
    DeleteSessionValid(t, id);
    DeleteSessionRowsMirror(items, t.sessions, {id});
  }

  /** The sessions the states drop for a deleted project are those the cascade deletes. */
  lemma DeleteProjectMirrors(items: map<Uuid, Session>, t: Tables, id: Uuid, gone: set<Uuid>)
    requires Database.Valid(t) && SessionsMirror(items, t.sessions)
    requires gone == ProjectSessionIds(items, id)
    ensures var (after, deleted) := Database.DeleteProject(t, id);
      Database.Valid(after) &&
      (deleted.Success? ==> after.projects == t.projects - {id} && SessionsMirror(items - gone, after.sessions))
  {
    DeleteProjectValid(t, id);
    MirroredProjectSessions(items, t.sessions, id);
    DeleteSessionRowsMirror(items, t.sessions, gone);
  }

  // ---------------------------------------------------------------------------
  // The backend

  class Backend {
    const projectRepo: ProjectRepo
    const sessionRepo: TransactionalSessionRepo
    const projectState: EntityState<Uuid, Project>
    const sessionState: EntityState<Uuid, Session>
    const sessionsByProject: GroupedState<Uuid, Uuid, Session>

    /** The states are keyed and ordered as `new` builds them, each keeps its own invariant,
        and the two session states hold the same sessions. */
    ghost predicate Valid()
      reads this, projectState, sessionState, sessionsByProject
    {
      sessionRepo.db == projectRepo.db && projectState as object != sessionState as object &&
      ProjectsValid() && SessionsValid()
    }

    ghost predicate ProjectsValid()
      reads this, projectState
    {
      projectState.keyOf == ProjectKey && projectState.le == ProjectOrder() &&
      TotalPreorder(ProjectOrder()) && projectState.Valid()
    }

    ghost predicate SessionsValid()
      reads this, sessionState, sessionsByProject
    {
      sessionState.keyOf == SessionKey && sessionState.le == SessionOrder() &&
      sessionsByProject.groupOf == SessionProject && sessionsByProject.keyOf == SessionKey &&
      sessionsByProject.le == SessionOrder() && TotalPreorder(SessionOrder()) &&
      sessionState.Valid() && sessionsByProject.Valid() &&
      Agree(sessionState.items, sessionsByProject.groups, sessionsByProject.index)
    }

    /** The tables keep their constraints and the states hold what they hold. */
    ghost predicate Mirrors()
      reads this, projectState, sessionState, projectRepo.db
    {
      Database.Valid(projectRepo.db.tables) &&
      projectState.items == projectRepo.db.tables.projects &&
      SessionsMirror(sessionState.items, projectRepo.db.tables.sessions)
    }

    /** `new`, after the connection and the harness: the projects the repository lists seed
        the project state, and `initialSessions` (what listing every session answers) seeds
        both session states. */
    constructor (db: Sqlite, initialSessions: seq<Session>)
      ensures projectRepo.db == db && sessionRepo.db == db
      ensures fresh(projectState) && fresh(sessionState) && fresh(sessionsByProject)
      ensures projectState.watchers == map[] && sessionState.watchers == map[] && sessionsByProject.senders == map[]
      ensures Database.Valid(db.tables) ==> projectState.items == db.tables.projects
      ensures sessionState.items == Indexed(initialSessions, SessionKey)
      ensures (sessionsByProject.groups, sessionsByProject.index) == Seeded(initialSessions, SessionProject, SessionKey)
      ensures Database.Valid(db.tables) && KeysDistinct(initialSessions, SessionKey) ==> Valid()
      ensures Database.Valid(db.tables) && multiset(initialSessions) == ValueBag(db.tables.sessions) ==> Valid() && Mirrors()
    {
      var repo := new ProjectRepo(db);
      var listed := repo.List();
      OrdersArePreorders();
      projectRepo := repo;
      sessionRepo := new TransactionalSessionRepo(db);
      projectState := new EntityState("projects", listed.value, ProjectKey, ProjectOrder());
      sessionState := new EntityState("sessions", initialSessions, SessionKey, SessionOrder());
      sessionsByProject := new GroupedState("sessions_by_project", initialSessions, SessionProject, SessionKey, SessionOrder());
      new;
      SeedsFromTables(listed.value, initialSessions, db.tables);
    }

    // -------------------------------------------------------------------------
    // Subscriptions

    /** `subscribe_projects`: the all-projects watcher, which holds the projects newest first. */
    method SubscribeProjects() returns (r: Result<seq<Project>, BackendError>)
      requires Valid()
      ensures r.Success? && Listing(r.value, projectState.items, ProjectOrder())
      ensures Mirrors() ==> multiset(r.value) == ValueBag(projectRepo.db.tables.projects) && SortedBy(r.value, ProjectNewerFirst())
    {
      var all := projectState.SubscribeAll();
      OrdersNewestFirst();
      SortedByEquivalent(all, ProjectOrder(), ProjectNewerFirst());
      r := Success(all);
    }

    /** `subscribe_project`: a watcher of one project, holding it or none. */
    method SubscribeProject(projectId: Uuid) returns (r: Result<Option<Project>, BackendError>)
      requires Valid()
      modifies projectState
      ensures projectState.items == old(projectState.items) && projectState.all == old(projectState.all)
      ensures projectId in old(projectState.watchers) ==> projectState.watchers == old(projectState.watchers)
      ensures projectId !in old(projectState.watchers) ==>
        projectState.watchers == old(projectState.watchers)[projectId := Lookup(projectState.items, projectId)]
      ensures r == Success(Lookup(projectState.items, projectId))
      ensures Valid()
      ensures old(Mirrors()) ==> Mirrors() && r == Success(Database.GetProject(projectRepo.db.tables, projectId))
    {
      var watched := projectState.SubscribeOne(projectId, {});
      r := FromState(watched);
    }

    /** `subscribe_sessions_by_project`: the watcher of one project's sessions, newest first. */
    method SubscribeSessionsByProject(projectId: Uuid) returns (r: Result<seq<Session>, BackendError>)
      requires Valid()
      modifies sessionsByProject
      ensures sessionsByProject.groups == old(sessionsByProject.groups) && sessionsByProject.index == old(sessionsByProject.index)
      ensures forall g :: g in old(sessionsByProject.senders) ==> g in sessionsByProject.senders && sessionsByProject.senders[g] == old(sessionsByProject.senders)[g]
      ensures projectId in sessionsByProject.senders
      ensures r.Success? && r.value == sessionsByProject.senders[projectId]
      ensures Listing(r.value, GroupItems(sessionsByProject.groups, projectId), SessionOrder())
      ensures forall i :: 0 <= i < |r.value| ==> r.value[i].projectId == projectId
      ensures Valid()
    {
      var watched := sessionsByProject.SubscribeGroup(projectId, {});
      r := FromState(watched);
      KeyedBagKeys(r.value, GroupItems(sessionsByProject.groups, projectId), SessionKey);
    }

    /** `subscribe_session`: a watcher of one session, holding it or none. */
    method SubscribeSession(sessionId: Uuid) returns (r: Result<Option<Session>, BackendError>)
      requires Valid()
      modifies sessionState
      ensures sessionState.items == old(sessionState.items) && sessionState.all == old(sessionState.all)
      ensures sessionId in old(sessionState.watchers) ==> sessionState.watchers == old(sessionState.watchers)
      ensures sessionId !in old(sessionState.watchers) ==>
        sessionState.watchers == old(sessionState.watchers)[sessionId := Lookup(sessionState.items, sessionId)]
      ensures r == Success(Lookup(sessionState.items, sessionId))
      ensures Valid()
      ensures old(Mirrors()) ==> Mirrors()
    {
      var watched := sessionState.SubscribeOne(sessionId, {});
      r := FromState(watched);
    }

    // -------------------------------------------------------------------------
    // Reads, answered from the states

    /** `list_projects`: what the project repository would list, read from memory. */
    method ListProjects() returns (r: Result<seq<Project>, BackendError>)
      requires Valid()
      ensures r.Success? && Listing(r.value, projectState.items, ProjectOrder())
      ensures Mirrors() ==> multiset(r.value) == ValueBag(projectRepo.db.tables.projects) && SortedBy(r.value, ProjectNewerFirst())
    {
      var listed := projectState.List({});
      r := FromState(listed);
      OrdersNewestFirst();
      SortedByEquivalent(r.value, ProjectOrder(), ProjectNewerFirst());
    }

    /** `get_project`: what the project repository would answer, read from memory. */
    method GetProject(projectId: Uuid) returns (r: Result<Option<Project>, BackendError>)
      requires Valid()
      ensures r == Success(Lookup(projectState.items, projectId))
      ensures Mirrors() ==> r == Success(Database.GetProject(projectRepo.db.tables, projectId))
    {
      var found := projectState.Get(projectId, {});
      r := FromState(found);
    }

    /** `list_sessions_by_project`: the project's sessions newest first, one per stored row of
        the project. */
    method ListSessionsByProject(projectId: Uuid) returns (r: Result<seq<Session>, BackendError>)
      requires Valid()
      ensures r.Success? && Listing(r.value, GroupItems(sessionsByProject.groups, projectId), SessionOrder())
      ensures forall i :: 0 <= i < |r.value| ==> r.value[i].projectId == projectId && r.value[i].id in sessionState.items && r.value[i] == sessionState.items[r.value[i].id]
      ensures SortedBy(r.value, SessionNewerFirst())
      ensures Mirrors() ==> (set i | 0 <= i < |r.value| :: r.value[i].id) == SessionsOfProject(projectRepo.db.tables.sessions, projectId)
    {
      var listed := sessionsByProject.ListGroup(projectId, {});
      r := FromState(listed);
      OrdersNewestFirst();
      SortedByEquivalent(r.value, SessionOrder(), SessionNewerFirst());
      ListedSessions(r.value, sessionState.items, sessionsByProject.groups, sessionsByProject.index, projectId);
      if Mirrors() {
        MirroredProjectSessions(sessionState.items, projectRepo.db.tables.sessions, projectId);
      }
    }

    /** `get_session`: read from memory, it agrees with the stored row on its six columns. */
    method GetSession(sessionId: Uuid) returns (r: Result<Option<Session>, BackendError>)
      requires Valid()
      ensures r == Success(Lookup(sessionState.items, sessionId))
      ensures Mirrors() ==>
        (r.value.Some? <==> sessionId in projectRepo.db.tables.sessions) &&
        (r.value.Some? ==> SessionColumns(r.value.value) == Database.GetSession(projectRepo.db.tables, sessionId).value)
    {
      var found := sessionState.Get(sessionId, {});
      r := FromState(found);
    }

    // -------------------------------------------------------------------------
    // Writes: the repository first, then the states

    /** `create_project`: a project the repository refuses leaves the state alone; a stored one
        is upserted into it. */
    method CreateProject(p: Project) returns (r: Result<Project, BackendError>)
      requires Valid()
      modifies projectRepo.db, projectState
      ensures projectRepo.db.tables == Database.CreateProject(old(projectRepo.db.tables), p).0
      ensures r.Success? <==> Database.CreateProject(old(projectRepo.db.tables), p).1.Success?
      ensures r.Failure? ==>
        r.error == ProjectRepoFailed(ProjectDatabaseError(Database.CreateProject(old(projectRepo.db.tables), p).1.error)) &&
        unchanged(projectState)
      ensures r.Success? ==> r.value == p && projectState.items == old(projectState.items)[p.id := p]
      ensures Valid()
      ensures old(Mirrors()) ==> Mirrors()
    {
      if Mirrors() {
        CreateProjectValid(projectRepo.db.tables, p);
      }
      var created := projectRepo.Create(p);
      if created.Failure? {
        return Failure(ProjectRepoFailed(created.error));
      }
      var stored := projectState.Upsert(created.value, {});
      r := Success(created.value);
    }

    /** `update_project`: name and dir are rewritten and `updated_at` set to the clock's `now`
        in the table, and the row as stored replaces the state's copy. */
    method UpdateProject(p: Project, now: Timestamp) returns (r: Result<Project, BackendError>)
      requires Valid()
      modifies projectRepo.db, projectState
      ensures projectRepo.db.tables == Database.UpdateProject(old(projectRepo.db.tables), p, now).0
      ensures r.Success? <==> Database.UpdateProject(old(projectRepo.db.tables), p, now).1.Success?
      ensures r.Failure? ==>
        r.error == ProjectRepoFailed(ProjectDatabaseError(Database.UpdateProject(old(projectRepo.db.tables), p, now).1.error)) &&
        unchanged(projectState)
      ensures r.Success? ==>
        r.value == Database.UpdateProject(old(projectRepo.db.tables), p, now).1.value &&
        r.value.updatedAt == now &&
        projectState.items == old(projectState.items)[r.value.id := r.value]
      ensures Valid()
      ensures old(Mirrors()) ==> Mirrors()
    {
      if Mirrors() {
        UpdateProjectValid(projectRepo.db.tables, p, now);
      }
      var updated := projectRepo.Update(p, now);
      if updated.Failure? {
        return Failure(ProjectRepoFailed(updated.error));
      }
      var stored := projectState.Upsert(updated.value, {});
      r := Success(updated.value);
    }

    /** `delete_project`: the row goes, and with it, by the foreign key's cascade, its
        sessions; the states drop the project, each session the project's group lists, and
        the group. */
    method DeleteProject(projectId: Uuid) returns (r: Result<(), BackendError>)
      requires Valid()
      modifies projectRepo.db, projectState, sessionState, sessionsByProject
      ensures projectRepo.db.tables == Database.DeleteProject(old(projectRepo.db.tables), projectId).0
      ensures r.Success? <==> Database.DeleteProject(old(projectRepo.db.tables), projectId).1.Success?
      ensures r.Failure? ==>
        r.error == ProjectRepoFailed(ProjectDatabaseError(Database.DeleteProject(old(projectRepo.db.tables), projectId).1.error)) &&
        unchanged(projectState, sessionState, sessionsByProject)
      ensures r.Success? ==>
        projectState.items == old(projectState.items) - {projectId} &&
        sessionState.items == old(sessionState.items) - ProjectSessionIds(old(sessionState.items), projectId) &&
        sessionsByProject.groups == old(sessionsByProject.groups) - {projectId} &&
        projectId !in sessionsByProject.senders
      ensures Valid()
      ensures old(Mirrors()) ==> Mirrors()
    {
      GroupIsItsMembers(sessionState.items, sessionsByProject.groups, sessionsByProject.index, projectId, SessionProject, SessionKey);
      ghost var gone := GroupItems(sessionsByProject.groups, projectId).Keys;
      assert gone == ProjectSessionIds(sessionState.items, projectId);
      if Mirrors() {
        DeleteProjectMirrors(sessionState.items, projectRepo.db.tables, projectId, gone);
      }
      var deleted := projectRepo.Delete(projectId);
      if deleted.Failure? {
        return Failure(ProjectRepoFailed(deleted.error));
      }
      var removedProject := projectState.Remove(projectId, {});
      DropProjectSessions(projectId);
      r := Success(());
    }

    /** The tail of `delete_project`: each session the project's group lists leaves the keyed
        state, then the group goes. */
    method DropProjectSessions(projectId: Uuid)
      requires SessionsValid()
      modifies sessionState, sessionsByProject
      ensures sessionState.items == old(sessionState.items) - GroupItems(old(sessionsByProject.groups), projectId).Keys
      ensures sessionsByProject.groups == old(sessionsByProject.groups) - {projectId}
      ensures projectId !in sessionsByProject.senders
      ensures SessionsValid()
    {
      var listed := sessionsByProject.ListGroup(projectId, {});
      var sessions := listed.value;
      var group := GroupItems(sessionsByProject.groups, projectId);
      ListedIds(sessions, group, SessionOrder());
      SessionIdsAre(sessions);
      AgreeGroupRemoved(sessionState.items, sessionsByProject.groups, sessionsByProject.index, projectId);
      RemoveSessions(sessions);
      var removedGroup := sessionsByProject.RemoveGroup(projectId, {});
    }

    /** The loop of `delete_project`: each listed session leaves the keyed state in turn. */
    method RemoveSessions(sessions: seq<Session>)
      requires sessionState.Valid() && TotalPreorder(sessionState.le)
      modifies sessionState
      ensures sessionState.items == old(sessionState.items) - SessionIds(sessions)
      ensures sessionState.Valid()
    {
      var i := 0;
      ghost var removed: set<Uuid> := {};
      while i < |sessions|
        invariant 0 <= i <= |sessions|
        invariant removed == SessionIds(sessions[..i])
        invariant sessionState.items == old(sessionState.items) - removed
        invariant sessionState.Valid()
      {
        var removedSession := sessionState.Remove(sessions[i].id, {});
        RemoveMore(old(sessionState.items), removed, sessions[i].id);
        removed := removed + {sessions[i].id};
        assert sessions[..i + 1][..i] == sessions[..i];
        i := i + 1;
      }
      assert sessions[..i] == sessions;
    }

    /** The two upserts a session write ends with: into the keyed state, then into the grouped
        one, which files the session under its project only. */
    method StoreSession(u: Session)
      requires SessionsValid()
      modifies sessionState, sessionsByProject
      ensures sessionState.items == old(sessionState.items)[u.id := u]
      ensures u.projectId in sessionsByProject.groups && u.id in sessionsByProject.groups[u.projectId]
      ensures sessionsByProject.groups[u.projectId][u.id] == u
      ensures forall g :: g in sessionsByProject.groups && g != u.projectId ==> u.id !in sessionsByProject.groups[g]
      ensures SessionsValid()
    {
      ghost var items, groups, index := sessionState.items, sessionsByProject.groups, sessionsByProject.index;
      var stored := sessionState.Upsert(u, {});
      var grouped := sessionsByProject.Upsert(u, {});
      UpsertedSession(items, groups, index, u);
    }

    /** `create_session`: the session is inserted in a transaction the harness must approve;
        the row `create` returns is upserted into both session states. */
    method CreateSession(s: Session, harness: Result<(), string>, o: TxOutcomes) returns (r: Result<Session, BackendError>)
      requires Valid()
      modifies projectRepo.db, sessionState, sessionsByProject
      ensures r.Failure? ==> r.error.SessionRepoFailed? && unchanged(sessionState, sessionsByProject)
      ensures (projectRepo.db.tables, FromRepo(r)) == CreateInTransaction(old(projectRepo.db.tables), s, harness, o)
      ensures r.Success? ==>
        r.value == SessionColumns(s) &&
        sessionState.items == old(sessionState.items)[s.id := r.value] &&
        s.projectId in sessionsByProject.groups && s.id in sessionsByProject.groups[s.projectId] &&
        sessionsByProject.groups[s.projectId][s.id] == r.value
      ensures Valid()
      ensures old(Mirrors()) && (r.Success? || o.dropRollback.Success?) ==> Mirrors()
    {
      if Mirrors() {
        CreateSessionMirrors(sessionState.items, projectRepo.db.tables, s, harness, o);
      }
      var created := sessionRepo.Create(s, harness, o);
      if created.Failure? {
        return Failure(SessionRepoFailed(created.error));
      }
      StoreSession(created.value);
      r := Success(created.value);
    }

    /** `update_session`: project, visibility and name are rewritten and `updated_at` set to
        the clock's `now` in the table; the returned row is upserted into both session states,
        moving it to its new project's group. */
    method UpdateSession(s: Session, now: Timestamp) returns (r: Result<Session, BackendError>)
      requires Valid()
      modifies projectRepo.db, sessionState, sessionsByProject
      ensures projectRepo.db.tables == Database.UpdateSession(old(projectRepo.db.tables), s, now).0
      ensures r.Success? <==> Database.UpdateSession(old(projectRepo.db.tables), s, now).1.Success?
      ensures r.Failure? ==>
        r.error == SessionRepoFailed(SessionDatabaseError(Database.UpdateSession(old(projectRepo.db.tables), s, now).1.error)) &&
        unchanged(sessionState, sessionsByProject)
      ensures r.Success? ==>
        r.value == Database.UpdateSession(old(projectRepo.db.tables), s, now).1.value &&
        r.value.projectId == s.projectId && r.value.updatedAt == now &&
        sessionState.items == old(sessionState.items)[r.value.id := r.value] &&
        s.projectId in sessionsByProject.groups && r.value.id in sessionsByProject.groups[s.projectId] &&
        sessionsByProject.groups[s.projectId][r.value.id] == r.value &&
        (forall g :: g in sessionsByProject.groups && g != s.projectId ==> r.value.id !in sessionsByProject.groups[g])
      ensures Valid()
      ensures old(Mirrors()) ==> Mirrors()
    {
      if Mirrors() {
        UpdateSessionValid(projectRepo.db.tables, s, now);
        UpdateSessionMirrors(sessionState.items, projectRepo.db.tables, s, now);
      }
      var updated := sessionRepo.Update(s, now);
      if updated.Failure? {
        return Failure(SessionRepoFailed(updated.error));
      }
      StoreSession(updated.value);
      r := Success(updated.value);
    }

    /** `delete_session`: the row goes (its children lose their parent link), then the session
        leaves both states. */
    method DeleteSession(sessionId: Uuid) returns (r: Result<(), BackendError>)
      requires Valid()
      modifies projectRepo.db, sessionState, sessionsByProject
      ensures projectRepo.db.tables == Database.DeleteSession(old(projectRepo.db.tables), sessionId).0
      ensures r.Success? <==> Database.DeleteSession(old(projectRepo.db.tables), sessionId).1.Success?
      ensures r.Failure? ==>
        r.error == SessionRepoFailed(SessionDatabaseError(Database.DeleteSession(old(projectRepo.db.tables), sessionId).1.error)) &&
        unchanged(sessionState, sessionsByProject)
      ensures r.Success? ==>
        sessionState.items == old(sessionState.items) - {sessionId} &&
        (forall g :: g in sessionsByProject.groups ==> sessionId !in sessionsByProject.groups[g]) &&
        sessionId !in sessionsByProject.index
      ensures Valid()
      ensures old(Mirrors()) ==> Mirrors()
    {
      if Mirrors() {
        DeleteSessionMirrors(sessionState.items, projectRepo.db.tables, sessionId);
      }
      var deleted := sessionRepo.Delete(sessionId);
      if deleted.Failure? {
        return Failure(SessionRepoFailed(deleted.error));
      }
      AgreeRemove(sessionState.items, sessionsByProject.groups, sessionsByProject.index, sessionId);
      RemoveKeeps(sessionsByProject.groups, sessionsByProject.index, sessionId, SessionProject, SessionKey);
      var removed := sessionState.Remove(sessionId, {});
      var ungrouped := sessionsByProject.Remove(sessionId, {});
      r := Success(());
    }
  }

  /** A backend result as the session repository gave it. */
  function FromRepo<T>(r: Result<T, BackendError>): (w: Result<T, SessionRepoError>)
    requires r.Failure? ==> r.error.SessionRepoFailed?
    ensures w.Success? <==> r.Success?
    ensures r.Success? ==> w.value == r.value
    ensures r.Failure? ==> w.error == r.error.sessionError
  {
    match r
    case Success(v) => Success(v)
    case Failure(e) => Failure(e.sessionError)
  }
}
