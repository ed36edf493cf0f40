/**
 * The sync-engine client: the same client store as the live-query client, with one
 * in-flight flag or set per kind of query, optimistic local updates before each
 * mutation call, and the reducer `apply_store_message`.
 *
 * A call's outcome arrives as a two-level result: the outer error is the transport's,
 * the inner one the backend's; both are reported alike.
 */
module SyncEngine {
  import opened Wrappers
  import opened Domain
  import opened Seqs
  import opened ClientStore

  /** What is being loaded: the project list, and the projects, session lists and sessions by id. */
  datatype InFlight = InFlight(projects: bool, project: set<Uuid>, sessionsByProject: set<Uuid>, session: set<Uuid>)

  const NothingInFlight := InFlight(false, {}, {}, {})

  /** The in-flight marks, as query keys. */
  function Keys(f: InFlight): (ks: set<QueryKey>)
    ensures ProjectsQuery in ks <==> f.projects
    ensures forall id :: ProjectQuery(id) in ks <==> id in f.project
    ensures forall id :: SessionsByProjectQuery(id) in ks <==> id in f.sessionsByProject
    ensures forall id :: SessionQuery(id) in ks <==> id in f.session
  {
    (if f.projects then {ProjectsQuery} else {})
      + (set id | id in f.project :: ProjectQuery(id))
      + (set id | id in f.sessionsByProject :: SessionsByProjectQuery(id))
      + (set id | id in f.session :: SessionQuery(id))
  }

  // ---------------------------------------------------------------------------
  // The reducer

  /** `apply_store_message`: the store changes as the shared store update says, except that a
      project-list error is ignored unless a list load is in flight; each loaded or failed
      query clears its in-flight mark, as does a session deletion. */
  function SyncApply(v: StoreValue, f: InFlight, msg: StoreMessage): (r: (StoreValue, InFlight))
    ensures msg.ProjectError? && msg.errorId.None? && !f.projects ==> r == (v, f)
    ensures !(msg.ProjectError? && msg.errorId.None? && !f.projects) ==> r.0 == ApplyMessage(v, msg).0
    ensures Keys(r.1) <= Keys(f)
  {
    match msg
    case ProjectsLoaded(_) => (ApplyMessage(v, msg).0, f.(projects := false))
    case ProjectLoaded(id, _) => (ApplyMessage(v, msg).0, f.(project := f.project - {id}))
    case ProjectUpserted(_) => (ApplyMessage(v, msg).0, f)
    case ProjectDeleted(_) => (ApplyMessage(v, msg).0, f)
    case ProjectError(Some(id), _) => (ApplyMessage(v, msg).0, f.(project := f.project - {id}))
    case ProjectError(None, _) =>
      if f.projects then (ApplyMessage(v, msg).0, f.(projects := false)) else (v, f)
    case SessionsByProjectLoaded(pid, _) => (ApplyMessage(v, msg).0, f.(sessionsByProject := f.sessionsByProject - {pid}))
    case SessionLoaded(id, _) => (ApplyMessage(v, msg).0, f.(session := f.session - {id}))
    case SessionUpserted(_) => (ApplyMessage(v, msg).0, f)
    case SessionDeleted(id) => (ApplyMessage(v, msg).0, f.(session := f.session - {id}))
    case SessionError(pid, sid, _) =>
      (ApplyMessage(v, msg).0,
       f.(sessionsByProject := if pid.Some? then f.sessionsByProject - {pid.value} else f.sessionsByProject,
          session := if sid.Some? then f.session - {sid.value} else f.session))
  }

  /** The in-flight marks this reducer clears are the keys the live-query reducer completes,
      except that a project deletion clears nothing here. */
  lemma SyncClearsCompletedKeys(v: StoreValue, f: InFlight, msg: StoreMessage)
    ensures !msg.ProjectDeleted? ==> Keys(SyncApply(v, f, msg).1) == Keys(f) - (set k | k in ApplyMessage(v, msg).1)
    ensures msg.ProjectDeleted? ==> SyncApply(v, f, msg).1 == f
  {
    var after := Keys(SyncApply(v, f, msg).1);
    ApplyMessageCompletes(v, msg);
    var expected := Keys(f) - (set k | k in CompletedKeys(msg));
    if !msg.ProjectDeleted? {
      forall k ensures k in after <==> k in expected {
        match k
        case ProjectsQuery =>
        case ProjectQuery(id) =>
        case SessionsByProjectQuery(id) =>
        case SessionQuery(id) =>
      }
    }
  }

  /** A project-list error with no list load in flight is dropped; any other one shows. */
  lemma ProjectListErrorNeedsInFlight(v: StoreValue, f: InFlight, m: string)
    ensures !f.projects ==> SyncApply(v, f, ProjectError(None, m)) == (v, f)
    ensures f.projects ==> SyncApply(v, f, ProjectError(None, m)).0 == v.(projects := Error(m))
    ensures !SyncApply(v, f, ProjectError(None, m)).1.projects
  {
  }

  /** Apply the drained messages in order. */
  function SyncApplyAll(v: StoreValue, f: InFlight, msgs: seq<StoreMessage>): (StoreValue, InFlight)
    decreases |msgs|
  {
    if msgs == [] then (v, f)
    else
      var before := SyncApplyAll(v, f, msgs[..|msgs| - 1]);
      SyncApply(before.0, before.1, msgs[|msgs| - 1])
  }

  lemma SyncApplyAllPrefix(v: StoreValue, f: InFlight, msgs: seq<StoreMessage>, i: nat)
    requires i < |msgs|
    ensures var before := SyncApplyAll(v, f, msgs[..i]);
      SyncApplyAll(v, f, msgs[..i + 1]) == SyncApply(before.0, before.1, msgs[i])
  {
    assert msgs[..i + 1][..i] == msgs[..i];
  }

  /** The reducer only clears in-flight marks, never sets one. */
  lemma {:induction false} SyncApplyAllShrinks(v: StoreValue, f: InFlight, msgs: seq<StoreMessage>)
    ensures Keys(SyncApplyAll(v, f, msgs).1) <= Keys(f)
    decreases |msgs|
  {
    if msgs != [] {
      var before := SyncApplyAll(v, f, msgs[..|msgs| - 1]);
      SyncApplyAllShrinks(v, f, msgs[..|msgs| - 1]);
      var last := msgs[|msgs| - 1];
      SyncClearsCompletedKeys(before.0, before.1, last);
    }
  }

  // ---------------------------------------------------------------------------
  // Optimistic local updates

  /** `create_session` before its call: cache the session as loaded and index it under its
      project, without taking it out of any other list and without re-sorting. */
  function CreateSessionLocally(v: StoreValue, s: Session): (r: StoreValue)
    ensures SessionView(r, s.id) == Ready(Some(s))
    ensures r.projects == v.projects && r.projectsById == v.projectsById && r.projectStates == v.projectStates
    ensures r.sessionsByProjectStates == IndexInsert(v.sessionsByProjectStates, s.projectId, s.id)
    ensures IndexNoDup(v.sessionsByProjectStates) ==> IndexNoDup(r.sessionsByProjectStates)
  {
    v.(sessionsById := v.sessionsById[s.id := s],
       sessionStates := v.sessionStates[s.id := Ready(Some(s))],
       sessionsByProjectStates := IndexInsert(v.sessionsByProjectStates, s.projectId, s.id))
  }

  /** `update_session` before its call: as `create_session`, after first taking the cached
      copy out of its project's list. */
  function UpdateSessionLocally(v: StoreValue, s: Session): (r: StoreValue)
    ensures SessionView(r, s.id) == Ready(Some(s))
    ensures r.projects == v.projects && r.projectsById == v.projectsById && r.projectStates == v.projectStates
    ensures IndexNoDup(v.sessionsByProjectStates) ==> IndexNoDup(r.sessionsByProjectStates)
  {
    var index := if s.id in v.sessionsById then
        var existing := v.sessionsById[s.id];
        IndexRemove(v.sessionsByProjectStates, existing.projectId, existing.id)
      else v.sessionsByProjectStates;
    CreateSessionLocally(v.(sessionsByProjectStates := index), s)
  }

  /** The optimistic update is the store's session upsert without its final re-sort, and for
      a session not cached yet it is the optimistic creation. */
  lemma UpdateSessionLocallyIsUnsortedUpsert(v: StoreValue, s: Session)
    ensures SortSessions(UpdateSessionLocally(v, s), s.projectId) == PutSession(v, s)
    ensures s.id !in v.sessionsById ==> UpdateSessionLocally(v, s) == CreateSessionLocally(v, s)
  {
  }

  /** A created session shows in its project's loaded list, unless that list is still
      loading, and nowhere is it dropped from a list. */
  lemma CreatedSessionIsListed(v: StoreValue, s: Session)
    requires s.projectId in v.sessionsByProjectStates ==> !v.sessionsByProjectStates[s.projectId].Loading?
    ensures var r := CreateSessionLocally(v, s);
      r.sessionsByProjectStates[s.projectId].Ready? && s.id in r.sessionsByProjectStates[s.projectId].value
  {
  }

  // ---------------------------------------------------------------------------
  // Replies: what each call's task posts

  function ProjectsLoadReply(r: Result<Result<seq<Project>, string>, string>): (m: StoreMessage)
    ensures m.ProjectsLoaded? <==> r.Success? && r.value.Success?
    ensures !m.ProjectsLoaded? ==> m.ProjectError? && m.errorId.None?
  {
    match r
    case Success(Success(ps)) => ProjectsLoaded(ps)
    case Success(Failure(e)) => ProjectError(None, e)
    case Failure(e) => ProjectError(None, e)
  }

  function ProjectLoadReply(id: Uuid, r: Result<Result<Option<Project>, string>, string>): (m: StoreMessage)
    ensures m.ProjectLoaded? <==> r.Success? && r.value.Success?
    ensures m.ProjectLoaded? ==> m.id == id
    ensures !m.ProjectLoaded? ==> m.ProjectError? && m.errorId == Some(id)
  {
    match r
    case Success(Success(p)) => ProjectLoaded(id, p)
    case Success(Failure(e)) => ProjectError(Some(id), e)
    case Failure(e) => ProjectError(Some(id), e)
  }

  function SessionsLoadReply(projectId: Uuid, r: Result<Result<seq<Session>, string>, string>): (m: StoreMessage)
    ensures m.SessionsByProjectLoaded? <==> r.Success? && r.value.Success?
    ensures m.SessionsByProjectLoaded? ==> m.projectId == projectId
    ensures !m.SessionsByProjectLoaded? ==> m.SessionError? && m.errorProjectId == Some(projectId) && m.errorSessionId.None?
  {
    match r
    case Success(Success(ss)) => SessionsByProjectLoaded(projectId, ss)
    case Success(Failure(e)) => SessionError(Some(projectId), None, e)
    case Failure(e) => SessionError(Some(projectId), None, e)
  }

  function SessionLoadReply(id: Uuid, r: Result<Result<Option<Session>, string>, string>): (m: StoreMessage)
    ensures m.SessionLoaded? <==> r.Success? && r.value.Success?
    ensures m.SessionLoaded? ==> m.id == id
    ensures !m.SessionLoaded? ==> m.SessionError? && m.errorProjectId.None? && m.errorSessionId == Some(id)
  {
    match r
    case Success(Success(s)) => SessionLoaded(id, s)
    case Success(Failure(e)) => SessionError(None, Some(id), e)
    case Failure(e) => SessionError(None, Some(id), e)
  }

  function CreateProjectReply(r: Result<Result<Project, string>, string>): (m: StoreMessage)
    ensures m.ProjectUpserted? <==> r.Success? && r.value.Success?
    ensures m.ProjectUpserted? ==> m.upserted == r.value.value
    ensures !m.ProjectUpserted? ==> m.ProjectError? && m.errorId.None?
  {
    match r
    case Success(Success(created)) => ProjectUpserted(created)
    case Success(Failure(e)) => ProjectError(None, e)
    case Failure(e) => ProjectError(None, e)
  }

  function DeleteProjectReply(id: Uuid, r: Result<Result<(), string>, string>): (m: StoreMessage)
    ensures m == ProjectDeleted(id) <==> r.Success? && r.value.Success?
    ensures m != ProjectDeleted(id) ==> m.ProjectError? && m.errorId == Some(id)
  {
    match r
    case Success(Success(_)) => ProjectDeleted(id)
    case Success(Failure(e)) => ProjectError(Some(id), e)
    case Failure(e) => ProjectError(Some(id), e)
  }

  /** Both session creation and update report success with the stored session and a failure
      with no ids at all. */
  function UpsertSessionReply(r: Result<Result<Session, string>, string>): (m: StoreMessage)
    ensures m.SessionUpserted? <==> r.Success? && r.value.Success?
    ensures m.SessionUpserted? ==> m.upsertedSession == r.value.value
    ensures !m.SessionUpserted? ==> m.SessionError? && m.errorProjectId.None? && m.errorSessionId.None?
  {
    match r
    case Success(Success(s)) => SessionUpserted(s)
    case Success(Failure(e)) => SessionError(None, None, e)
    case Failure(e) => SessionError(None, None, e)
  }

  function DeleteSessionReply(id: Uuid, r: Result<Result<(), string>, string>): (m: StoreMessage)
    ensures m == SessionDeleted(id) <==> r.Success? && r.value.Success?
    ensures m != SessionDeleted(id) ==> m.SessionError? && m.errorProjectId.None? && m.errorSessionId == Some(id)
  {
    match r
    case Success(Success(_)) => SessionDeleted(id)
    case Success(Failure(e)) => SessionError(None, Some(id), e)
    case Failure(e) => SessionError(None, Some(id), e)
  }

  /** Once the backend confirms a project creation with the project as sent, applying the
      confirmation leaves the optimistic state as it was. */
  lemma CreatedProjectConfirmed(v: StoreValue, f: InFlight, p: Project)
    ensures SyncApply(PutProject(v, p), f, CreateProjectReply(Success(Success(p)))) == (PutProject(v, p), f)
  {
    PutProjectIdempotent(v, p);
  }

  /** A confirmed deletion leaves the optimistic state as it was. */
  lemma DeletedProjectConfirmed(v: StoreValue, f: InFlight, id: Uuid)
    ensures SyncApply(DropProject(v, id), f, DeleteProjectReply(id, Success(Success(())))) == (DropProject(v, id), f)
  {
    DropProjectIdempotent(v, id);
  }

  /** A failed mutation is never rolled back: the optimistic project stays listed when no
      list load is in flight, and an optimistically deleted project reads as failed rather
      than restored. */
  lemma FailedMutationsStay(v: StoreValue, f: InFlight, p: Project, id: Uuid, e: string)
    ensures !f.projects ==> SyncApply(PutProject(v, p), f, CreateProjectReply(Failure(e))).0 == PutProject(v, p)
    ensures ProjectView(SyncApply(DropProject(v, id), f, DeleteProjectReply(id, Failure(e))).0, id) == Error(e)
  {
  }

  /** A failed session creation or update changes nothing, so the optimistic copy stays. */
  lemma FailedSessionUpsertStays(v: StoreValue, f: InFlight, e: string)
    ensures SyncApply(v, f, UpsertSessionReply(Failure(e))) == (v, f)
  {
    var m := UpsertSessionReply(Failure(e));
    assert ApplyMessage(v, m).0 == v;
  }

  // ---------------------------------------------------------------------------
  // The client

  class SyncEngineClient {
    const store: Store
    var projectsInFlight: bool
    var projectInFlight: set<Uuid>
    var sessionsByProjectInFlight: set<Uuid>
    var sessionInFlight: set<Uuid>

    function Flights(): InFlight
      reads this
    {
      InFlight(projectsInFlight, projectInFlight, sessionsByProjectInFlight, sessionInFlight)
    }

    constructor ()
      ensures fresh(store)
      ensures store.Value() == EmptyStore && Flights() == NothingInFlight
    {
      store := new Store();
      projectsInFlight := false;
      projectInFlight := {};
      sessionsByProjectInFlight := {};
      sessionInFlight := {};
    }

    method Poll(messages: seq<StoreMessage>)
      modifies this, store
      ensures (store.Value(), Flights()) == SyncApplyAll(old(store.Value()), old(Flights()), messages)
    {
      if |messages| == 0 {
        return;
      }
      var i := 0;
      while i < |messages|
        invariant 0 <= i <= |messages|
        invariant (store.Value(), Flights()) == SyncApplyAll(old(store.Value()), old(Flights()), messages[..i])
      {
        SyncApplyAllPrefix(old(store.Value()), old(Flights()), messages, i);
        ApplyStoreMessage(messages[i]);
        i := i + 1;
      }
      assert messages[..i] == messages;
    }

    method ApplyStoreMessage(msg: StoreMessage)
      modifies this, store
      ensures (store.Value(), Flights()) == SyncApply(old(store.Value()), old(Flights()), msg)
    {
      if msg.ProjectError? && msg.errorId.None? {
        if projectsInFlight {
          store.projects := Error(msg.message);
          projectsInFlight := false;
        }
        return;
      }
      var _ := store.Apply(msg);
      match msg {
        case ProjectsLoaded(_) => projectsInFlight := false;
        case ProjectLoaded(id, _) => projectInFlight := projectInFlight - {id};
        case ProjectUpserted(_) =>
        case ProjectDeleted(_) =>
        case ProjectError(id, _) => projectInFlight := projectInFlight - {id.value};
        case SessionsByProjectLoaded(pid, _) => sessionsByProjectInFlight := sessionsByProjectInFlight - {pid};
        case SessionLoaded(id, _) => sessionInFlight := sessionInFlight - {id};
        case SessionUpserted(_) =>
        case SessionDeleted(id) => sessionInFlight := sessionInFlight - {id};
        case SessionError(pid, sid, _) =>
          if pid.Some? {
            sessionsByProjectInFlight := sessionsByProjectInFlight - {pid.value};
          }
          if sid.Some? {
            sessionInFlight := sessionInFlight - {sid.value};
          }
      }
    }

    /** `projects_state`, read without starting a load. */
    function ProjectsState(): (r: Loadable<seq<Project>>)
      reads this, store
      ensures r == ProjectsView(store.Value())
    {
      ProjectsView(store.Value())
    }

    function ProjectState(id: Uuid): (r: Loadable<Option<Project>>)
      reads this, store
      ensures r == ProjectView(store.Value(), id)
    {
      ProjectView(store.Value(), id)
    }

    function SessionsByProjectState(projectId: Uuid): (r: Loadable<seq<Session>>)
      reads this, store
      ensures r == SessionsByProjectView(store.Value(), projectId)
    {
      SessionsByProjectView(store.Value(), projectId)
    }

    function SessionState(id: Uuid): (r: Loadable<Option<Session>>)
      reads this, store
      ensures r == SessionView(store.Value(), id)
    {
      SessionView(store.Value(), id)
    }

    method EnsureProjectsLoaded() returns (started: bool)
      modifies this, store
      ensures started <==> !old(projectsInFlight) && NeedsLoad(old(store.Value()), ProjectsQuery)
      ensures started ==> store.Value() == SetLoading(old(store.Value()), ProjectsQuery) && Flights() == old(Flights()).(projects := true)
      ensures !started ==> store.Value() == old(store.Value()) && Flights() == old(Flights())
    {
      if projectsInFlight {
        return false;
      }
      var shouldLoad := store.projects.Idle? || store.projects.Error?;
      if !shouldLoad {
        return false;
      }
      store.MarkLoading(ProjectsQuery);
      projectsInFlight := true;
      return true;
    }

    method EnsureProjectLoaded(id: Uuid) returns (started: bool)
      modifies this, store
      ensures started <==> id !in old(projectInFlight) && NeedsLoad(old(store.Value()), ProjectQuery(id))
      ensures started ==> store.Value() == SetLoading(old(store.Value()), ProjectQuery(id)) && Flights() == old(Flights()).(project := old(projectInFlight) + {id})
      ensures !started ==> store.Value() == old(store.Value()) && Flights() == old(Flights())
    {
      if id in store.projectsById {
        return false;
      }
      if id in store.projectStates && (store.projectStates[id].Loading? || store.projectStates[id].Ready?) {
        return false;
      }
      if id in projectInFlight {
        return false;
      }
      projectInFlight := projectInFlight + {id};
      store.MarkLoading(ProjectQuery(id));
      return true;
    }

    method EnsureSessionsByProjectLoaded(projectId: Uuid) returns (started: bool)
      modifies this, store
      ensures started <==> projectId !in old(sessionsByProjectInFlight) && NeedsLoad(old(store.Value()), SessionsByProjectQuery(projectId))
      ensures started ==> store.Value() == SetLoading(old(store.Value()), SessionsByProjectQuery(projectId))
      ensures started ==> Flights() == old(Flights()).(sessionsByProject := old(sessionsByProjectInFlight) + {projectId})
      ensures !started ==> store.Value() == old(store.Value()) && Flights() == old(Flights())
    {
      if projectId in store.sessionsByProjectStates {
        var state := store.sessionsByProjectStates[projectId];
        if state.Loading? || state.Ready? {
          return false;
        }
      }
      if projectId in sessionsByProjectInFlight {
        return false;
      }
      sessionsByProjectInFlight := sessionsByProjectInFlight + {projectId};
      store.MarkLoading(SessionsByProjectQuery(projectId));
      return true;
    }

    method EnsureSessionLoaded(id: Uuid) returns (started: bool)
      modifies this, store
      ensures started <==> id !in old(sessionInFlight) && NeedsLoad(old(store.Value()), SessionQuery(id))
      ensures started ==> store.Value() == SetLoading(old(store.Value()), SessionQuery(id)) && Flights() == old(Flights()).(session := old(sessionInFlight) + {id})
      ensures !started ==> store.Value() == old(store.Value()) && Flights() == old(Flights())
    {
      if id in store.sessionsById {
        return false;
      }
      if id in store.sessionStates && (store.sessionStates[id].Loading? || store.sessionStates[id].Ready?) {
        return false;
      }
      if id in sessionInFlight {
        return false;
      }
      sessionInFlight := sessionInFlight + {id};
      store.MarkLoading(SessionQuery(id));
      return true;
    }

    /** Upsert the project locally; the call's reply is `CreateProjectReply`. */
    method CreateProject(p: Project)
      modifies store
      ensures store.Value() == PutProject(old(store.Value()), p)
    {
      store.UpsertProject(p);
    }

    /** Remove the project locally; the call's reply is `DeleteProjectReply`. */
    method DeleteProject(id: Uuid)
      modifies store
      ensures store.Value() == DropProject(old(store.Value()), id)
    {
      store.RemoveProject(id);
    }

    /** The reply of the call is `UpsertSessionReply`. */
    method CreateSession(s: Session)
      modifies store
      ensures store.Value() == CreateSessionLocally(old(store.Value()), s)
    {
      store.sessionsById := store.sessionsById[s.id := s];
      store.sessionStates := store.sessionStates[s.id := Ready(Some(s))];
      store.UpsertSessionIntoProjectIndex(s);
    }

    /** The reply of the call is `UpsertSessionReply`. */
    method UpdateSession(s: Session)
      modifies store
      ensures store.Value() == UpdateSessionLocally(old(store.Value()), s)
    {
      if s.id in store.sessionsById {
        var existing := store.sessionsById[s.id];
        store.RemoveSessionFromProjectIndex(existing);
      }
      store.sessionsById := store.sessionsById[s.id := s];
      store.sessionStates := store.sessionStates[s.id := Ready(Some(s))];
      store.UpsertSessionIntoProjectIndex(s);
    }

    /** Remove the session locally; the call's reply is `DeleteSessionReply`. */
    method DeleteSession(id: Uuid)
      modifies store
      ensures store.Value() == DropSession(old(store.Value()), id)
    {
      store.RemoveSession(id);
    }
  }

  /** The guards start each load once: right after a start the same call starts nothing. */
  lemma EnsureStartsOnce(v: StoreValue, key: QueryKey)
    ensures !NeedsLoad(SetLoading(v, key), key)
  {
  }
}
