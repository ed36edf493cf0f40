/**
 * The normalized client-side cache shared by the two UI data layers (the live-query client
 * and the sync engine): the project list, projects and sessions by id, per-entity load
 * states and, per project, the index of its session ids. The pure functions below are the
 * specification of every store update; class `Store` holds the same six fields and its
 * methods update them in place, each proved equal to its specification.
 */
module ClientStore {
  import opened Wrappers
  import opened Domain
  import opened Seqs

  /** The lifecycle of a cached query. */
  datatype Loadable<T> = Idle | Loading | Ready(value: T) | Error(message: string)

  /** The queries the cache can have in flight. */
  datatype QueryKey = ProjectsQuery | ProjectQuery(id: Uuid) | SessionsByProjectQuery(id: Uuid) | SessionQuery(id: Uuid)

  /** Everything that can arrive in the store's inbox: query replies and pushed changes. */
  datatype StoreMessage =
    | ProjectsLoaded(projects: seq<Project>)
    | ProjectLoaded(id: Uuid, project: Option<Project>)
    | ProjectUpserted(upserted: Project)
    | ProjectDeleted(deletedId: Uuid)
    | ProjectError(errorId: Option<Uuid>, message: string)
    | SessionsByProjectLoaded(projectId: Uuid, sessions: seq<Session>)
    | SessionLoaded(id: Uuid, session: Option<Session>)
    | SessionUpserted(upsertedSession: Session)
    | SessionDeleted(deletedId: Uuid)
    | SessionError(errorProjectId: Option<Uuid>, errorSessionId: Option<Uuid>, message: string)

  /** Project id to the load state of the ids of that project's sessions. */
  type SessionIndex = map<Uuid, Loadable<seq<Uuid>>>

  datatype StoreValue = StoreValue(
    projects: Loadable<seq<Uuid>>,
    projectsById: map<Uuid, Project>,
    projectStates: map<Uuid, Loadable<Option<Project>>>,
    sessionsById: map<Uuid, Session>,
    sessionStates: map<Uuid, Loadable<Option<Session>>>,
    sessionsByProjectStates: SessionIndex)

  const EmptyStore: StoreValue := StoreValue(Idle, map[], map[], map[], map[], map[])

  // ---------------------------------------------------------------------------
  // The session index of one project

  /** Every loaded session list of the index is free of duplicates. */
  ghost predicate IndexNoDup(index: SessionIndex)
  {
    forall p :: p in index && index[p].Ready? ==> NoDup(index[p].value)
  }

  /** Record that session `id` belongs to project `projectId`: appended to a loaded list
      when absent, a fresh one-element list when the project had none, an idle or a failed
      one; a list still loading is left for its reply to fill. */
  function IndexInsert(index: SessionIndex, projectId: Uuid, id: Uuid): (r: SessionIndex)
    ensures r.Keys == index.Keys + {projectId}
    ensures forall p :: p in index && p != projectId ==> r[p] == index[p]
    ensures projectId in index && index[projectId].Loading? ==> r == index
    ensures !(projectId in index && index[projectId].Loading?) ==> r[projectId].Ready? && id in r[projectId].value
    ensures projectId in index && index[projectId].Ready? ==> r[projectId].value == AppendIfAbsent(index[projectId].value, id)
    ensures IndexNoDup(index) ==> IndexNoDup(r)
  {
    if projectId !in index then index[projectId := Ready([id])]
    else match index[projectId]
      case Ready(ids) => index[projectId := Ready(AppendIfAbsent(ids, id))]
      case Loading => index
      case _ => index[projectId := Ready([id])]
  }

  /** Drop session `id` from a loaded list of project `projectId`; any other state is kept. */
  function IndexRemove(index: SessionIndex, projectId: Uuid, id: Uuid): (r: SessionIndex)
    ensures r.Keys == index.Keys
    ensures forall p :: p in index && p != projectId ==> r[p] == index[p]
    ensures projectId in index && index[projectId].Ready? ==>
      r[projectId].Ready? && multiset(r[projectId].value) == multiset(index[projectId].value)[id := 0]
    ensures projectId in index && !index[projectId].Ready? ==> r[projectId] == index[projectId]
    ensures IndexNoDup(index) ==> IndexNoDup(r)
  {
    if projectId in index && index[projectId].Ready? then
      var ids := index[projectId].value;
      assert IndexNoDup(index) ==> NoDup(ids);
      WithoutNoDup(ids, id);
      index[projectId := Ready(Without(ids, id))]
    else index
  }

  // ---------------------------------------------------------------------------
  // Ordering by `updated_at`, newest first, ties by id

  /** `Option` ordering: `None` below every `Some`. */
  predicate OptBelow(x: Option<Timestamp>, y: Option<Timestamp>)
  {
    (x.None? && y.Some?) || (x.Some? && y.Some? && x.value < y.value)
  }

  function Get(m: map<Uuid, Timestamp>, id: Uuid): Option<Timestamp>
  {
    if id in m then Some(m[id]) else None
  }

  /** `b_updated.cmp(&a_updated).then_with(|| a.cmp(b))` is not `Greater`. */
  function NewestFirst(updated: map<Uuid, Timestamp>): (Uuid, Uuid) -> bool
  {
    (a: Uuid, b: Uuid) => OptBelow(Get(updated, b), Get(updated, a)) || (Get(updated, a) == Get(updated, b) && a <= b)
  }

  lemma NewestFirstTotal(updated: map<Uuid, Timestamp>)
    ensures TotalPreorder(NewestFirst(updated))
  {
  }

  /** Two different ids are never tied: the order is total and antisymmetric. */
  lemma NewestFirstStrict(updated: map<Uuid, Timestamp>, a: Uuid, b: Uuid)
    requires a != b
    ensures NewestFirst(updated)(a, b) != NewestFirst(updated)(b, a)
  {
  }

  function ProjectUpdatedAt(byId: map<Uuid, Project>): (m: map<Uuid, Timestamp>)
    ensures m.Keys == byId.Keys
    ensures forall id :: id in m ==> m[id] == byId[id].updatedAt
  {
    map id | id in byId :: byId[id].updatedAt
  }

  /** Only the sessions of `projectId` have a known `updated_at` when its list is sorted. */
  function SessionUpdatedAt(byId: map<Uuid, Session>, projectId: Uuid): (m: map<Uuid, Timestamp>)
    ensures forall id :: id in m <==> id in byId && byId[id].projectId == projectId
    ensures forall id :: id in m ==> m[id] == byId[id].updatedAt
  {
    map id | id in byId && byId[id].projectId == projectId :: byId[id].updatedAt
  }

  /** Sort a loaded id list, keeping its elements and their duplicate-freedom. */
  function SortIds(ids: seq<Uuid>, updated: map<Uuid, Timestamp>): (r: seq<Uuid>)
    ensures multiset(r) == multiset(ids)
    ensures SortedBy(r, NewestFirst(updated))
    ensures NoDup(ids) ==> NoDup(r)
  {
    NewestFirstTotal(updated);
    SortBySorted(ids, NewestFirst(updated));
    MultisetNoDup(ids, SortBy(ids, NewestFirst(updated)));
    SortBy(ids, NewestFirst(updated))
  }

  function SortProjects(v: StoreValue): (r: StoreValue)
    ensures r == v.(projects := r.projects)
    ensures v.projects.Ready? ==>
      (r.projects.Ready? && multiset(r.projects.value) == multiset(v.projects.value) &&
       SortedBy(r.projects.value, NewestFirst(ProjectUpdatedAt(v.projectsById))))
    ensures !v.projects.Ready? ==> r.projects == v.projects
    ensures v.projects.Ready? && NoDup(v.projects.value) ==> NoDup(r.projects.value)
  {
    match v.projects
    case Ready(ids) => v.(projects := Ready(SortIds(ids, ProjectUpdatedAt(v.projectsById))))
    case _ => v
  }

  function SortSessions(v: StoreValue, projectId: Uuid): (r: StoreValue)
    ensures r == v.(sessionsByProjectStates := r.sessionsByProjectStates)
    ensures r.sessionsByProjectStates.Keys == v.sessionsByProjectStates.Keys
    ensures forall p :: p in v.sessionsByProjectStates && (p != projectId || !v.sessionsByProjectStates[p].Ready?) ==>
      r.sessionsByProjectStates[p] == v.sessionsByProjectStates[p]
    ensures projectId in v.sessionsByProjectStates && v.sessionsByProjectStates[projectId].Ready? ==>
      var ids := v.sessionsByProjectStates[projectId].value;
      r.sessionsByProjectStates[projectId].Ready? &&
      multiset(r.sessionsByProjectStates[projectId].value) == multiset(ids) &&
      SortedBy(r.sessionsByProjectStates[projectId].value, NewestFirst(SessionUpdatedAt(v.sessionsById, projectId)))
    ensures IndexNoDup(v.sessionsByProjectStates) ==> IndexNoDup(r.sessionsByProjectStates)
  {
    if projectId in v.sessionsByProjectStates && v.sessionsByProjectStates[projectId].Ready? then
      var ids := v.sessionsByProjectStates[projectId].value;
      var sorted := SortIds(ids, SessionUpdatedAt(v.sessionsById, projectId));
      v.(sessionsByProjectStates := v.sessionsByProjectStates[projectId := Ready(sorted)])
    else v
  }

  // ---------------------------------------------------------------------------
  // Upserts and removals

  /** Cache `p`, mark it loaded, add it to a loaded project list (once) and re-sort that list. */
  function PutProject(v: StoreValue, p: Project): (r: StoreValue)
    ensures r.projectsById == v.projectsById[p.id := p]
    ensures r.projectStates == v.projectStates[p.id := Ready(Some(p))]
    ensures r.sessionsById == v.sessionsById && r.sessionStates == v.sessionStates
    ensures r.sessionsByProjectStates == v.sessionsByProjectStates
    ensures v.projects.Ready? ==>
      (r.projects.Ready? &&
       multiset(r.projects.value) == multiset(AppendIfAbsent(v.projects.value, p.id)) &&
       SortedBy(r.projects.value, NewestFirst(ProjectUpdatedAt(r.projectsById))))
    ensures !v.projects.Ready? ==> r.projects == v.projects
    ensures v.projects.Ready? && NoDup(v.projects.value) ==> NoDup(r.projects.value)
  {
    var listed := match v.projects
      case Ready(ids) => Ready(AppendIfAbsent(ids, p.id))
      case other => other;
    SortProjects(v.(projectsById := v.projectsById[p.id := p],
                    projectStates := v.projectStates[p.id := Ready(Some(p))],
                    projects := listed))
  }

  /** The sessions of `projectId` in the cache. */
  function SessionsOf(byId: map<Uuid, Session>, projectId: Uuid): (ids: set<Uuid>)
    ensures forall id :: id in ids <==> id in byId && byId[id].projectId == projectId
  {
    set id | id in byId && byId[id].projectId == projectId
  }

  /** Mark every session of `gone` as known not to exist. */
  function MarkGone(states: map<Uuid, Loadable<Option<Session>>>, gone: set<Uuid>): (r: map<Uuid, Loadable<Option<Session>>>)
    ensures r.Keys == states.Keys + gone
    ensures forall id :: id in gone ==> r[id] == Ready(None)
    ensures forall id :: id in states && id !in gone ==> r[id] == states[id]
  {
    map id | id in states.Keys + gone :: if id in gone then Ready(None) else states[id]
  }

  lemma MarkGoneStep(states: map<Uuid, Loadable<Option<Session>>>, gone: set<Uuid>, id: Uuid)
    ensures MarkGone(states, gone)[id := Ready(None)] == MarkGone(states, gone + {id})
  {
    assert MarkGone(states, gone)[id := Ready(None)].Keys == MarkGone(states, gone + {id}).Keys;
  }

  /** Forget project `id`, its session index and every cached session of it; the project
      and those sessions are recorded as known not to exist. */
  function DropProject(v: StoreValue, id: Uuid): (r: StoreValue)
    ensures id !in r.projectsById && r.projectsById == v.projectsById - {id}
    ensures r.projectStates == v.projectStates[id := Ready(None)]
    ensures id !in r.sessionsByProjectStates && r.sessionsByProjectStates == v.sessionsByProjectStates - {id}
    ensures forall s :: s in r.sessionsById ==> r.sessionsById[s].projectId != id
    ensures forall s :: s in v.sessionsById && v.sessionsById[s].projectId != id ==> s in r.sessionsById && r.sessionsById[s] == v.sessionsById[s]
    ensures r.sessionsById.Keys <= v.sessionsById.Keys
    ensures r.sessionStates == MarkGone(v.sessionStates, SessionsOf(v.sessionsById, id))
    ensures v.projects.Ready? ==> r.projects == Ready(Without(v.projects.value, id)) && id !in r.projects.value
    ensures !v.projects.Ready? ==> r.projects == v.projects
  {
    var gone := SessionsOf(v.sessionsById, id);
    assert v.projects.Ready? ==> multiset(Without(v.projects.value, id))[id] == 0;
    var projects := match v.projects
      case Ready(ids) => Ready(Without(ids, id))
      case other => other;
    v.(projectsById := v.projectsById - {id},
       projectStates := v.projectStates[id := Ready(None)],
       sessionsByProjectStates := v.sessionsByProjectStates - {id},
       sessionsById := v.sessionsById - gone,
       sessionStates := MarkGone(v.sessionStates, gone),
       projects := projects)
  }

  /** Cache `s`, moving it out of its previous project's list, into its project's list, and
      re-sort that list. */
  function PutSession(v: StoreValue, s: Session): (r: StoreValue)
    ensures r.sessionsById == v.sessionsById[s.id := s]
    ensures r.sessionStates == v.sessionStates[s.id := Ready(Some(s))]
    ensures r.projects == v.projects && r.projectsById == v.projectsById && r.projectStates == v.projectStates
    ensures IndexNoDup(v.sessionsByProjectStates) ==> IndexNoDup(r.sessionsByProjectStates)
    ensures s.projectId in r.sessionsByProjectStates
    ensures var l := r.sessionsByProjectStates[s.projectId];
      l.Loading? || (l.Ready? && s.id in l.value && SortedBy(l.value, NewestFirst(SessionUpdatedAt(r.sessionsById, s.projectId))))
  {
    var v1 := if s.id in v.sessionsById then
        var existing := v.sessionsById[s.id];
        v.(sessionsByProjectStates := IndexRemove(v.sessionsByProjectStates, existing.projectId, existing.id))
      else v;
    var v2 := v1.(sessionsById := v1.sessionsById[s.id := s],
                  sessionStates := v1.sessionStates[s.id := Ready(Some(s))],
                  sessionsByProjectStates := IndexInsert(v1.sessionsByProjectStates, s.projectId, s.id));
    SortSessions(v2, s.projectId)
  }

  /** Forget session `id` and drop it from its project's list; it is known not to exist. */
  function DropSession(v: StoreValue, id: Uuid): (r: StoreValue)
    ensures r.sessionsById == v.sessionsById - {id}
    ensures r.sessionStates == v.sessionStates[id := Ready(None)]
    ensures r.projects == v.projects && r.projectsById == v.projectsById && r.projectStates == v.projectStates
    ensures id in v.sessionsById ==>
      r.sessionsByProjectStates == IndexRemove(v.sessionsByProjectStates, v.sessionsById[id].projectId, v.sessionsById[id].id)
    ensures id !in v.sessionsById ==> r.sessionsByProjectStates == v.sessionsByProjectStates
    ensures IndexNoDup(v.sessionsByProjectStates) ==> IndexNoDup(r.sessionsByProjectStates)
  {
    var index := if id in v.sessionsById then
        var existing := v.sessionsById[id];
        IndexRemove(v.sessionsByProjectStates, existing.projectId, existing.id)
      else v.sessionsByProjectStates;
    v.(sessionsById := v.sessionsById - {id},
       sessionStates := v.sessionStates[id := Ready(None)],
       sessionsByProjectStates := index)
  }

  // ---------------------------------------------------------------------------
  // Applying inbox messages

  /** The loop of `ProjectsLoaded`: upsert each project in turn. */
  function PutProjects(v: StoreValue, ps: seq<Project>): StoreValue
    decreases |ps|
  {
    if ps == [] then v else PutProject(PutProjects(v, ps[..|ps| - 1]), ps[|ps| - 1])
  }

  /** The ids of a run of values, in order. */
  function Ids<T>(xs: seq<T>, idOf: T -> Uuid): (ids: seq<Uuid>)
    ensures |ids| == |xs| && forall i :: 0 <= i < |xs| ==> ids[i] == idOf(xs[i])
  {
    if xs == [] then [] else [idOf(xs[0])] + Ids(xs[1..], idOf)
  }

  function ProjectIds(ps: seq<Project>): seq<Uuid>
  {
    Ids(ps, (p: Project) => p.id)
  }

  function SessionIds(ss: seq<Session>): seq<Uuid>
  {
    Ids(ss, (s: Session) => s.id)
  }

  /** The loop of `SessionsByProjectLoaded`: cache each session and mark it loaded. */
  function CacheSessions(v: StoreValue, ss: seq<Session>): StoreValue
    decreases |ss|
  {
    if ss == [] then v else
      var w := CacheSessions(v, ss[..|ss| - 1]);
      var s := ss[|ss| - 1];
      w.(sessionsById := w.sessionsById[s.id := s], sessionStates := w.sessionStates[s.id := Ready(Some(s))])
  }

  /** A loaded session is the one its message names. */
  predicate NamesItsSession(msg: StoreMessage)
  {
    msg.SessionLoaded? && msg.session.Some? ==> msg.session.value.id == msg.id
  }

  /** The queries a message completes, whatever the store holds. */
  function CompletedKeys(msg: StoreMessage): (ks: seq<QueryKey>)
    ensures |ks| <= 2
  {
    match msg
    case ProjectsLoaded(_) => [ProjectsQuery]
    case ProjectLoaded(id, _) => [ProjectQuery(id)]
    case ProjectUpserted(_) => []
    case ProjectDeleted(id) => [ProjectQuery(id)]
    case ProjectError(Some(id), _) => [ProjectQuery(id)]
    case ProjectError(None, _) => [ProjectsQuery]
    case SessionsByProjectLoaded(pid, _) => [SessionsByProjectQuery(pid)]
    case SessionLoaded(id, _) => [SessionQuery(id)]
    case SessionUpserted(_) => []
    case SessionDeleted(id) => [SessionQuery(id)]
    case SessionError(pid, sid, _) =>
      (if pid.Some? then [SessionsByProjectQuery(pid.value)] else []) + (if sid.Some? then [SessionQuery(sid.value)] else [])
  }

  /** The store after one inbox message, and the queries that message completes. */
  function ApplyMessage(v: StoreValue, msg: StoreMessage): (StoreValue, seq<QueryKey>)
  {
    match msg
    case ProjectsLoaded(ps) => (PutProjects(v, ps).(projects := Ready(ProjectIds(ps))), [ProjectsQuery])
    case ProjectLoaded(id, Some(p)) =>
      (v.(projectsById := v.projectsById[id := p], projectStates := v.projectStates[id := Ready(Some(p))]), [ProjectQuery(id)])
    case ProjectLoaded(id, None) => (v.(projectStates := v.projectStates[id := Ready(None)]), [ProjectQuery(id)])
    case ProjectUpserted(p) => (PutProject(v, p), [])
    case ProjectDeleted(id) => (DropProject(v, id), [ProjectQuery(id)])
    case ProjectError(Some(id), m) => (v.(projectStates := v.projectStates[id := Error(m)]), [ProjectQuery(id)])
    case ProjectError(None, m) => (v.(projects := Error(m)), [ProjectsQuery])
    case SessionsByProjectLoaded(pid, ss) =>
      var w := CacheSessions(v, ss);
      (w.(sessionsByProjectStates := w.sessionsByProjectStates[pid := Ready(SessionIds(ss))]), [SessionsByProjectQuery(pid)])
    case SessionLoaded(id, Some(s)) => (PutSession(v, s), [SessionQuery(id)])
    case SessionLoaded(id, None) => (v.(sessionStates := v.sessionStates[id := Ready(None)]), [SessionQuery(id)])
    case SessionUpserted(s) => (PutSession(v, s), [])
    case SessionDeleted(id) => (DropSession(v, id), [SessionQuery(id)])
    case SessionError(pid, sid, m) =>
      var index := if pid.Some? then v.sessionsByProjectStates[pid.value := Error(m)] else v.sessionsByProjectStates;
      var states := if sid.Some? then v.sessionStates[sid.value := Error(m)] else v.sessionStates;
      (v.(sessionsByProjectStates := index, sessionStates := states),
       (if pid.Some? then [SessionsByProjectQuery(pid.value)] else []) + (if sid.Some? then [SessionQuery(sid.value)] else []))
  }
  /** The queries a message completes do not depend on the store. */
  lemma ApplyMessageCompletes(v: StoreValue, msg: StoreMessage)
    ensures ApplyMessage(v, msg).1 == CompletedKeys(msg)
  {
    match msg
    case ProjectsLoaded(_) =>
    case ProjectLoaded(_, _) =>
    case ProjectUpserted(_) =>
    case ProjectDeleted(_) =>
    case ProjectError(_, _) =>
    case SessionsByProjectLoaded(_, _) =>
    case SessionLoaded(_, _) =>
    case SessionUpserted(_) =>
    case SessionDeleted(_) =>
    case SessionError(_, _, _) =>
  }

  /** Every query a message completes has settled, loaded or failed, once it is applied. */
  lemma CompletedQueriesSettle(v: StoreValue, msg: StoreMessage)
    ensures var r := ApplyMessage(v, msg);
      NamesItsSession(msg) ==> forall k :: k in r.1 ==> QueryState(r.0, k).Ready? || QueryState(r.0, k).Error?
  {
    var r := ApplyMessage(v, msg);
    ApplyMessageCompletes(v, msg);
    match msg
    case ProjectsLoaded(_) => assert r.0.projects.Ready?;
    case ProjectLoaded(id, _) => assert r.0.projectStates[id].Ready?;
    case ProjectUpserted(_) =>
    case ProjectDeleted(id) => assert r.0.projectStates[id].Ready?;
    case ProjectError(_, _) =>
    case SessionsByProjectLoaded(pid, _) => assert r.0.sessionsByProjectStates[pid].Ready?;
    case SessionLoaded(id, None) => assert r.0.sessionStates[id].Ready?;
    case SessionLoaded(id, Some(x)) =>
      if x.id == id {
        assert r.0.sessionStates[id].Ready?;
      }
    case SessionUpserted(_) =>
    case SessionDeleted(id) => assert r.0.sessionStates[id].Ready?;
    case SessionError(pid, sid, m) =>
      forall k | k in r.1 ensures QueryState(r.0, k) == Error(m) {
        if pid.Some? && sid.Some? && k == SessionsByProjectQuery(pid.value) {
          assert r.0.sessionsByProjectStates[pid.value] == Error(m);
        }
      }
  }

  /** An error message leaves the cached projects and sessions alone and fails exactly the
      queries it completes. */
  lemma ErrorsKeepCaches(v: StoreValue, msg: StoreMessage)
    requires msg.ProjectError? || msg.SessionError?
    ensures var r := ApplyMessage(v, msg);
      r.0.projectsById == v.projectsById && r.0.sessionsById == v.sessionsById &&
      forall k :: k in r.1 ==> QueryState(r.0, k) == Error(msg.message)
  {
    CompletedQueriesSettle(v, msg);
  }


  /** Forget what is known about one query so that it loads again. */
  function InvalidateKey(v: StoreValue, key: QueryKey): (r: StoreValue)
    ensures QueryState(r, key) == Idle
    ensures forall k :: k != key ==> QueryState(r, k) == QueryState(v, k)
    ensures r.projectsById == v.projectsById && r.sessionsById == v.sessionsById
  {
    match key
    case ProjectsQuery => v.(projects := Idle)
    case ProjectQuery(id) => v.(projectStates := v.projectStates[id := Idle])
    case SessionsByProjectQuery(id) => v.(sessionsByProjectStates := v.sessionsByProjectStates[id := Idle])
    case SessionQuery(id) => v.(sessionStates := v.sessionStates[id := Idle])
  }

  /** The state a query reads while it is being loaded. */
  function SetLoading(v: StoreValue, key: QueryKey): (r: StoreValue)
    ensures QueryState(r, key) == Loading
    ensures forall k :: k != key ==> QueryState(r, k) == QueryState(v, k)
    ensures r.projectsById == v.projectsById && r.sessionsById == v.sessionsById
  {
    match key
    case ProjectsQuery => v.(projects := Loading)
    case ProjectQuery(id) => v.(projectStates := v.projectStates[id := Loading])
    case SessionsByProjectQuery(id) => v.(sessionsByProjectStates := v.sessionsByProjectStates[id := Loading])
    case SessionQuery(id) => v.(sessionStates := v.sessionStates[id := Loading])
  }

  /** The load state of one query, as the guards that decide whether to load read it. */
  function QueryState(v: StoreValue, key: QueryKey): Loadable<()>
  {
    match key
    case ProjectsQuery => Shape(v.projects)
    case ProjectQuery(id) => if id in v.projectStates then Shape(v.projectStates[id]) else Idle
    case SessionsByProjectQuery(id) => if id in v.sessionsByProjectStates then Shape(v.sessionsByProjectStates[id]) else Idle
    case SessionQuery(id) => if id in v.sessionStates then Shape(v.sessionStates[id]) else Idle
  }

  function Shape<T>(l: Loadable<T>): Loadable<()>
  {
    match l
    case Idle => Idle
    case Loading => Loading
    case Ready(_) => Ready(())
    case Error(m) => Error(m)
  }

  // ---------------------------------------------------------------------------
  // The load guards

  /** Whether the cache calls for loading `key`, leaving the in-flight set aside: the list
      when it is idle or failed, a project or session when it is not cached and its state
      is neither loading nor loaded, a session list when its state is neither. */
  predicate NeedsLoad(v: StoreValue, key: QueryKey)
  {
    match key
    case ProjectsQuery => v.projects.Idle? || v.projects.Error?
    case ProjectQuery(id) =>
      id !in v.projectsById && !(id in v.projectStates && (v.projectStates[id].Loading? || v.projectStates[id].Ready?))
    case SessionsByProjectQuery(id) =>
      !(id in v.sessionsByProjectStates && (v.sessionsByProjectStates[id].Loading? || v.sessionsByProjectStates[id].Ready?))
    case SessionQuery(id) =>
      id !in v.sessionsById && !(id in v.sessionStates && (v.sessionStates[id].Loading? || v.sessionStates[id].Ready?))
  }

  // ---------------------------------------------------------------------------
  // What the UI reads

  /** The project list as the UI shows it: the cached projects of a loaded id list, in
      list order, skipping ids no longer cached. */
  function ProjectsView(v: StoreValue): (r: Loadable<seq<Project>>)
    ensures Shape(r) == Shape(v.projects)
    ensures r.Ready? ==> r.value == LookupAll(v.projectsById, v.projects.value)
  {
    match v.projects
    case Ready(ids) => Ready(LookupAll(v.projectsById, ids))
    case Idle => Idle
    case Loading => Loading
    case Error(m) => Error(m)
  }

  /** One project: a cached project wins over whatever its load state says. */
  function ProjectView(v: StoreValue, id: Uuid): (r: Loadable<Option<Project>>)
    ensures id in v.projectsById ==> r == Ready(Some(v.projectsById[id]))
    ensures id !in v.projectsById && id in v.projectStates ==> r == v.projectStates[id]
    ensures id !in v.projectsById && id !in v.projectStates ==> r == Idle
  {
    if id in v.projectsById then Ready(Some(v.projectsById[id]))
    else if id in v.projectStates then v.projectStates[id]
    else Idle
  }

  /** The sessions of one project: an unknown project reads as idle. */
  function SessionsByProjectView(v: StoreValue, projectId: Uuid): (r: Loadable<seq<Session>>)
    ensures projectId !in v.sessionsByProjectStates ==> r == Idle
    ensures projectId in v.sessionsByProjectStates ==> Shape(r) == Shape(v.sessionsByProjectStates[projectId])
    ensures r.Ready? ==> r.value == LookupAll(v.sessionsById, v.sessionsByProjectStates[projectId].value)
  {
    if projectId !in v.sessionsByProjectStates then Idle
    else match v.sessionsByProjectStates[projectId]
      case Ready(ids) => Ready(LookupAll(v.sessionsById, ids))
      case Idle => Idle
      case Loading => Loading
      case Error(m) => Error(m)
  }

  function SessionView(v: StoreValue, id: Uuid): (r: Loadable<Option<Session>>)
    ensures id in v.sessionsById ==> r == Ready(Some(v.sessionsById[id]))
    ensures id !in v.sessionsById && id in v.sessionStates ==> r == v.sessionStates[id]
    ensures id !in v.sessionsById && id !in v.sessionStates ==> r == Idle
  {
    if id in v.sessionsById then Ready(Some(v.sessionsById[id]))
    else if id in v.sessionStates then v.sessionStates[id]
    else Idle
  }

  // ---------------------------------------------------------------------------
  // Properties of the updates

  lemma NewestFirstAntisymmetric(updated: map<Uuid, Timestamp>)
    ensures Antisymmetric(NewestFirst(updated))
  {
  }

  /** Receiving the same project twice (the local upsert, then the backend's echo of it)
      leaves the cache exactly as receiving it once. */
  lemma PutProjectIdempotent(v: StoreValue, p: Project)
    ensures PutProject(PutProject(v, p), p) == PutProject(v, p)
  {
    var w := PutProject(v, p);
    assert w.projectsById[p.id := p] == w.projectsById;
    assert w.projectStates[p.id := Ready(Some(p))] == w.projectStates;
    if w.projects.Ready? {
      assert p.id in multiset(w.projects.value);
      assert AppendIfAbsent(w.projects.value, p.id) == w.projects.value;
    }
    assert PutProject(w, p) == SortProjects(w);
    SortProjectsSorted(w);
  }

  /** Sorting a list that is already newest first changes nothing. */
  lemma SortProjectsSorted(v: StoreValue)
    requires v.projects.Ready? ==> SortedBy(v.projects.value, NewestFirst(ProjectUpdatedAt(v.projectsById)))
    ensures SortProjects(v) == v
  {
    if v.projects.Ready? {
      SortedFixpoint(v.projects.value, NewestFirst(ProjectUpdatedAt(v.projectsById)));
    }
  }

  lemma WithoutThenAppend(ids: seq<Uuid>, x: Uuid)
    requires NoDup(ids) && x in ids
    ensures multiset(Without(ids, x) + [x]) == multiset(ids)
  {
    MultisetAtMostOnce(ids, x);
    var again := Without(ids, x) + [x];
    forall e ensures multiset(again)[e] == multiset(ids)[e] {
    }
  }

  lemma PutSessionKnown(w: StoreValue, s: Session)
    requires s.id in w.sessionsById && w.sessionsById[s.id] == s
    requires s.id in w.sessionStates && w.sessionStates[s.id] == Ready(Some(s))
    ensures PutSession(w, s) ==
      SortSessions(w.(sessionsByProjectStates := IndexInsert(IndexRemove(w.sessionsByProjectStates, s.projectId, s.id), s.projectId, s.id)), s.projectId)
  {
    assert w.sessionsById[s.id := s] == w.sessionsById;
    assert w.sessionStates[s.id := Ready(Some(s))] == w.sessionStates;
  }

  /** Taking a listed id out of a sorted duplicate-free list, appending it and sorting again
      gives back the same list. */
  lemma ResortListed(ids: seq<Uuid>, x: Uuid, upd: map<Uuid, Timestamp>)
    requires NoDup(ids) && x in ids && SortedBy(ids, NewestFirst(upd))
    ensures SortIds(Without(ids, x) + [x], upd) == ids
  {
    WithoutThenAppend(ids, x);
    NewestFirstAntisymmetric(upd);
    SortedUnique(SortIds(Without(ids, x) + [x], upd), ids, NewestFirst(upd));
  }

  lemma AbsentAfterWithout(ids: seq<Uuid>, x: Uuid)
    ensures x !in Without(ids, x)
  {
    assert multiset(Without(ids, x))[x] == 0;
  }

  lemma ReinsertListed(index: SessionIndex, pid: Uuid, x: Uuid)
    requires pid in index && index[pid].Ready?
    ensures IndexInsert(IndexRemove(index, pid, x), pid, x) == index[pid := Ready(Without(index[pid].value, x) + [x])]
  {
    var rest := Without(index[pid].value, x);
    var removed := IndexRemove(index, pid, x);
    assert removed == index[pid := Ready(rest)];
    AbsentAfterWithout(index[pid].value, x);
    assert IndexInsert(removed, pid, x) == removed[pid := Ready(rest + [x])];
  }


  lemma SortSessionsReady(u: StoreValue, pid: Uuid)
    requires pid in u.sessionsByProjectStates && u.sessionsByProjectStates[pid].Ready?
    ensures SortSessions(u, pid) == u.(sessionsByProjectStates := u.sessionsByProjectStates[pid :=
      Ready(SortIds(u.sessionsByProjectStates[pid].value, SessionUpdatedAt(u.sessionsById, pid)))])
  {
  }

  lemma ResortUnchanged(w: StoreValue, pid: Uuid, again: seq<Uuid>)
    requires pid in w.sessionsByProjectStates && w.sessionsByProjectStates[pid].Ready?
    requires SortIds(again, SessionUpdatedAt(w.sessionsById, pid)) == w.sessionsByProjectStates[pid].value
    ensures SortSessions(w.(sessionsByProjectStates := w.sessionsByProjectStates[pid := Ready(again)]), pid) == w
  {
    var index := w.sessionsByProjectStates;
    var u := w.(sessionsByProjectStates := index[pid := Ready(again)]);
    SortSessionsReady(u, pid);
    assert index[pid := Ready(index[pid].value)] == index;
  }


  lemma PutSessionSettledListed(w: StoreValue, s: Session)
    requires s.id in w.sessionsById && w.sessionsById[s.id] == s
    requires s.id in w.sessionStates && w.sessionStates[s.id] == Ready(Some(s))
    requires s.projectId in w.sessionsByProjectStates
    requires var l := w.sessionsByProjectStates[s.projectId];
      l.Ready? && NoDup(l.value) && s.id in l.value && SortedBy(l.value, NewestFirst(SessionUpdatedAt(w.sessionsById, s.projectId)))
    ensures PutSession(w, s) == w
  {
    var ids := w.sessionsByProjectStates[s.projectId].value;
    PutSessionKnown(w, s);
    ResortListed(ids, s.id, SessionUpdatedAt(w.sessionsById, s.projectId));
    ReinsertListed(w.sessionsByProjectStates, s.projectId, s.id);
    ResortUnchanged(w, s.projectId, Without(ids, s.id) + [s.id]);
  }


  /** A session that is already cached, loaded and (when its project's list is loaded)
      listed in sorted position is not changed by receiving it again. */
  lemma PutSessionSettled(w: StoreValue, s: Session)
    requires IndexNoDup(w.sessionsByProjectStates)
    requires s.id in w.sessionsById && w.sessionsById[s.id] == s
    requires s.id in w.sessionStates && w.sessionStates[s.id] == Ready(Some(s))
    requires s.projectId in w.sessionsByProjectStates
    requires var l := w.sessionsByProjectStates[s.projectId];
      l.Loading? || (l.Ready? && s.id in l.value && SortedBy(l.value, NewestFirst(SessionUpdatedAt(w.sessionsById, s.projectId))))
    ensures PutSession(w, s) == w
  {
    if w.sessionsByProjectStates[s.projectId].Ready? {
      PutSessionSettledListed(w, s);
    } else {
      PutSessionKnown(w, s);
    }
  }

  /** Receiving the same session twice leaves the cache as receiving it once, as long as
      no session list holds an id twice. */
  lemma PutSessionIdempotent(v: StoreValue, s: Session)
    requires IndexNoDup(v.sessionsByProjectStates)
    ensures PutSession(PutSession(v, s), s) == PutSession(v, s)
  {
    PutSessionSettled(PutSession(v, s), s);
  }

  /** A session that moved to another project leaves the loaded list of its old project. */
  lemma PutSessionMoves(v: StoreValue, s: Session)
    requires s.id in v.sessionsById && v.sessionsById[s.id].id == s.id
    requires var from := v.sessionsById[s.id].projectId;
      from != s.projectId && from in v.sessionsByProjectStates && v.sessionsByProjectStates[from].Ready?
    ensures var from := v.sessionsById[s.id].projectId;
      PutSession(v, s).sessionsByProjectStates[from].Ready? &&
      s.id !in PutSession(v, s).sessionsByProjectStates[from].value
  {
    var from := v.sessionsById[s.id].projectId;
    var removed := IndexRemove(v.sessionsByProjectStates, from, s.id);
    assert multiset(removed[from].value)[s.id] == 0;
    var inserted := IndexInsert(removed, s.projectId, s.id);
    assert inserted[from] == removed[from];
  }

  /** After a project is deleted nothing of it can be read any more: it is known not to exist,
      it is out of the project list, its session list is forgotten and each of its sessions
      is known not to exist. */
  lemma DropProjectHidesIt(v: StoreValue, id: Uuid)
    ensures ProjectView(DropProject(v, id), id) == Ready(None)
    ensures DropProject(v, id).projects.Ready? ==> id !in DropProject(v, id).projects.value
    ensures SessionsByProjectView(DropProject(v, id), id) == Idle
    ensures forall s :: s in v.sessionsById && v.sessionsById[s].projectId == id ==> SessionView(DropProject(v, id), s) == Ready(None)
  {
  }

  /** Deleting a project that is already gone changes nothing. */
  lemma DropProjectGone(w: StoreValue, id: Uuid)
    requires id !in w.projectsById && id !in w.sessionsByProjectStates
    requires id in w.projectStates && w.projectStates[id] == Ready(None)
    requires forall s :: s in w.sessionsById ==> w.sessionsById[s].projectId != id
    requires w.projects.Ready? ==> id !in w.projects.value
    ensures DropProject(w, id) == w
  {
    var u := DropProject(w, id);
    assert SessionsOf(w.sessionsById, id) == {};
    assert u.sessionStates == w.sessionStates;
    assert u.sessionsById == w.sessionsById;
    assert u.projectStates == w.projectStates;
    assert u.projectsById == w.projectsById;
    assert u.sessionsByProjectStates == w.sessionsByProjectStates;
  }

  /** Deleting a project twice is deleting it once. */
  lemma DropProjectIdempotent(v: StoreValue, id: Uuid)
    ensures DropProject(DropProject(v, id), id) == DropProject(v, id)
  {
    DropProjectGone(DropProject(v, id), id);
  }

  /** How deleting a session reads afterwards. */
  lemma DropSessionHidesIt(v: StoreValue, id: Uuid)
    requires id in v.sessionsById && v.sessionsById[id].id == id
    ensures SessionView(DropSession(v, id), id) == Ready(None)
    ensures var p := v.sessionsById[id].projectId;
      p in v.sessionsByProjectStates && v.sessionsByProjectStates[p].Ready? ==>
        id !in DropSession(v, id).sessionsByProjectStates[p].value
  {
    var p := v.sessionsById[id].projectId;
    if p in v.sessionsByProjectStates && v.sessionsByProjectStates[p].Ready? {
      assert multiset(DropSession(v, id).sessionsByProjectStates[p].value)[id] == 0;
    }
  }

  lemma PutProjectsCaches(v: StoreValue, ps: seq<Project>)
    requires NoDup(ProjectIds(ps))
    ensures forall i :: 0 <= i < |ps| ==> ps[i].id in PutProjects(v, ps).projectsById && PutProjects(v, ps).projectsById[ps[i].id] == ps[i]
  {
    PutProjectsById(v, ps);
    var ids := ProjectIds(ps);
    assert forall i, j :: 0 <= i < j < |ps| ==> ids[i] != ids[j];
    UpdateAllHas(v.projectsById, ps);
  }

  /** The project cache after caching a list: each project written over its id in turn. */
  function UpdateAll(m: map<Uuid, Project>, ps: seq<Project>): map<Uuid, Project>
    decreases |ps|
  {
    if ps == [] then m else UpdateAll(m, ps[..|ps| - 1])[ps[|ps| - 1].id := ps[|ps| - 1]]
  }

  lemma {:induction false} PutProjectsById(v: StoreValue, ps: seq<Project>)
    ensures PutProjects(v, ps).projectsById == UpdateAll(v.projectsById, ps)
    decreases |ps|
  {
    if ps != [] {
      PutProjectsById(v, ps[..|ps| - 1]);
    }
  }

  lemma {:induction false} UpdateAllHas(m: map<Uuid, Project>, ps: seq<Project>)
    requires forall i, j :: 0 <= i < j < |ps| ==> ps[i].id != ps[j].id
    ensures forall i :: 0 <= i < |ps| ==> ps[i].id in UpdateAll(m, ps) && UpdateAll(m, ps)[ps[i].id] == ps[i]
    decreases |ps|
  {
    if ps != [] {
      var init := ps[..|ps| - 1];
      UpdateAllHas(m, init);
      var last := ps[|ps| - 1];
      forall i | 0 <= i < |ps| ensures ps[i].id in UpdateAll(m, ps) && UpdateAll(m, ps)[ps[i].id] == ps[i] {
        if i < |ps| - 1 {
          assert init[i] == ps[i] && ps[i].id != last.id;
        }
      }
    }
  }

  /** A loaded project list is shown exactly as the backend returned it. */
  lemma ProjectsLoadedShowsIt(v: StoreValue, ps: seq<Project>)
    requires NoDup(ProjectIds(ps))
    ensures ProjectsView(ApplyMessage(v, ProjectsLoaded(ps)).0) == Ready(ps)
    ensures ApplyMessage(v, ProjectsLoaded(ps)).1 == [ProjectsQuery]
  {
    PutProjectsCaches(v, ps);
    var r := PutProjects(v, ps).(projects := Ready(ProjectIds(ps)));
    assert ApplyMessage(v, ProjectsLoaded(ps)) == (r, [ProjectsQuery]);
    var ids := ProjectIds(ps);
    assert forall k :: k in ids ==> k in r.projectsById;
    var shown := LookupAll(r.projectsById, ids);
    assert |shown| == |ps|;
    assert forall i :: 0 <= i < |ps| ==> shown[i] == ps[i];
    assert shown == ps;
    assert ProjectsView(r) == Ready(shown);
  }

  lemma CacheSessionsCaches(v: StoreValue, ss: seq<Session>)
    requires NoDup(SessionIds(ss))
    ensures forall i :: 0 <= i < |ss| ==> ss[i].id in CacheSessions(v, ss).sessionsById && CacheSessions(v, ss).sessionsById[ss[i].id] == ss[i]
  {
    var ids := SessionIds(ss);
    assert forall i, j :: 0 <= i < j < |ss| ==> ids[i] != ids[j];
    CachedEach(v, ss);
  }

  lemma {:induction false} CachedEach(v: StoreValue, ss: seq<Session>)
    requires forall i, j :: 0 <= i < j < |ss| ==> ss[i].id != ss[j].id
    ensures forall i :: 0 <= i < |ss| ==> ss[i].id in CacheSessions(v, ss).sessionsById && CacheSessions(v, ss).sessionsById[ss[i].id] == ss[i]
    decreases |ss|
  {
    if ss != [] {
      var init := ss[..|ss| - 1];
      CachedEach(v, init);
      var last := ss[|ss| - 1];
      forall i | 0 <= i < |ss| ensures ss[i].id in CacheSessions(v, ss).sessionsById && CacheSessions(v, ss).sessionsById[ss[i].id] == ss[i] {
        if i < |ss| - 1 {
          assert init[i] == ss[i] && ss[i].id != last.id;
        }
      }
    }
  }

  /** A loaded session list is shown exactly as the backend returned it. */
  lemma ApplySessionsLoaded(v: StoreValue, projectId: Uuid, ss: seq<Session>)
    ensures var w := CacheSessions(v, ss);
      ApplyMessage(v, SessionsByProjectLoaded(projectId, ss)).0 ==
        w.(sessionsByProjectStates := w.sessionsByProjectStates[projectId := Ready(SessionIds(ss))])
  {
  }

  lemma SessionsLoadedShowsThem(v: StoreValue, projectId: Uuid, ss: seq<Session>)
    requires NoDup(SessionIds(ss))
    ensures SessionsByProjectView(ApplyMessage(v, SessionsByProjectLoaded(projectId, ss)).0, projectId) == Ready(ss)
  {
    CacheSessionsCaches(v, ss);
    ApplySessionsLoaded(v, projectId, ss);
    var r := ApplyMessage(v, SessionsByProjectLoaded(projectId, ss)).0;
    assert r.sessionsById == CacheSessions(v, ss).sessionsById;
    LoadedListShown(r, projectId, ss);
  }

  /** A project's list made of cached sessions shows those sessions. */
  lemma LoadedListShown(w: StoreValue, projectId: Uuid, ss: seq<Session>)
    requires projectId in w.sessionsByProjectStates && w.sessionsByProjectStates[projectId] == Ready(SessionIds(ss))
    requires forall i :: 0 <= i < |ss| ==> ss[i].id in w.sessionsById && w.sessionsById[ss[i].id] == ss[i]
    ensures SessionsByProjectView(w, projectId) == Ready(ss)
  {
    LookupCached(w.sessionsById, ss);
  }

  /** Looking up the ids of cached sessions gives back the sessions. */
  lemma LookupCached(m: map<Uuid, Session>, ss: seq<Session>)
    requires forall i :: 0 <= i < |ss| ==> ss[i].id in m && m[ss[i].id] == ss[i]
    ensures LookupAll(m, SessionIds(ss)) == ss
  {
    var ids := SessionIds(ss);
    forall k | k in ids ensures k in m {
      var i :| 0 <= i < |ids| && ids[i] == k;
    }
    var shown := LookupAll(m, ids);
    assert forall i :: 0 <= i < |ss| ==> shown[i] == ss[i];
  }

  /** Each session of a loaded list reads as loaded. */
  lemma SessionsLoadedCachesEach(v: StoreValue, projectId: Uuid, ss: seq<Session>)
    requires NoDup(SessionIds(ss))
    ensures forall i :: 0 <= i < |ss| ==> SessionView(ApplyMessage(v, SessionsByProjectLoaded(projectId, ss)).0, ss[i].id) == Ready(Some(ss[i]))
  {
    CacheSessionsCaches(v, ss);
    ApplySessionsLoaded(v, projectId, ss);
  }


  // ---------------------------------------------------------------------------
  // The store object

  /** The cache as the client holds it; every method is its specification function applied in place. */
  class Store {
    var projects: Loadable<seq<Uuid>>
    var projectsById: map<Uuid, Project>
    var projectStates: map<Uuid, Loadable<Option<Project>>>
    var sessionsById: map<Uuid, Session>
    var sessionStates: map<Uuid, Loadable<Option<Session>>>
    var sessionsByProjectStates: SessionIndex

    function Value(): StoreValue
      reads this
    {
      StoreValue(projects, projectsById, projectStates, sessionsById, sessionStates, sessionsByProjectStates)
    }

    /** `Default`: nothing loaded, nothing cached. */
    constructor ()
      ensures Value() == EmptyStore
    {
      projects := Idle;
      projectsById := map[];
      projectStates := map[];
      sessionsById := map[];
      sessionStates := map[];
      sessionsByProjectStates := map[];
    }

    method UpsertSessionIntoProjectIndex(s: Session)
      modifies this
      ensures Value() == old(Value()).(sessionsByProjectStates := IndexInsert(old(sessionsByProjectStates), s.projectId, s.id))
    {
      if s.projectId in sessionsByProjectStates {
        match sessionsByProjectStates[s.projectId]
        case Ready(ids) =>
          if s.id !in ids {
            sessionsByProjectStates := sessionsByProjectStates[s.projectId := Ready(ids + [s.id])];
          }
        case Idle =>
          sessionsByProjectStates := sessionsByProjectStates[s.projectId := Ready([s.id])];
        case Error(_) =>
          sessionsByProjectStates := sessionsByProjectStates[s.projectId := Ready([s.id])];
        case Loading =>
      } else {
        sessionsByProjectStates := sessionsByProjectStates[s.projectId := Ready([s.id])];
      }
    }

    method RemoveSessionFromProjectIndex(s: Session)
      modifies this
      ensures Value() == old(Value()).(sessionsByProjectStates := IndexRemove(old(sessionsByProjectStates), s.projectId, s.id))
    {
      if s.projectId in sessionsByProjectStates && sessionsByProjectStates[s.projectId].Ready? {
        var ids := sessionsByProjectStates[s.projectId].value;
        sessionsByProjectStates := sessionsByProjectStates[s.projectId := Ready(Without(ids, s.id))];
      }
    }

    method SortProjectsByUpdatedAtDesc()
      modifies this
      ensures Value() == SortProjects(old(Value()))
    {
      var updatedAtById := ProjectUpdatedAt(projectsById);
      if projects.Ready? {
        projects := Ready(SortBy(projects.value, NewestFirst(updatedAtById)));
      }
    }

    method SortSessionsByUpdatedAtDesc(projectId: Uuid)
      modifies this
      ensures Value() == SortSessions(old(Value()), projectId)
    {
      var updatedAtById := SessionUpdatedAt(sessionsById, projectId);
      if projectId in sessionsByProjectStates && sessionsByProjectStates[projectId].Ready? {
        var ids := sessionsByProjectStates[projectId].value;
        sessionsByProjectStates := sessionsByProjectStates[projectId := Ready(SortBy(ids, NewestFirst(updatedAtById)))];
      }
    }

    method UpsertProject(p: Project)
      modifies this
      ensures Value() == PutProject(old(Value()), p)
    {
      projectsById := projectsById[p.id := p];
      projectStates := projectStates[p.id := Ready(Some(p))];
      if projects.Ready? && p.id !in projects.value {
        projects := Ready(projects.value + [p.id]);
      }
      SortProjectsByUpdatedAtDesc();
    }

    method RemoveProject(projectId: Uuid)
      modifies this
      ensures Value() == DropProject(old(Value()), projectId)
    {
      projectsById := projectsById - {projectId};
      projectStates := projectStates[projectId := Ready(None)];
      sessionsByProjectStates := sessionsByProjectStates - {projectId};
      ForgetSessions(SessionsOf(sessionsById, projectId));
      if projects.Ready? {
        projects := Ready(Without(projects.value, projectId));
      }
    }

    /** The loop of `remove_project` over the project's cached sessions: each is forgotten
        and recorded as known not to exist. */
    method ForgetSessions(sessionIds: set<Uuid>)
      modifies this
      ensures sessionsById == old(sessionsById) - sessionIds
      ensures sessionStates == MarkGone(old(sessionStates), sessionIds)
      ensures projects == old(projects) && projectsById == old(projectsById)
      ensures projectStates == old(projectStates) && sessionsByProjectStates == old(sessionsByProjectStates)
    {
      var pending := sessionIds;
      ghost var done: set<Uuid> := {};
      while pending != {}
        invariant done + pending == sessionIds && done !! pending
        invariant projects == old(projects) && projectsById == old(projectsById)
        invariant projectStates == old(projectStates) && sessionsByProjectStates == old(sessionsByProjectStates)
        invariant sessionsById == old(sessionsById) - done
        invariant sessionStates == MarkGone(old(sessionStates), done)
        decreases pending
      {
        var sessionId :| sessionId in pending;
        MarkGoneStep(old(sessionStates), done, sessionId);
        RemoveMore(old(sessionsById), done, sessionId);
        sessionsById := sessionsById - {sessionId};
        sessionStates := sessionStates[sessionId := Ready(None)];
        pending := pending - {sessionId};
        done := done + {sessionId};
      }
    }

    method UpsertSession(s: Session)
      modifies this
      ensures Value() == PutSession(old(Value()), s)
    {
      if s.id in sessionsById {
        var existing := sessionsById[s.id];
        RemoveSessionFromProjectIndex(existing);
      }
      sessionsById := sessionsById[s.id := s];
      sessionStates := sessionStates[s.id := Ready(Some(s))];
      UpsertSessionIntoProjectIndex(s);
      SortSessionsByUpdatedAtDesc(s.projectId);
    }

    method RemoveSession(sessionId: Uuid)
      modifies this
      ensures Value() == DropSession(old(Value()), sessionId)
    {
      if sessionId in sessionsById {
        var existing := sessionsById[sessionId];
        sessionsById := sessionsById - {sessionId};
        RemoveSessionFromProjectIndex(existing);
      }
      sessionStates := sessionStates[sessionId := Ready(None)];
    }

    /** Apply one inbox message; the result is the list of queries it completes. */
    method Apply(msg: StoreMessage) returns (completed: seq<QueryKey>)
      modifies this
      ensures (Value(), completed) == ApplyMessage(old(Value()), msg)
    {
      match msg
      case ProjectsLoaded(ps) =>
        completed := LoadProjects(ps);
      case ProjectLoaded(id, project) =>
        if project.Some? {
          projectsById := projectsById[id := project.value];
          projectStates := projectStates[id := Ready(Some(project.value))];
        } else {
          projectStates := projectStates[id := Ready(None)];
        }
        completed := [ProjectQuery(id)];
      case ProjectUpserted(p) =>
        UpsertProject(p);
        completed := [];
      case ProjectDeleted(id) =>
        RemoveProject(id);
        completed := [ProjectQuery(id)];
      case ProjectError(id, message) =>
        if id.Some? {
          projectStates := projectStates[id.value := Error(message)];
          completed := [ProjectQuery(id.value)];
        } else {
          projects := Error(message);
          completed := [ProjectsQuery];
        }
      case SessionsByProjectLoaded(projectId, ss) =>
        completed := LoadSessionsByProject(projectId, ss);
      case SessionLoaded(id, session) =>
        if session.Some? {
          UpsertSession(session.value);
        } else {
          sessionStates := sessionStates[id := Ready(None)];
        }
        completed := [SessionQuery(id)];
      case SessionUpserted(s) =>
        UpsertSession(s);
        completed := [];
      case SessionDeleted(id) =>
        RemoveSession(id);
        completed := [SessionQuery(id)];
      case SessionError(projectId, sessionId, message) =>
        completed := [];
        if projectId.Some? {
          sessionsByProjectStates := sessionsByProjectStates[projectId.value := Error(message)];
          completed := completed + [SessionsByProjectQuery(projectId.value)];
        }
        if sessionId.Some? {
          sessionStates := sessionStates[sessionId.value := Error(message)];
          completed := completed + [SessionQuery(sessionId.value)];
        }
        assert completed == (if projectId.Some? then [SessionsByProjectQuery(projectId.value)] else []) +
          (if sessionId.Some? then [SessionQuery(sessionId.value)] else []);
    }

    /** `ProjectsLoaded`: each project is cached in turn, then the list is ready. */
    method LoadProjects(ps: seq<Project>) returns (completed: seq<QueryKey>)
      modifies this
      ensures (Value(), completed) == ApplyMessage(old(Value()), ProjectsLoaded(ps))
    {
      var ids := ProjectIds(ps);
      var i := 0;
      while i < |ps|
        invariant 0 <= i <= |ps|
        invariant Value() == PutProjects(old(Value()), ps[..i])
      {
        assert ps[..i + 1][..i] == ps[..i];
        UpsertProject(ps[i]);
        i := i + 1;
      }
      assert ps[..|ps|] == ps;
      projects := Ready(ids);
      completed := [ProjectsQuery];
    }

    /** `SessionsByProjectLoaded`: each session is cached and marked loaded in turn, then the
        project's list is ready. */
    method LoadSessionsByProject(projectId: Uuid, ss: seq<Session>) returns (completed: seq<QueryKey>)
      modifies this
      ensures (Value(), completed) == ApplyMessage(old(Value()), SessionsByProjectLoaded(projectId, ss))
    {
      var ids := SessionIds(ss);
      var i := 0;
      while i < |ss|
        invariant 0 <= i <= |ss|
        invariant Value() == CacheSessions(old(Value()), ss[..i])
      {
        assert ss[..i + 1][..i] == ss[..i];
        sessionsById := sessionsById[ss[i].id := ss[i]];
        sessionStates := sessionStates[ss[i].id := Ready(Some(ss[i]))];
        i := i + 1;
      }
      assert ss[..|ss|] == ss;
      sessionsByProjectStates := sessionsByProjectStates[projectId := Ready(ids)];
      completed := [SessionsByProjectQuery(projectId)];
    }

    /** The `set_loading` closure a query runs before it is dispatched. */
    method MarkLoading(key: QueryKey)
      modifies this
      ensures Value() == SetLoading(old(Value()), key)
    {
      match key
      case ProjectsQuery => projects := Loading;
      case ProjectQuery(id) => projectStates := projectStates[id := Loading];
      case SessionsByProjectQuery(id) => sessionsByProjectStates := sessionsByProjectStates[id := Loading];
      case SessionQuery(id) => sessionStates := sessionStates[id := Loading];
    }

    method Invalidate(key: QueryKey)
      modifies this
      ensures Value() == InvalidateKey(old(Value()), key)
    {
      match key
      case ProjectsQuery => projects := Idle;
      case ProjectQuery(id) => projectStates := projectStates[id := Idle];
      case SessionsByProjectQuery(id) => sessionsByProjectStates := sessionsByProjectStates[id := Idle];
      case SessionQuery(id) => sessionStates := sessionStates[id := Idle];
    }
  }
}
