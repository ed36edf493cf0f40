/**
 * The live-query client: the client store, the set of queries in flight, the guards that
 * start a load at most once, the replies a load posts back and the forwarding of backend
 * push events into the store's inbox.
 *
 * The network is not modelled. A load's outcome, the outcome of a mutation and the inbox
 * contents are inputs; the spawned future that performs the call becomes the function that
 * turns its outcome into the message it posts.
 */
module LiveQuery {
  import opened Wrappers
  import opened Domain
  import opened ClientStore

  // ---------------------------------------------------------------------------
  // Outcomes of a call

  /** `flatten_rpc`: a transport failure and a failure reported by the backend both become
      the error text; only a call that got through and succeeded yields its value. */
  function FlattenRpc<T>(result: Result<Result<T, string>, string>): (r: Result<T, string>)
    ensures r.Success? <==> result.Success? && result.value.Success?
    ensures r.Success? ==> r.value == result.value.value
    ensures result.Failure? ==> r == Failure(result.error)
    ensures result.Success? && result.value.Failure? ==> r == Failure(result.value.error)
  {
    match result
    case Failure(e) => Failure(e)
    case Success(inner) => inner
  }

  // ---------------------------------------------------------------------------
  // Replies of the four queries, as the message each one posts to the inbox

  function ProjectsReply(r: Result<seq<Project>, string>): (m: StoreMessage)
    ensures r.Success? ==> m == ProjectsLoaded(r.value)
    ensures r.Failure? ==> m == ProjectError(None, r.error)
  {
    match r
    case Success(ps) => ProjectsLoaded(ps)
    case Failure(e) => ProjectError(None, e)
  }

  function ProjectReply(id: Uuid, r: Result<Option<Project>, string>): (m: StoreMessage)
    ensures r.Success? ==> m == ProjectLoaded(id, r.value)
    ensures r.Failure? ==> m == ProjectError(Some(id), r.error)
  {
    match r
    case Success(p) => ProjectLoaded(id, p)
    case Failure(e) => ProjectError(Some(id), e)
  }

  function SessionsByProjectReply(projectId: Uuid, r: Result<seq<Session>, string>): (m: StoreMessage)
    ensures r.Success? ==> m == SessionsByProjectLoaded(projectId, r.value)
    ensures r.Failure? ==> m == SessionError(Some(projectId), None, r.error)
  {
    match r
    case Success(ss) => SessionsByProjectLoaded(projectId, ss)
    case Failure(e) => SessionError(Some(projectId), None, e)
  }

  function SessionReply(id: Uuid, r: Result<Option<Session>, string>): (m: StoreMessage)
    ensures r.Success? ==> m == SessionLoaded(id, r.value)
    ensures r.Failure? ==> m == SessionError(None, Some(id), r.error)
  {
    match r
    case Success(s) => SessionLoaded(id, s)
    case Failure(e) => SessionError(None, Some(id), e)
  }

  /** What the call behind a query returned, already flattened. */
  datatype QueryResult =
    | ProjectsResult(projects: Result<seq<Project>, string>)
    | ProjectResult(project: Result<Option<Project>, string>)
    | SessionsResult(sessions: Result<seq<Session>, string>)
    | SessionResult(session: Result<Option<Session>, string>)

  /** The result has the shape of the call `key` makes. */
  predicate Answers(key: QueryKey, res: QueryResult)
  {
    match key
    case ProjectsQuery => res.ProjectsResult?
    case ProjectQuery(_) => res.ProjectResult?
    case SessionsByProjectQuery(_) => res.SessionsResult?
    case SessionQuery(_) => res.SessionResult?
  }

  function ReplyMessage(key: QueryKey, res: QueryResult): StoreMessage
    requires Answers(key, res)
  {
    match key
    case ProjectsQuery => ProjectsReply(res.projects)
    case ProjectQuery(id) => ProjectReply(id, res.project)
    case SessionsByProjectQuery(id) => SessionsByProjectReply(id, res.sessions)
    case SessionQuery(id) => SessionReply(id, res.session)
  }

  /** Whatever a query's call returns, applying its reply completes exactly that query and
      leaves it loaded or failed, never idle or loading (a fetched session is the one asked for). */
  lemma ReplyCompletesItsQuery(v: StoreValue, key: QueryKey, res: QueryResult)
    requires Answers(key, res)
    requires res.SessionResult? && res.session.Success? && res.session.value.Some? ==> res.session.value.value.id == key.id
    ensures ApplyMessage(v, ReplyMessage(key, res)).1 == [key]
    ensures var st := QueryState(ApplyMessage(v, ReplyMessage(key, res)).0, key); st.Ready? || st.Error?
  {
    match key
    case ProjectsQuery => ProjectsReplyCompletes(v, res.projects);
    case ProjectQuery(id) => ProjectReplyCompletes(v, id, res.project);
    case SessionsByProjectQuery(id) => SessionsReplyCompletes(v, id, res.sessions);
    case SessionQuery(id) => SessionReplyCompletes(v, id, res.session);
  }

  lemma ProjectsReplyCompletes(v: StoreValue, r: Result<seq<Project>, string>)
    ensures ApplyMessage(v, ProjectsReply(r)).1 == [ProjectsQuery]
    ensures var st := QueryState(ApplyMessage(v, ProjectsReply(r)).0, ProjectsQuery); st.Ready? || st.Error?
  {
  }

  lemma ProjectReplyCompletes(v: StoreValue, id: Uuid, r: Result<Option<Project>, string>)
    ensures ApplyMessage(v, ProjectReply(id, r)).1 == [ProjectQuery(id)]
    ensures var st := QueryState(ApplyMessage(v, ProjectReply(id, r)).0, ProjectQuery(id)); st.Ready? || st.Error?
  {
  }

  lemma SessionsReplyCompletes(v: StoreValue, id: Uuid, r: Result<seq<Session>, string>)
    ensures ApplyMessage(v, SessionsByProjectReply(id, r)).1 == [SessionsByProjectQuery(id)]
    ensures var st := QueryState(ApplyMessage(v, SessionsByProjectReply(id, r)).0, SessionsByProjectQuery(id)); st.Ready? || st.Error?
  {
  }

  lemma SessionReplyCompletes(v: StoreValue, id: Uuid, r: Result<Option<Session>, string>)
    requires r.Success? && r.value.Some? ==> r.value.value.id == id
    ensures ApplyMessage(v, SessionReply(id, r)).1 == [SessionQuery(id)]
    ensures var st := QueryState(ApplyMessage(v, SessionReply(id, r)).0, SessionQuery(id)); st.Ready? || st.Error?
  {
    ApplyMessageCompletes(v, SessionReply(id, r));
    CompletedQueriesSettle(v, SessionReply(id, r));
  }

  // ---------------------------------------------------------------------------
  // Fire-and-forget mutations: only a failure posts a message

  function CreateProjectFeedback(r: Result<Project, string>): (m: Option<StoreMessage>)
    ensures m.None? <==> r.Success?
    ensures r.Failure? ==> m == Some(ProjectError(None, r.error))
  {
    if r.Failure? then Some(ProjectError(None, r.error)) else None
  }

  function DeleteProjectFeedback(id: Uuid, r: Result<(), string>): (m: Option<StoreMessage>)
    ensures m.None? <==> r.Success?
    ensures r.Failure? ==> m == Some(ProjectError(Some(id), r.error))
  {
    if r.Failure? then Some(ProjectError(Some(id), r.error)) else None
  }

  function CreateSessionFeedback(r: Result<Session, string>): (m: Option<StoreMessage>)
    ensures m.None? <==> r.Success?
    ensures r.Failure? ==> m == Some(SessionError(None, None, r.error))
  {
    if r.Failure? then Some(SessionError(None, None, r.error)) else None
  }

  /** An update or a deletion of a session: both post the same message on failure. */
  function SessionMutationFeedback<T>(id: Uuid, r: Result<T, string>): (m: Option<StoreMessage>)
    ensures m.None? <==> r.Success?
    ensures r.Failure? ==> m == Some(SessionError(None, Some(id), r.error))
  {
    if r.Failure? then Some(SessionError(None, Some(id), r.error)) else None
  }

  /** What a failed mutation does to the cache once its message is applied: a failed project
      creation fails the project list, a failed deletion fails that project's query, a failed
      session creation changes nothing at all and a failed update or deletion fails that
      session's query while its cached copy stays visible. */
  lemma FailedMutationEffects(v: StoreValue, id: Uuid, e: string)
    ensures ProjectsView(ApplyMessage(v, CreateProjectFeedback(Failure(e)).value).0) == Error(e)
    ensures var r := ApplyMessage(v, DeleteProjectFeedback(id, Failure(e)).value);
      r.1 == [ProjectQuery(id)] && (id !in v.projectsById ==> ProjectView(r.0, id) == Error(e))
    ensures ApplyMessage(v, CreateSessionFeedback(Failure(e)).value) == (v, [])
    ensures var r := ApplyMessage(v, SessionMutationFeedback<Session>(id, Failure(e)).value);
      r.1 == [SessionQuery(id)] && SessionView(r.0, id) == (if id in v.sessionsById then Ready(Some(v.sessionsById[id])) else Error(e))
  {
    var r := ApplyMessage(v, SessionError(None, None, e));
    assert r.0 == v;
    assert r.1 == [] + [];
  }

  // ---------------------------------------------------------------------------
  // Forwarding backend events into the inbox

  /** A change the backend broadcasts. */
  datatype BackendEvent =
    | ProjectUpsertedEvent(project: Project)
    | ProjectDeletedEvent(projectId: Uuid)
    | SessionUpsertedEvent(session: Session)
    | SessionDeletedEvent(sessionId: Uuid)

  /** One receive on the broadcast channel. */
  datatype Received = Event(event: BackendEvent) | Lagged | Closed

  function EventMessage(e: BackendEvent): (m: StoreMessage)
    ensures m.ProjectUpserted? || m.ProjectDeleted? || m.SessionUpserted? || m.SessionDeleted?
  {
    match e
    case ProjectUpsertedEvent(p) => ProjectUpserted(p)
    case ProjectDeletedEvent(id) => ProjectDeleted(id)
    case SessionUpsertedEvent(s) => SessionUpserted(s)
    case SessionDeletedEvent(id) => SessionDeleted(id)
  }

  /** Distinct events become distinct messages. */
  lemma EventMessageInjective(a: BackendEvent, b: BackendEvent)
    ensures EventMessage(a) == EventMessage(b) ==> a == b
  {
  }

  /** The messages the forwarding task posts for a run of receives. */
  function Forwarded(rs: seq<Received>): (ms: seq<StoreMessage>)
    ensures |ms| <= |rs|
  {
    if rs == [] then []
    else match rs[0]
      case Closed => []
      case Lagged => Forwarded(rs[1..])
      case Event(e) => [EventMessage(e)] + Forwarded(rs[1..])
  }

  /** A lagged receive is skipped: removing it changes nothing. */
  lemma {:induction false} ForwardedSkipsLagged(a: seq<Received>, b: seq<Received>)
    ensures Forwarded(a + [Lagged] + b) == Forwarded(a + b)
  {
    if a == [] {
      assert a + [Lagged] + b == [Lagged] + b;
      assert ([Lagged] + b)[0] == Lagged;
      assert ([Lagged] + b)[1..] == b;
      assert a + b == b;
    } else {
      assert (a + [Lagged] + b)[0] == a[0];
      assert (a + [Lagged] + b)[1..] == a[1..] + [Lagged] + b;
      assert (a + b)[1..] == a[1..] + b;
      ForwardedSkipsLagged(a[1..], b);
    }
  }

  /** A closed channel ends forwarding: nothing received after it is posted. */
  lemma {:induction false} ForwardedStopsAtClosed(a: seq<Received>, b: seq<Received>)
    requires Closed !in a
    ensures Forwarded(a + [Closed] + b) == Forwarded(a)
  {
    if a != [] {
      assert (a + [Closed] + b)[0] == a[0];
      assert (a + [Closed] + b)[1..] == a[1..] + [Closed] + b;
      ForwardedStopsAtClosed(a[1..], b);
    }
  }

  /** Without lag and closing every event is posted once, in order. */
  lemma {:induction false} ForwardedOneToOne(rs: seq<Received>)
    requires forall i :: 0 <= i < |rs| ==> rs[i].Event?
    ensures |Forwarded(rs)| == |rs|
    ensures forall i :: 0 <= i < |rs| ==> Forwarded(rs)[i] == EventMessage(rs[i].event)
  {
    if rs != [] {
      ForwardedOneToOne(rs[1..]);
    }
  }

  /** The forwarding loop, over the receives it gets. */
  method Forward(rs: seq<Received>) returns (posted: seq<StoreMessage>)
    ensures posted == Forwarded(rs)
  {
    posted := [];
    var i := 0;
    while i < |rs|
      invariant 0 <= i <= |rs|
      invariant Closed !in rs[..i]
      invariant posted + Forwarded(rs[i..]) == Forwarded(rs)
    {
      match rs[i] {
        case Event(e) =>
          posted := posted + [EventMessage(e)];
        case Lagged =>
        case Closed =>
          assert Forwarded(rs[i..]) == [];
          return;
      }
      assert rs[..i + 1] == rs[..i] + [rs[i]];
      i := i + 1;
    }
  }

  // ---------------------------------------------------------------------------
  // Draining the inbox

  function KeySet(keys: seq<QueryKey>): (s: set<QueryKey>)
    ensures forall k :: k in s <==> k in keys
  {
    set k | k in keys
  }

  /** Apply inbox messages in order, dropping every key they complete from the in-flight set. */
  function ApplyAll(v: StoreValue, inFlight: set<QueryKey>, msgs: seq<StoreMessage>): (StoreValue, set<QueryKey>)
    decreases |msgs|
  {
    if msgs == [] then (v, inFlight)
    else
      var before := ApplyAll(v, inFlight, msgs[..|msgs| - 1]);
      ApplyOne(before.0, before.1, msgs[|msgs| - 1])
  }

  /** One message: apply it, then complete the keys it returns. */
  function ApplyOne(v: StoreValue, inFlight: set<QueryKey>, msg: StoreMessage): (r: (StoreValue, set<QueryKey>))
    ensures r.1 <= inFlight
    ensures NamesItsSession(msg) ==> forall k :: k in inFlight && k !in r.1 ==> QueryState(r.0, k).Ready? || QueryState(r.0, k).Error?
    ensures forall k :: k in inFlight && k !in r.1 ==> k in CompletedKeys(msg)
  {
    CompletedQueriesSettle(v, msg);
    ApplyMessageCompletes(v, msg);
    var (after, completed) := ApplyMessage(v, msg);
    (after, inFlight - KeySet(completed))
  }

  lemma ApplyAllPrefix(v: StoreValue, inFlight: set<QueryKey>, msgs: seq<StoreMessage>, i: nat)
    requires i < |msgs|
    ensures var before := ApplyAll(v, inFlight, msgs[..i]);
      ApplyAll(v, inFlight, msgs[..i + 1]) == ApplyOne(before.0, before.1, msgs[i])
  {
    assert msgs[..i + 1][..i] == msgs[..i];
  }

  /** Draining two batches is draining their concatenation. */
  lemma {:induction false} ApplyAllAppend(v: StoreValue, inFlight: set<QueryKey>, a: seq<StoreMessage>, b: seq<StoreMessage>)
    ensures ApplyAll(v, inFlight, a + b) == ApplyAll(ApplyAll(v, inFlight, a).0, ApplyAll(v, inFlight, a).1, b)
    decreases |b|
  {
    if b == [] {
      assert a + b == a;
    } else {
      assert (a + b)[..|a + b| - 1] == a + b[..|b| - 1];
      ApplyAllAppend(v, inFlight, a, b[..|b| - 1]);
    }
  }

  /** Draining only ever removes keys from the in-flight set, and removes every key a
      message completes that no later message restarts (none does: applying starts nothing). */
  lemma {:induction false} ApplyAllCompletes(v: StoreValue, inFlight: set<QueryKey>, msgs: seq<StoreMessage>)
    ensures ApplyAll(v, inFlight, msgs).1 <= inFlight
    ensures forall i, k :: 0 <= i < |msgs| && k in ApplyMessage(ApplyAll(v, inFlight, msgs[..i]).0, msgs[i]).1 ==>
      k !in ApplyAll(v, inFlight, msgs).1
    decreases |msgs|
  {
    if msgs != [] {
      var n := |msgs| - 1;
      var init := msgs[..n];
      ApplyAllCompletes(v, inFlight, init);
      forall i, k | 0 <= i < |msgs| && k in ApplyMessage(ApplyAll(v, inFlight, msgs[..i]).0, msgs[i]).1
        ensures k !in ApplyAll(v, inFlight, msgs).1
      {
        ApplyAllPrefix(v, inFlight, msgs, n);
        assert msgs[..n + 1] == msgs;
        if i < n {
          assert init[..i] == msgs[..i];
          assert init[i] == msgs[i];
        } else {
          assert msgs[..i] == init;
        }
      }
    }
  }

  // ---------------------------------------------------------------------------
  // The client

  /** The client: its store, the queries whose reply has not been applied yet. */
  class LiveQueryClient {
    const store: Store
    var inFlight: set<QueryKey>

    constructor ()
      ensures fresh(store)
      ensures store.Value() == EmptyStore && inFlight == {}
    {
      store := new Store();
      inFlight := {};
    }

    /** Apply every message the inbox holds, in order, completing the keys each returns. */
    method Poll(messages: seq<StoreMessage>)
      modifies this, store
      ensures (store.Value(), inFlight) == ApplyAll(old(store.Value()), old(inFlight), messages)
    {
      if |messages| == 0 {
        return;
      }
      var i := 0;
      while i < |messages|
        invariant 0 <= i <= |messages|
        invariant (store.Value(), inFlight) == ApplyAll(old(store.Value()), old(inFlight), messages[..i])
      {
        ApplyAllPrefix(old(store.Value()), old(inFlight), messages, i);
        var completed := store.Apply(messages[i]);
        CompleteAll(completed);
        i := i + 1;
      }
      assert messages[..i] == messages;
    }

    method CompleteAll(keys: seq<QueryKey>)
      modifies this
      ensures inFlight == old(inFlight) - KeySet(keys)
    {
      var j := 0;
      while j < |keys|
        invariant 0 <= j <= |keys|
        invariant inFlight == old(inFlight) - KeySet(keys[..j])
      {
        CompleteQuery(keys[j]);
        assert KeySet(keys[..j + 1]) == KeySet(keys[..j]) + {keys[j]};
        j := j + 1;
      }
      assert keys[..j] == keys;
    }

    method CompleteQuery(key: QueryKey)
      modifies this
      ensures inFlight == old(inFlight) - {key}
    {
      inFlight := inFlight - {key};
    }

    predicate IsInFlight(key: QueryKey)
      reads this
    {
      key in inFlight
    }

    method InvalidateProjects()
      modifies this, store
      ensures inFlight == old(inFlight) - {ProjectsQuery}
      ensures store.Value() == InvalidateKey(old(store.Value()), ProjectsQuery)
    {
      CompleteQuery(ProjectsQuery);
      store.Invalidate(ProjectsQuery);
    }

    method InvalidateProject(id: Uuid)
      modifies this, store
      ensures inFlight == old(inFlight) - {ProjectQuery(id)}
      ensures store.Value() == InvalidateKey(old(store.Value()), ProjectQuery(id))
    {
      CompleteQuery(ProjectQuery(id));
      store.Invalidate(ProjectQuery(id));
    }

    method InvalidateSessionsByProject(projectId: Uuid)
      modifies this, store
      ensures inFlight == old(inFlight) - {SessionsByProjectQuery(projectId)}
      ensures store.Value() == InvalidateKey(old(store.Value()), SessionsByProjectQuery(projectId))
    {
      CompleteQuery(SessionsByProjectQuery(projectId));
      store.Invalidate(SessionsByProjectQuery(projectId));
    }

    method InvalidateSession(id: Uuid)
      modifies this, store
      ensures inFlight == old(inFlight) - {SessionQuery(id)}
      ensures store.Value() == InvalidateKey(old(store.Value()), SessionQuery(id))
    {
      CompleteQuery(SessionQuery(id));
      store.Invalidate(SessionQuery(id));
    }

    /** Start the load of `key` unless it is in flight: mark it in flight, then show it loading.
        The call itself runs elsewhere; its reply is `ReplyMessage(key, _)`, applied by `Poll`. */
    method StartQuery(key: QueryKey) returns (started: bool)
      modifies this, store
      ensures started <==> key !in old(inFlight)
      ensures (store.Value(), inFlight) == Started(old(store.Value()), old(inFlight), key, started)
    {
      if key in inFlight {
        return false;
      }
      inFlight := inFlight + {key};
      store.MarkLoading(key);
      return true;
    }

    method LoadProjectsIfNeeded() returns (started: bool)
      modifies this, store
      ensures started <==> ShouldLoad(old(store.Value()), old(inFlight), ProjectsQuery)
      ensures (store.Value(), inFlight) == Started(old(store.Value()), old(inFlight), ProjectsQuery, started)
    {
      if IsInFlight(ProjectsQuery) {
        return false;
      }
      var shouldLoad := store.projects.Idle? || store.projects.Error?;
      if !shouldLoad {
        return false;
      }
      started := StartQuery(ProjectsQuery);
    }

    method LoadProjectIfNeeded(id: Uuid) returns (started: bool)
      modifies this, store
      ensures started <==> ShouldLoad(old(store.Value()), old(inFlight), ProjectQuery(id))
      ensures (store.Value(), inFlight) == Started(old(store.Value()), old(inFlight), ProjectQuery(id), started)
    {
      if IsInFlight(ProjectQuery(id)) {
        return false;
      }
      if id in store.projectsById {
        return false;
      }
      if id in store.projectStates && (store.projectStates[id].Loading? || store.projectStates[id].Ready?) {
        return false;
      }
      started := StartQuery(ProjectQuery(id));
    }

    method LoadSessionsByProjectIfNeeded(projectId: Uuid) returns (started: bool)
      modifies this, store
      ensures started <==> ShouldLoad(old(store.Value()), old(inFlight), SessionsByProjectQuery(projectId))
      ensures (store.Value(), inFlight) == Started(old(store.Value()), old(inFlight), SessionsByProjectQuery(projectId), started)
    {
      if IsInFlight(SessionsByProjectQuery(projectId)) {
        return false;
      }
      if projectId in store.sessionsByProjectStates {
        var state := store.sessionsByProjectStates[projectId];
        if state.Loading? || state.Ready? {
          return false;
        }
      }
      started := StartQuery(SessionsByProjectQuery(projectId));
    }

    method LoadSessionIfNeeded(id: Uuid) returns (started: bool)
      modifies this, store
      ensures started <==> ShouldLoad(old(store.Value()), old(inFlight), SessionQuery(id))
      ensures (store.Value(), inFlight) == Started(old(store.Value()), old(inFlight), SessionQuery(id), started)
    {
      if IsInFlight(SessionQuery(id)) {
        return false;
      }
      if id in store.sessionsById {
        return false;
      }
      if id in store.sessionStates && (store.sessionStates[id].Loading? || store.sessionStates[id].Ready?) {
        return false;
      }
      started := StartQuery(SessionQuery(id));
    }

    /** `projects()`: load the list if needed, then read it. */
    method Projects() returns (r: Loadable<seq<Project>>)
      modifies this, store
      ensures (store.Value(), inFlight) == Started(old(store.Value()), old(inFlight), ProjectsQuery,
                                                   ShouldLoad(old(store.Value()), old(inFlight), ProjectsQuery))
      ensures r == ProjectsView(store.Value())
    {
      var _ := LoadProjectsIfNeeded();
      r := ProjectsView(store.Value());
    }

    method Project(id: Uuid) returns (r: Loadable<Option<Project>>)
      modifies this, store
      ensures (store.Value(), inFlight) == Started(old(store.Value()), old(inFlight), ProjectQuery(id),
                                                   ShouldLoad(old(store.Value()), old(inFlight), ProjectQuery(id)))
      ensures r == ProjectView(store.Value(), id)
    {
      var _ := LoadProjectIfNeeded(id);
      r := ProjectView(store.Value(), id);
    }

    method SessionsByProject(projectId: Uuid) returns (r: Loadable<seq<Session>>)
      modifies this, store
      ensures (store.Value(), inFlight) == Started(old(store.Value()), old(inFlight), SessionsByProjectQuery(projectId),
                                                   ShouldLoad(old(store.Value()), old(inFlight), SessionsByProjectQuery(projectId)))
      ensures r == SessionsByProjectView(store.Value(), projectId)
    {
      var _ := LoadSessionsByProjectIfNeeded(projectId);
      r := SessionsByProjectView(store.Value(), projectId);
    }

    method Session(id: Uuid) returns (r: Loadable<Option<Session>>)
      modifies this, store
      ensures (store.Value(), inFlight) == Started(old(store.Value()), old(inFlight), SessionQuery(id),
                                                   ShouldLoad(old(store.Value()), old(inFlight), SessionQuery(id)))
      ensures r == SessionView(store.Value(), id)
    {
      var _ := LoadSessionIfNeeded(id);
      r := SessionView(store.Value(), id);
    }
  }

  // ---------------------------------------------------------------------------
  // The load guards, as functions of the state they read

  predicate ShouldLoad(v: StoreValue, inFlight: set<QueryKey>, key: QueryKey)
  {
    key !in inFlight && NeedsLoad(v, key)
  }

  /** The state after a load of `key` was started, or left alone. */
  function Started(v: StoreValue, inFlight: set<QueryKey>, key: QueryKey, started: bool): (r: (StoreValue, set<QueryKey>))
    ensures started ==> r.1 == inFlight + {key} && QueryState(r.0, key) == Loading
    ensures started ==> forall k :: k != key ==> QueryState(r.0, k) == QueryState(v, k)
    ensures !started ==> r == (v, inFlight)
  {
    if started then (SetLoading(v, key), inFlight + {key}) else (v, inFlight)
  }

  /** A started load cannot be started again: the key is in flight and its state reads as
      loading, so even after its in-flight mark is cleared the guard stays shut. */
  lemma LoadStartsOnce(v: StoreValue, inFlight: set<QueryKey>, key: QueryKey)
    ensures var (w, f) := Started(v, inFlight, key, true);
      !ShouldLoad(w, f, key) && !NeedsLoad(w, key)
  {
  }

  /** The read that starts a load shows the query as loading. */
  lemma FirstReadIsLoading(v: StoreValue, key: QueryKey)
    requires NeedsLoad(v, key)
    ensures var w := SetLoading(v, key);
      match key
      case ProjectsQuery => ProjectsView(w) == Loading
      case ProjectQuery(id) => ProjectView(w, id) == Loading
      case SessionsByProjectQuery(id) => SessionsByProjectView(w, id) == Loading
      case SessionQuery(id) => SessionView(w, id) == Loading
  {
  }

  /** Invalidating a project that is still cached does not bring back its load: the guard
      reads the cache before the state. */
  lemma InvalidateCachedProjectKeepsCache(v: StoreValue, inFlight: set<QueryKey>, id: Uuid)
    requires id in v.projectsById
    ensures !ShouldLoad(InvalidateKey(v, ProjectQuery(id)), inFlight - {ProjectQuery(id)}, ProjectQuery(id))
    ensures ProjectView(InvalidateKey(v, ProjectQuery(id)), id) == Ready(Some(v.projectsById[id]))
  {
  }

  /** Invalidating the project list makes the next read load it again. */
  lemma InvalidateProjectsReloads(v: StoreValue, inFlight: set<QueryKey>)
    ensures ShouldLoad(InvalidateKey(v, ProjectsQuery), inFlight - {ProjectsQuery}, ProjectsQuery)
  {
  }
}
