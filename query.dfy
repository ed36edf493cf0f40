/**
 * The streaming queries of the client: sessions per project fetched once until they hold
 * data, the message list of a session subscribed to at most once, and the project list
 * that follows a server stream. What the background tasks send arrives through an inbox,
 * given here as the sequence of updates read in one frame; what the server answers is a
 * parameter of the functions that map it to states.
 */
module Query {
  import opened Wrappers
  import opened Domain
  import opened Protocol

  /** The state of one query. */
  datatype QueryState<T> = Loading | Data(value: T) | Error(message: string)

  /** A status as text; the model keeps its message. */
  function StatusText(s: Status): string
  {
    s.message
  }

  // ---------------------------------------------------------------------------
  // Inbox updates: the last one for a key wins

  function UpdatedIds<T>(inbox: seq<(Uuid, T)>): (r: set<Uuid>)
    ensures forall k :: k in r <==> exists j :: 0 <= j < |inbox| && inbox[j].0 == k
  {
    set j | 0 <= j < |inbox| :: inbox[j].0
  }

  /** The updates applied in order: every key read is present afterwards, and a key no update
      names keeps its state. Which state a named key ends with is `LastUpdateWins`. */
  function ApplyUpdates<T>(states: map<Uuid, T>, inbox: seq<(Uuid, T)>): (r: map<Uuid, T>)
    ensures r.Keys == states.Keys + UpdatedIds(inbox)
    ensures forall k :: k in states && k !in UpdatedIds(inbox) ==> r[k] == states[k]
    decreases |inbox|
  {
    if inbox == [] then states
    else
      var before := ApplyUpdates(states, inbox[..|inbox| - 1]);
      var (k, v) := inbox[|inbox| - 1];
      assert forall j :: 0 <= j < |inbox| - 1 ==> inbox[..|inbox| - 1][j] == inbox[j];
      assert UpdatedIds(inbox) == UpdatedIds(inbox[..|inbox| - 1]) + {k};
      before[k := v]
  }

  /** A key ends with the state of the last update that names it. */
  lemma {:induction false} LastUpdateWins<T>(states: map<Uuid, T>, inbox: seq<(Uuid, T)>, k: Uuid, j: nat)
    requires j < |inbox| && inbox[j].0 == k
    requires forall j' :: j < j' < |inbox| ==> inbox[j'].0 != k
    ensures k in ApplyUpdates(states, inbox) && ApplyUpdates(states, inbox)[k] == inbox[j].1
    decreases |inbox|
  {
    if j < |inbox| - 1 {
      var prefix := inbox[..|inbox| - 1];
      assert prefix[j] == inbox[j];
      assert forall j' :: j < j' < |prefix| ==> prefix[j'] == inbox[j'];
      LastUpdateWins(states, prefix, k, j);
    }
  }

  // ---------------------------------------------------------------------------
  // Sessions per project

  /** Whether `fetch_if_needed` starts a fetch: not while one is running, and not once the
      project holds data. */
  predicate NeedsFetch<T>(states: map<Uuid, QueryState<T>>, fetching: set<Uuid>, projectId: Uuid)
  {
    projectId !in fetching && !(projectId in states && states[projectId].Data?)
  }

  /** The state a fetch's task sends: the sessions when the server answers and every one
      converts, otherwise the error as text. */
  function SessionsReplyState(response: Result<seq<SessionModel>, Status>): (r: QueryState<seq<Session>>)
    ensures response.Failure? ==> r == Error(StatusText(response.error))
    ensures response.Success? ==>
      (r.Data? <==> forall i :: 0 <= i < |response.value| ==> FromSessionModel(response.value[i]).Success?)
    ensures r.Data? ==> |r.value| == |response.value|
    ensures r.Data? ==> forall i :: 0 <= i < |response.value| ==> Success(r.value[i]) == FromSessionModel(response.value[i])
    ensures !r.Loading?
  {
    match response
    case Failure(e) => Error(StatusText(e))
    case Success(models) =>
      match ConvertAll(models, FromSessionModel)
      case Success(sessions) => Data(sessions)
      case Failure(e) => Error(StatusText(e))
  }

  class Sessions {
    var stateByProject: map<Uuid, QueryState<seq<Session>>>
    var isFetching: set<Uuid>

    constructor ()
      ensures stateByProject == map[] && isFetching == {}
    {
      stateByProject := map[];
      isFetching := {};
    }

    /** `subscribe_state`: every update read clears its project's fetch and stores its state;
        then a fetch starts if needed, marking the project and setting it loading. `started`
        says whether it did. An unknown project reads as loading. */
    method SubscribeState(projectId: Uuid, inbox: seq<(Uuid, QueryState<seq<Session>>)>)
      returns (state: QueryState<seq<Session>>, started: bool)
      modifies this
      ensures var states := ApplyUpdates(old(stateByProject), inbox);
        var fetching := old(isFetching) - UpdatedIds(inbox);
        started == NeedsFetch(states, fetching, projectId) &&
        (started ==> stateByProject == states[projectId := Loading] && isFetching == fetching + {projectId}) &&
        (!started ==> stateByProject == states && isFetching == fetching)
      ensures state == if projectId in stateByProject then stateByProject[projectId] else Loading
    {
      var i := 0;
      while i < |inbox|
        invariant 0 <= i <= |inbox|
        invariant stateByProject == ApplyUpdates(old(stateByProject), inbox[..i])
        invariant isFetching == old(isFetching) - UpdatedIds(inbox[..i])
      {
        var (updatedProject, updatedState) := inbox[i];
        assert inbox[..i + 1][..i] == inbox[..i];
        assert UpdatedIds(inbox[..i + 1]) == UpdatedIds(inbox[..i]) + {updatedProject};
        isFetching := isFetching - {updatedProject};
        stateByProject := stateByProject[updatedProject := updatedState];
        i := i + 1;
      }
      assert inbox[..i] == inbox;
      started := FetchIfNeeded(projectId);
      state := if projectId in stateByProject then stateByProject[projectId] else Loading;
    }

    method FetchIfNeeded(projectId: Uuid) returns (started: bool)
      modifies this
      ensures started == NeedsFetch(old(stateByProject), old(isFetching), projectId)
      ensures started ==> stateByProject == old(stateByProject)[projectId := Loading] && isFetching == old(isFetching) + {projectId}
      ensures !started ==> stateByProject == old(stateByProject) && isFetching == old(isFetching)
    {
      if projectId in isFetching {
        return false;
      }
      if projectId in stateByProject && stateByProject[projectId].Data? {
        return false;
      }
      isFetching := isFetching + {projectId};
      stateByProject := stateByProject[projectId := Loading];
      started := true;
    }
  }

  /** Two frames without news start one fetch: the first marks the project, so the second
      finds it fetching. */
  lemma FetchStartsOnce<T>(states: map<Uuid, QueryState<T>>, fetching: set<Uuid>, projectId: Uuid)
    ensures !NeedsFetch(states[projectId := Loading], fetching + {projectId}, projectId)
  {
  }

  /** Once a project holds data, nothing refetches it until an update replaces its state. */
  lemma DataSuppressesFetch<T>(states: map<Uuid, QueryState<T>>, fetching: set<Uuid>, projectId: Uuid, inbox: seq<(Uuid, QueryState<T>)>)
    requires projectId in states && states[projectId].Data? && projectId !in UpdatedIds(inbox)
    ensures !NeedsFetch(ApplyUpdates(states, inbox), fetching - UpdatedIds(inbox), projectId)
  {
  }

  /** A failed fetch is retried: its error arrives, clears the mark, and the next frame
      fetches again. */
  lemma ErrorRefetches<T>(states: map<Uuid, QueryState<T>>, fetching: set<Uuid>, projectId: Uuid, message: string)
    ensures var inbox: seq<(Uuid, QueryState<T>)> := [(projectId, Error(message))];
      NeedsFetch(ApplyUpdates(states, inbox), fetching - UpdatedIds(inbox), projectId)
  {
    var inbox: seq<(Uuid, QueryState<T>)> := [(projectId, Error(message))];
    assert inbox[0].0 == projectId;
    LastUpdateWins(states, inbox, projectId, 0);
  }

  // ---------------------------------------------------------------------------
  // Messages per session

  /** What the subscription task sends: an error if the stream cannot be opened; otherwise
      the data of each item until one fails, whose error ends it; and an error when the
      stream ends. */
  function MessageStreamStates<M>(answer: Result<seq<Result<seq<M>, Status>>, Status>): (r: seq<QueryState<seq<M>>>)
    ensures answer.Failure? ==> r == [Error(StatusText(answer.error))]
    ensures r != [] && r[|r| - 1].Error?
    ensures forall i :: 0 <= i < |r| - 1 ==> r[i].Data?
    ensures answer.Success? ==> |r| <= |answer.value| + 1
    ensures answer.Success? && (forall i :: 0 <= i < |answer.value| ==> answer.value[i].Success?) ==>
      r == seq(|answer.value|, i requires 0 <= i < |answer.value| => Data(answer.value[i].value)) + [Error(MessagesStreamClosed)]
  {
    match answer
    case Failure(e) => [Error(StatusText(e))]
    case Success(items) => MessageItems(items)
  }

  const MessagesStreamClosed := "messages stream closed unexpectedly"

  function MessageItems<M>(items: seq<Result<seq<M>, Status>>): (r: seq<QueryState<seq<M>>>)
    ensures r != [] && r[|r| - 1].Error?
    ensures |r| <= |items| + 1
    ensures forall i :: 0 <= i < |r| - 1 ==> items[i].Success? && r[i] == Data(items[i].value)
    ensures (forall i :: 0 <= i < |items| ==> items[i].Success?) ==> |r| == |items| + 1 && r[|r| - 1] == Error(MessagesStreamClosed)
    ensures |r| <= |items| && items[|r| - 1].Failure? ==> r[|r| - 1] == Error(StatusText(items[|r| - 1].error))
    decreases |items|
  {
    if items == [] then [Error(MessagesStreamClosed)]
    else
      match items[0]
      case Failure(e) => [Error(StatusText(e))]
      case Success(messages) =>
        var rest := MessageItems(items[1..]);
        assert forall i :: 1 <= i < |items| ==> items[1..][i - 1] == items[i];
        [Data(messages)] + rest
  }

  /** Once the stream stops, however it stops, the last state a subscription delivers is an
      error. A stream the server keeps open never delivers that state. */
  lemma SubscriptionEndsInError<M>(answer: Result<seq<Result<seq<M>, Status>>, Status>, before: map<Uuid, QueryState<seq<M>>>, sessionId: Uuid)
    ensures var states := MessageStreamStates(answer);
      var inbox := seq(|states|, i requires 0 <= i < |states| => (sessionId, states[i]));
      ApplyUpdates(before, inbox)[sessionId].Error?
  {
    var states := MessageStreamStates(answer);
    var inbox := seq(|states|, i requires 0 <= i < |states| => (sessionId, states[i]));
    LastUpdateWins(before, inbox, sessionId, |inbox| - 1);
  }

  class Messages<M> {
    var stateBySession: map<Uuid, QueryState<seq<M>>>
    var subscriptions: set<Uuid>

    constructor ()
      ensures stateBySession == map[] && subscriptions == {}
    {
      stateBySession := map[];
      subscriptions := {};
    }

    /** `subscribe_state`: the updates read are stored in order; a session is subscribed to
        the first time it is asked for and never again, even after its stream has ended. */
    method SubscribeState(sessionId: Uuid, inbox: seq<(Uuid, QueryState<seq<M>>)>)
      returns (state: QueryState<seq<M>>, subscribed: bool)
      modifies this
      ensures subscribed <==> sessionId !in old(subscriptions)
      ensures subscriptions == old(subscriptions) + {sessionId}
      ensures subscribed ==> stateBySession == ApplyUpdates(old(stateBySession), inbox)[sessionId := Loading]
      ensures !subscribed ==> stateBySession == ApplyUpdates(old(stateBySession), inbox)
      ensures state == if sessionId in stateBySession then stateBySession[sessionId] else Loading
    {
      var i := 0;
      while i < |inbox|
        invariant 0 <= i <= |inbox|
        invariant stateBySession == ApplyUpdates(old(stateBySession), inbox[..i])
        invariant subscriptions == old(subscriptions)
      {
        var (updatedSession, updatedState) := inbox[i];
        assert inbox[..i + 1][..i] == inbox[..i];
        stateBySession := stateBySession[updatedSession := updatedState];
        i := i + 1;
      }
      assert inbox[..i] == inbox;
      subscribed := sessionId !in subscriptions;
      if subscribed {
        subscriptions := subscriptions + {sessionId};
        stateBySession := stateBySession[sessionId := Loading];
      }
      state := if sessionId in stateBySession then stateBySession[sessionId] else Loading;
    }
  }

  // ---------------------------------------------------------------------------
  // The project list

  const ProjectsStreamClosed := "projects stream closed unexpectedly"

  /** `Projects::map`: the snapshot when every project converts, otherwise the first
      conversion error as text. */
  function ProjectSnapshotState(item: Result<seq<ProjectModel>, Status>): (r: QueryState<seq<Project>>)
    ensures item.Failure? ==> r == Error(StatusText(item.error))
    ensures item.Success? ==> (r.Data? <==> forall i :: 0 <= i < |item.value| ==> FromProjectModel(item.value[i]).Success?)
    ensures r.Data? ==> |r.value| == |item.value|
    ensures r.Data? ==> forall i :: 0 <= i < |item.value| ==> Success(r.value[i]) == FromProjectModel(item.value[i])
    ensures !r.Loading?
  {
    match item
    case Failure(e) => Error(StatusText(e))
    case Success(models) =>
      match ConvertAll(models, FromProjectModel)
      case Success(projects) => Data(projects)
      case Failure(e) => Error(StatusText(e))
  }

  /** What `listen_updates` sends: an error if the stream cannot be opened; otherwise one
      state per item, an error for a bad one without stopping, and an error at the end. */
  function ProjectStreamStates(answer: Result<seq<Result<seq<ProjectModel>, Status>>, Status>): (r: seq<QueryState<seq<Project>>>)
    ensures answer.Failure? ==> r == [Error(StatusText(answer.error))]
    ensures answer.Success? ==> |r| == |answer.value| + 1 && r[|r| - 1] == Error(ProjectsStreamClosed)
    ensures answer.Success? ==> forall i :: 0 <= i < |answer.value| ==> r[i] == ProjectSnapshotState(answer.value[i])
  {
    match answer
    case Failure(e) => [Error(StatusText(e))]
    case Success(items) => seq(|items|, i requires 0 <= i < |items| => ProjectSnapshotState(items[i])) + [Error(ProjectsStreamClosed)]
  }

  class Projects {
    var state: QueryState<seq<Project>>

    constructor ()
      ensures state == Loading
    {
      state := Loading;
    }

    /** `subscribe_state`: only the last update read is adopted. */
    method SubscribeState(inbox: seq<QueryState<seq<Project>>>) returns (current: QueryState<seq<Project>>)
      modifies this
      ensures state == if inbox == [] then old(state) else inbox[|inbox| - 1]
      ensures current == state
    {
      if inbox != [] {
        state := inbox[|inbox| - 1];
      }
      current := state;
    }
  }

  /** A bad snapshot is followed by the next one: after an item that does not convert, a
      later good item still yields its data. */
  lemma BadSnapshotDoesNotStop(items: seq<Result<seq<ProjectModel>, Status>>, bad: nat, good: nat)
    requires bad < good < |items|
    requires ProjectSnapshotState(items[bad]).Error?
    requires items[good].Success? && forall i :: 0 <= i < |items[good].value| ==> FromProjectModel(items[good].value[i]).Success?
    ensures var states := ProjectStreamStates(Success(items));
      states[bad].Error? && states[good].Data? && |states[good].value| == |items[good].value|
  {
  }
}
