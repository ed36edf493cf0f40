/**
 * The message service of the backend: the limit check of `list_session_messages`, and the
 * registry of one latest-value sender per session that `subscribe_session_messages` fills
 * and `send_message` republishes to. A `watch::Sender` is its latest value; what the
 * message repository answers is a parameter.
 */
module MessageService {
  import opened Wrappers
  import opened Domain
  import opened Codec
  import opened Protocol
  import opened MessageStore

  const LimitNotPositive := Status(InvalidArgument, "limit must be greater than 0")

  /** A limit must be positive when it is given; an absent or positive one is passed on as is. */
  function ValidateLimit(limit: Option<int>): (r: Result<Option<int>, Status>)
    ensures r.Success? <==> limit.None? || limit.value > 0
    ensures r.Success? ==> r.value == limit
    ensures r.Failure? ==> r.error == LimitNotPositive
  {
    if limit.Some? && limit.value <= 0 then Failure(LimitNotPositive) else Success(limit)
  }

  /** What the repository is asked by `list_session_messages`, if it is asked. */
  datatype ListRequest = ListRequest(sessionId: Uuid, limit: Option<int>)

  /** `list_session_messages` up to the repository call: the session id, then the limit. */
  function ListRequestOf(sessionId: string, limit: Option<int>): (r: Result<ListRequest, Status>)
    ensures ParseUuid("session_id", sessionId).Failure? ==> r == Failure(ParseUuid("session_id", sessionId).error)
    ensures r.Success? <==> ParseUuid("session_id", sessionId).Success? && (limit.None? || limit.value > 0)
    ensures r.Success? ==> r.value == ListRequest(ParseUuid("session_id", sessionId).value, limit)
    ensures ParseUuid("session_id", sessionId).Success? && r.Failure? ==> r.error == LimitNotPositive
  {
    match ParseUuid("session_id", sessionId)
    case Failure(e) => Failure(e)
    case Success(id) =>
      match ValidateLimit(limit)
      case Failure(e) => Failure(e)
      case Success(checked) => Success(ListRequest(id, checked))
  }

  /** A well-formed id with a limit of zero or less is refused before the repository is
      consulted, whatever the repository holds. */
  lemma NonPositiveLimitRefused(sessionId: Uuid, limit: int)
    requires limit <= 0
    ensures ListRequestOf(FormatUuid(sessionId), Some(limit)) == Failure(LimitNotPositive)
  {
    ParseUuidFormat("session_id", sessionId);
  }

  const SenderLockPoisoned := Status(Internal, "message sender lock poisoned")

  /** The senders, one per subscribed session, each as the last list it was given. */
  class MessageSenders {
    var latest: map<Uuid, seq<Message>>

    constructor ()
      ensures latest == map[]
    {
      latest := map[];
    }

    /** `subscribe_session_messages`: the session's sender is reused or created once with an
        empty list; then the current list (`listed`, what the repository answers) replaces
        its value and is the stream's first item. A sender created before a failed listing
        stays. */
    method Subscribe(sessionIdText: string, lockPoisoned: bool, listed: Result<seq<Message>, Status>)
      returns (r: Result<seq<Message>, Status>)
      modifies this
      ensures ParseUuid("session_id", sessionIdText).Failure? ==>
        r == Failure(ParseUuid("session_id", sessionIdText).error) && latest == old(latest)
      ensures ParseUuid("session_id", sessionIdText).Success? && lockPoisoned ==>
        r == Failure(SenderLockPoisoned) && latest == old(latest)
      ensures ParseUuid("session_id", sessionIdText).Success? && !lockPoisoned ==>
        var id := ParseUuid("session_id", sessionIdText).value;
        latest.Keys == old(latest).Keys + {id} &&
        (forall s :: s in old(latest) && s != id ==> latest[s] == old(latest)[s]) &&
        r == listed &&
        (listed.Success? ==> latest[id] == listed.value) &&
        (listed.Failure? ==> latest[id] == if id in old(latest) then old(latest)[id] else [])
    {
      var parsed := ParseUuid("session_id", sessionIdText);
      if parsed.Failure? {
        return Failure(parsed.error);
      }
      if lockPoisoned {
        return Failure(SenderLockPoisoned);
      }
      var id := parsed.value;
      if id !in latest {
        latest := latest[id := []];
      }
      if listed.Failure? {
        return Failure(listed.error);
      }
      latest := latest[id := listed.value];
      r := Success(listed.value);
    }

    /** `send_message`: a well-formed request with an input is sent, and on success the
        session's current list (`current`) is republished to its sender, if it has one. */
    method SendMessage<I>(sessionIdText: string, input: Option<I>, sent: Result<Message, Status>, current: seq<Message>)
      returns (r: Result<Message, Status>)
      modifies this
      ensures ParseUuid("session_id", sessionIdText).Failure? ==> r == Failure(ParseUuid("session_id", sessionIdText).error)
      ensures ParseUuid("session_id", sessionIdText).Success? && input.None? ==> r == Failure(Status(InvalidArgument, "missing input"))
      ensures r.Success? <==> ParseUuid("session_id", sessionIdText).Success? && input.Some? && sent.Success?
      ensures r.Success? ==> r.value == sent.value
      ensures r.Failure? ==> latest == old(latest)
      ensures r.Success? ==> latest == Publish(old(latest), ParseUuid("session_id", sessionIdText).value, current)
    {
      var parsed := ParseUuid("session_id", sessionIdText);
      if parsed.Failure? {
        return Failure(parsed.error);
      }
      assert "missing " + "input" == "missing input";
      var required := RequiredField(input, "input");
      if required.Failure? {
        return Failure(required.error);
      }
      if sent.Failure? {
        return Failure(sent.error);
      }
      latest := Publish(latest, parsed.value, current);
      r := Success(sent.value);
    }
  }

  /** Republishing a session's list reaches its sender only. */
  function Publish(latest: map<Uuid, seq<Message>>, id: Uuid, current: seq<Message>): (r: map<Uuid, seq<Message>>)
    ensures r.Keys == latest.Keys
    ensures id in latest ==> r[id] == current
    ensures forall s :: s in latest && s != id ==> r[s] == latest[s]
  {
    if id in latest then latest[id := current] else latest
  }
}
