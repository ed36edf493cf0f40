/**
 * The gRPC boundary of the backend: the wire records of projects and sessions and their
 * conversions to and from the domain records, the mapping of repository errors to gRPC
 * statuses, and the `required_field` check of the request handlers.
 */
module Protocol {
  import opened Wrappers
  import opened Domain
  import opened Codec
  import Database

  /** `proto_project::ProjectModel`: every field as text. */
  datatype ProjectModel = ProjectModel(id: string, name: string, dir: string, createdAt: string, updatedAt: string)

  /** `proto_session::SessionModel`: the six fields the wire carries. */
  datatype SessionModel = SessionModel(id: string, projectId: string, showInGui: bool, name: string, createdAt: string, updatedAt: string)

  // ---------------------------------------------------------------------------
  // Projects

  function ToProjectModel(p: Project): (m: ProjectModel)
    ensures m.name == p.name && m.dir == p.dir
    ensures ParseUuid("project.id", m.id) == Success(p.id)
    ensures ParseTimestamp("project.created_at", m.createdAt) == Success(p.createdAt)
    ensures ParseTimestamp("project.updated_at", m.updatedAt) == Success(p.updatedAt)
  {
    ParseUuidFormat("project.id", p.id);
    ParseTimestampFormat("project.created_at", p.createdAt);
    ParseTimestampFormat("project.updated_at", p.updatedAt);
    ProjectModel(FormatUuid(p.id), p.name, p.dir, FormatTimestamp(p.createdAt), FormatTimestamp(p.updatedAt))
  }

  /** `Project::try_from`: the id, then `created_at`, then `updated_at`; the first field that
      does not parse is named in an `InvalidArgument` status. */
  function FromProjectModel(m: ProjectModel): (r: Result<Project, Status>)
    ensures r.Success? <==>
      ParseUuid("project.id", m.id).Success? && ParseTimestamp("project.created_at", m.createdAt).Success? &&
      ParseTimestamp("project.updated_at", m.updatedAt).Success?
    ensures ParseUuid("project.id", m.id).Failure? ==> r == Failure(InvalidField("project.id", UuidSyntaxError))
    ensures ParseUuid("project.id", m.id).Success? && ParseTimestamp("project.created_at", m.createdAt).Failure? ==>
      r == Failure(InvalidField("project.created_at", DateTimeSyntaxError))
    ensures r.Failure? ==> r.error.code == InvalidArgument
    ensures r.Success? ==> r.value.name == m.name && r.value.dir == m.dir
    ensures r.Success? ==>
      ParseUuid("project.id", m.id) == Success(r.value.id) &&
      ParseTimestamp("project.created_at", m.createdAt) == Success(r.value.createdAt) &&
      ParseTimestamp("project.updated_at", m.updatedAt) == Success(r.value.updatedAt)
  {
    match ParseUuid("project.id", m.id)
    case Failure(e) => Failure(e)
    case Success(id) =>
      match ParseTimestamp("project.created_at", m.createdAt)
      case Failure(e) => Failure(e)
      case Success(createdAt) =>
        match ParseTimestamp("project.updated_at", m.updatedAt)
        case Failure(e) => Failure(e)
        case Success(updatedAt) => Success(Project(id, m.name, m.dir, createdAt, updatedAt))
  }

  /** A project survives the wire unchanged. */
  lemma ProjectRoundTrip(p: Project)
    ensures FromProjectModel(ToProjectModel(p)) == Success(p)
  {
  }

  /** A wire record that converts comes back in the formatter's spelling, which converts to
      the same project. */
  lemma ProjectModelNormalises(m: ProjectModel)
    requires FromProjectModel(m).Success?
    ensures FromProjectModel(ToProjectModel(FromProjectModel(m).value)) == FromProjectModel(m)
  {
    ProjectRoundTrip(FromProjectModel(m).value);
  }

  /** The spelling is not kept: a record whose id has a leading zero converts, and the
      record it converts back to has another id text. */
  lemma ProjectSpellingNotKept()
    ensures var m := ProjectModel("07", "cody", "/src", "1", "2");
      FromProjectModel(m).Success? && ToProjectModel(FromProjectModel(m).value) != m
  {
    UuidSpellings("project.id");
    LeadingZeroIgnored("7");
    assert ParseNat("07") == Some(7);
    assert ParseNat("1") == Some(1) && ParseNat("2") == Some(2);
    assert FormatUuid(7) != "07";
  }

  // ---------------------------------------------------------------------------
  // Sessions

  function ToSessionModel(s: Session): (m: SessionModel)
    ensures m.showInGui == s.showInGui && m.name == s.name
    ensures ParseUuid("session.id", m.id) == Success(s.id)
    ensures ParseUuid("session.project_id", m.projectId) == Success(s.projectId)
  {
    ParseUuidFormat("session.id", s.id);
    ParseUuidFormat("session.project_id", s.projectId);
    SessionModel(FormatUuid(s.id), FormatUuid(s.projectId), s.showInGui, s.name, FormatTimestamp(s.createdAt), FormatTimestamp(s.updatedAt))
  }

  /** `Session::try_from`: id, project id, `created_at`, `updated_at` in that order; every
      field the wire does not carry takes its default. */
  function FromSessionModel(m: SessionModel): (r: Result<Session, Status>)
    ensures r.Success? <==>
      ParseUuid("session.id", m.id).Success? && ParseUuid("session.project_id", m.projectId).Success? &&
      ParseTimestamp("session.created_at", m.createdAt).Success? && ParseTimestamp("session.updated_at", m.updatedAt).Success?
    ensures ParseUuid("session.id", m.id).Failure? ==> r == Failure(InvalidField("session.id", UuidSyntaxError))
    ensures ParseUuid("session.id", m.id).Success? && ParseUuid("session.project_id", m.projectId).Failure? ==>
      r == Failure(InvalidField("session.project_id", UuidSyntaxError))
    ensures (ParseUuid("session.id", m.id).Success? && ParseUuid("session.project_id", m.projectId).Success? &&
             ParseTimestamp("session.created_at", m.createdAt).Failure?) ==>
      r == Failure(InvalidField("session.created_at", DateTimeSyntaxError))
    ensures r.Failure? ==> r.error.code == InvalidArgument
    ensures r.Success? ==> HasDefaultExtras(r.value) && r.value.showInGui == m.showInGui && r.value.name == m.name
    ensures r.Success? ==>
      ParseUuid("session.id", m.id) == Success(r.value.id) &&
      ParseUuid("session.project_id", m.projectId) == Success(r.value.projectId) &&
      ParseTimestamp("session.created_at", m.createdAt) == Success(r.value.createdAt) &&
      ParseTimestamp("session.updated_at", m.updatedAt) == Success(r.value.updatedAt)
  {
    match ParseUuid("session.id", m.id)
    case Failure(e) => Failure(e)
    case Success(id) =>
      match ParseUuid("session.project_id", m.projectId)
      case Failure(e) => Failure(e)
      case Success(projectId) =>
        match ParseTimestamp("session.created_at", m.createdAt)
        case Failure(e) => Failure(e)
        case Success(createdAt) =>
          match ParseTimestamp("session.updated_at", m.updatedAt)
          case Failure(e) => Failure(e)
          case Success(updatedAt) =>
            Success(Session(id, projectId, None, m.showInGui, m.name, DefaultHarnessType, None, None, None, None, None, createdAt, updatedAt))
  }

  /** Id, project, visibility, name and both timestamps survive the wire; the other fields
      come back as their defaults. */
  lemma SessionRoundTrip(s: Session)
    ensures FromSessionModel(ToSessionModel(s)) == Success(SessionColumns(s))
    ensures HasDefaultExtras(s) ==> FromSessionModel(ToSessionModel(s)) == Success(s)
  {
    ParseTimestampFormat("session.created_at", s.createdAt);
    ParseTimestampFormat("session.updated_at", s.updatedAt);
  }

  /** A wire session that converts comes back in the formatter's spelling, which converts to
      the same session. */
  lemma SessionModelNormalises(m: SessionModel)
    requires FromSessionModel(m).Success?
    ensures FromSessionModel(ToSessionModel(FromSessionModel(m).value)) == FromSessionModel(m)
  {
    SessionRoundTrip(FromSessionModel(m).value);
  }

  // ---------------------------------------------------------------------------
  // Errors as statuses

  datatype ProjectRepoError = ProjectDatabaseError(cause: Database.DatabaseError)

  function ProjectRepoStatus(e: ProjectRepoError): (s: Status)
    ensures s == Status(Internal, Database.ErrorText(e.cause))
  {
    match e
    case ProjectDatabaseError(cause) => Status(Internal, Database.ErrorText(cause))
  }

  datatype SessionRepoError =
    | SessionDatabaseError(cause: Database.DatabaseError)
    | ProjectNotFound(projectId: Uuid)
    | HarnessError(message: string)

  /** A database failure is internal, a missing project is "not found" naming the id, and a
      harness failure is "unavailable" with the harness's message. */
  function SessionRepoStatus(e: SessionRepoError): (s: Status)
    ensures s.code == Internal <==> e.SessionDatabaseError?
    ensures s.code == NotFound <==> e.ProjectNotFound?
    ensures s.code == Unavailable <==> e.HarnessError?
    ensures e.ProjectNotFound? ==> s.message == "project not found: " + FormatUuid(e.projectId)
    ensures e.HarnessError? ==> s.message == e.message
    ensures e.SessionDatabaseError? ==> s.message == Database.ErrorText(e.cause)
  {
    match e
    case SessionDatabaseError(cause) => Status(Internal, Database.ErrorText(cause))
    case ProjectNotFound(id) => Status(NotFound, "project not found: " + FormatUuid(id))
    case HarnessError(message) => Status(Unavailable, message)
  }

  /** The project id a not-found status names can be read back from it. */
  lemma NotFoundNamesTheProject(id: Uuid)
    ensures var m := SessionRepoStatus(ProjectNotFound(id)).message;
      |m| > 19 && ParseUuid("project_id", m[19..]) == Success(id)
  {
    var m := SessionRepoStatus(ProjectNotFound(id)).message;
    assert m[19..] == FormatUuid(id);
    ParseUuidFormat("project_id", id);
  }

  // ---------------------------------------------------------------------------
  // Request fields

  /** `required_field`: a present field is its value, a missing one an `InvalidArgument`
      status "missing <name>". */
  function RequiredField<T>(field: Option<T>, name: string): (r: Result<T, Status>)
    ensures r.Success? <==> field.Some?
    ensures r.Success? ==> r.value == field.value
    ensures r.Failure? ==> r.error == Status(InvalidArgument, "missing " + name)
  {
    match field
    case Some(v) => Success(v)
    case None => Failure(Status(InvalidArgument, "missing " + name))
  }

  /** What the create and update handlers do with their request body before any repository
      call: it must be present, then it must convert. */
  function DecodeSessionBody(body: Option<SessionModel>): (r: Result<Session, Status>)
    ensures body.None? ==> r == Failure(Status(InvalidArgument, "missing session"))
    ensures body.Some? ==> r == FromSessionModel(body.value)
  {
    assert "missing " + "session" == "missing session";
    match RequiredField(body, "session")
    case Failure(e) => Failure(e)
    case Success(m) => FromSessionModel(m)
  }

  /** `into_iter().map(try_from).collect::<Result<Vec<_>, _>>()`: all converted, or the
      first failure. */
  function ConvertAll<A, B>(xs: seq<A>, convert: A -> Result<B, Status>): (r: Result<seq<B>, Status>)
    ensures r.Success? <==> forall i :: 0 <= i < |xs| ==> convert(xs[i]).Success?
    ensures r.Success? ==> |r.value| == |xs| && forall i :: 0 <= i < |xs| ==> r.value[i] == convert(xs[i]).value
    ensures r.Failure? ==>
      exists i :: 0 <= i < |xs| && convert(xs[i]) == Failure(r.error) && (forall j :: 0 <= j < i ==> convert(xs[j]).Success?)
    decreases |xs|
  {
    if xs == [] then Success([])
    else
      match convert(xs[0])
      case Failure(e) => Failure(e)
      case Success(y) =>
        match ConvertAll(xs[1..], convert)
        case Failure(e) =>
          ghost var i :| 0 <= i < |xs[1..]| && convert(xs[1..][i]) == Failure(e) &&
                         (forall j :: 0 <= j < i ==> convert(xs[1..][j]).Success?);
          assert convert(xs[i + 1]) == Failure(e);
          Failure(e)
        case Success(ys) => Success([y] + ys)
  }
}
