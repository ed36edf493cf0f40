/**
 * The entities every layer shares: projects and sessions as the backend stores them,
 * and the gRPC status that service code returns. Uuids are modelled by their 128-bit value
 * as a natural number (so their order is the byte order of the uuid), timestamps by an
 * integer count on a monotone clock.
 */
module Domain {
  import opened Wrappers

  type Uuid = nat
  type Timestamp = int

  datatype Project = Project(id: Uuid, name: string, dir: string, createdAt: Timestamp, updatedAt: Timestamp)

  /** The full session record of the repository layer; the client layers only read
      `id`, `projectId` and `updatedAt`. */
  datatype Session = Session(
    id: Uuid,
    projectId: Uuid,
    parentSessionId: Option<Uuid>,
    showInGui: bool,
    name: string,
    harnessType: string,
    harnessSessionId: Option<string>,
    dir: Option<string>,
    summaryAdditions: Option<int>,
    summaryDeletions: Option<int>,
    summaryFiles: Option<int>,
    createdAt: Timestamp,
    updatedAt: Timestamp)

  /** The harness a session runs on when nothing else is said. */
  const DefaultHarnessType: string := "opencode"

  /** Whether the columns a six-column session row does not carry hold their defaults. */
  predicate HasDefaultExtras(s: Session)
  {
    s.parentSessionId.None? && s.harnessType == DefaultHarnessType && s.harnessSessionId.None? &&
    s.dir.None? && s.summaryAdditions.None? && s.summaryDeletions.None? && s.summaryFiles.None?
  }

  /** A session as far as the six columns `id, project_id, show_in_gui, name, created_at,
      updated_at` carry it: every other field at its default. */
  function SessionColumns(s: Session): (r: Session)
    ensures HasDefaultExtras(r)
    ensures r.id == s.id && r.projectId == s.projectId && r.showInGui == s.showInGui && r.name == s.name
    ensures r.createdAt == s.createdAt && r.updatedAt == s.updatedAt
    ensures HasDefaultExtras(s) ==> r == s
  {
    s.(parentSessionId := None, harnessType := DefaultHarnessType, harnessSessionId := None, dir := None,
       summaryAdditions := None, summaryDeletions := None, summaryFiles := None)
  }

  datatype Code = InvalidArgument | NotFound | Internal | Unavailable

  /** A `tonic::Status`: a code and a message. */
  datatype Status = Status(code: Code, message: string)
}
