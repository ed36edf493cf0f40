# cody's synchronisation core, modelled in Dafny

cody is a desktop client for coding-agent sessions. A backend owns a SQLite database of
projects, sessions and agent messages. It keeps an in-memory copy of projects and sessions
with latest-value watchers, and serves both through a gRPC/tarpc boundary. The egui front end
holds a normalised client cache fed by replies and push events. This project models that path:

- `domain.dfy`, `codec.dfy`, `protocol.dfy`: the shared records, the text forms of ids and
  timestamps on the wire, the wire-record conversions, the repository-error-to-status mapping
  and `required_field`.
- `database.dfy`: the project and session tables with the schema's constraints as an
  invariant, the row-count helpers, the CRUD statements and the one-shot transaction.
- `message_store.dfy`: the message and message-part tables, the part-text merge rule and the
  `LEFT JOIN` row grouping of `list_session_messages`.
- `repositories.dfy`: the project repository, and the two session repositories. One calls the
  harness before it persists; the other inserts inside a transaction and rolls back when the
  harness fails.
- `message_service.dfy`: the limit check and the per-session sender registry of the message service.
- `state_error.dfy`, `entity_state.dfy`, `grouped_state.dfy`, `local_backend.dfy`: the
  backend's in-memory keyed state and grouped state with their watchers, and `LocalBackend`.
  `LocalBackend` writes to the database first and mirrors each success into the states.
- `client_store.dfy`, `live_query.dfy`, `sync_engine.dfy`, `query.dfy`: the client cache and
  its reducer, the two clients around it with their load-once guards and in-flight
  bookkeeping, and the older streaming queries.
- `focus.dfy`, `directory_picker.dfy`, `model_selector.dfy`: the widget logic with no
  rendering. This covers path expansion and directory suggestions, focus movement over a
  list, and the model search and selection.
- `wrappers.dfy`, `seqs.dfy`: Option/Result and the sequence, string, sort and map helpers.

Project state that the source updates in place is held in classes. Each method is proved
equal to a pure specification function, and the properties are proved about those functions.
Calls the model cannot see are inputs of the operation:

- the harness;
- the engine's refusal of a statement;
- a poisoned lock of the in-memory states, and of the connection when a transaction begins;
- an RPC outcome;
- the inbox contents;
- HOME and the directory listings;
- what the user did in a frame.

Lists are ordered by `updated_at` only. A push update carries the whole new value of a
project or session. There are no revision numbers.

## Model

| member | source | states |
|---|---|---|
| Codec.ParseNat | src/backend/proto_utils.rs:5-7 | a text parses exactly when it is one or more digits, leading zeros included, and then to the value of those digits |
| Codec.LeadingZeroIgnored | src/backend/proto_utils.rs:5-7 | a leading zero does not change what a numeral parses to, so one value has several accepted spellings |
| Codec.DecimalCanonical | src/backend/proto_utils.rs:15-17 | the numeral printed for a number has no leading zero and has that number as its value |
| Codec.FormatUuid | src/backend/repo/project.rs:36-46 | an id's text is its canonical numeral, which parses back to the id |
| Codec.FormatTimestamp | src/backend/proto_utils.rs:15-17 | a date-time's text starts with "-" exactly when it is negative; the rest is the canonical numeral of its magnitude, which parses back to the magnitude |
| Codec.ParseTimestampText | src/backend/proto_utils.rs:9-13 | every numeral reads as its value; "-" followed by a numeral of a positive value reads as the negated value; nothing else reads as a date-time |
| Codec.ParseFormatTimestamp | src/backend/proto_utils.rs:9-17 | the formatted text of a date-time reads back as it |
| Codec.ParseUuid | src/backend/proto_utils.rs:5-7 | a field parses exactly when it is a numeral, leading zeros allowed, and then to the value of its digits, whose own text parses back to it; otherwise an `InvalidArgument` status "invalid <field>: …" |
| Codec.ParseTimestamp | src/backend/proto_utils.rs:9-13 | a field parses exactly when its text reads as a date-time, and then to that value, whose formatted text reads back as it; otherwise an `InvalidArgument` status naming the field |
| Codec.UuidSpellings | src/backend/proto_utils.rs:5-7 | "007" and "7" both parse to the id 7, and 7 prints as "7" |
| Codec.TimestampSpellings | src/backend/proto_utils.rs:9-17 | "-042" and "-42" both parse to the date-time -42, and -42 prints as "-42" |
| Codec.ParseUuidFormat | src/backend/repo/project.rs:36-60 | parsing the text form of a uuid gives the uuid back |
| Codec.ParseTimestampFormat | src/backend/proto_utils.rs:9-16 | parsing the formatted date-time gives the date-time back |
| Codec.ParseDecimal | src/backend/proto_utils.rs:5-16 | the canonical numeral of a number parses back to that number |
| Protocol.ToProjectModel | src/backend/repo/project.rs:36-46 | name and dir are copied; id and both timestamps are written so that they parse back to the project's |
| Protocol.FromProjectModel | src/backend/repo/project.rs:48-60 | succeeds exactly when id, `created_at` and `updated_at` all parse; the first that fails is named in an `InvalidArgument` status (`project.id`, then `project.created_at`); on success name and dir are copied and each other field is what its text parses to |
| Protocol.ProjectRoundTrip | src/backend/repo/project.rs:36-60 | project → model → project gives the same project |
| Protocol.ProjectModelNormalises | src/backend/repo/project.rs:36-60 | a wire record that converts, converted back and converted again, gives the same project: converting back writes the canonical spelling of the same values |
| Protocol.ProjectSpellingNotKept | src/backend/repo/project.rs:36-60 | the spelling is not kept: the record with id "07" converts, and converting its project back gives another record (id "7") |
| Protocol.ToSessionModel | src/backend/repo/session.rs:53-64 | visibility and name are copied; id and project id are written so that they parse back |
| Protocol.FromSessionModel | src/backend/repo/session.rs:66-86 | succeeds exactly when id, project id and both timestamps parse, naming the first that fails (`session.id`, `session.project_id`, `session.created_at`) in an `InvalidArgument` status; every field the wire lacks takes its default (no parent, harness "opencode", no harness id, dir or summaries), and each parsed field is what its text parses to |
| Protocol.SessionRoundTrip | src/backend/repo/session.rs:53-86 | session → model → session keeps id, project, visibility, name and timestamps and resets the rest to defaults; a session already at its defaults comes back unchanged |
| Protocol.SessionModelNormalises | src/backend/repo/session.rs:53-86 | a wire record that converts, converted back and converted again, gives the same session |
| Protocol.ProjectRepoStatus | src/backend/repo/project.rs:28-34 | a database error becomes an `Internal` status carrying the error's text |
| Protocol.SessionRepoStatus | src/backend/repo/session.rs:41-51 | `Internal` exactly for database errors, `NotFound` exactly for a missing project, with "project not found: <id>", and `Unavailable` exactly for harness errors, with the harness's message |
| Protocol.NotFoundNamesTheProject | src/backend/repo/session.rs:45-47 | the id in a not-found status reads back as the missing project's id |
| Protocol.RequiredField | src/backend/service/mod.rs:18-20 | a present field is returned as it is; a missing one fails with `InvalidArgument` "missing <name>"; nothing else can happen |
| Protocol.DecodeSessionBody | src/backend/service/session.rs:47-49 | a missing body is "missing session" and nothing else is looked at; a present one is the result of converting it |
| Protocol.ConvertAll | src/query/session.rs:86-93 | all items convert, in order and with the same length, or the result is the error of the first item that fails |
| Query.ApplyUpdates | src/query/session.rs:34-38 | after the inbox is applied, every key it names is present and every key it does not name keeps its state |
| Query.LastUpdateWins | src/query/message.rs:35-38 | a key ends with the state of the last inbox update that names it |
| Query.SessionsReplyState | src/query/session.rs:67-83 | a failed call is an `Error` with the status text; a reply is `Data` exactly when every session converts, and then it holds the converted sessions in order; never `Loading` |
| Query.Sessions.constructor | src/query/session.rs:24-31 | no states, nothing fetching |
| Query.Sessions.SubscribeState | src/query/session.rs:33-46 | the inbox is applied and each updated project's fetch mark cleared; then a fetch starts exactly when the project is not fetching and holds no data, marking it and setting it `Loading`; an unknown project reads as `Loading` |
| Query.Sessions.FetchIfNeeded | src/query/session.rs:48-62 | a no-op while the project is fetching or holds data; otherwise marks it fetching and sets it `Loading` |
| Query.FetchStartsOnce | src/query/session.rs:49-62 | after a fetch starts, the next frame does not start another |
| Query.DataSuppressesFetch | src/query/session.rs:53-58 | a project with data is not refetched until an update replaces its state |
| Query.ErrorRefetches | src/query/session.rs:34-62 | an `Error` that arrives clears the fetch mark, so the next frame fetches again |
| Query.MessageStreamStates | src/query/message.rs:60-90 | a failed subscribe sends one error; otherwise `Data` for each item until one fails, whose error is last; a stream that ends sends "messages stream closed unexpectedly" last |
| Query.MessageItems | src/query/message.rs:74-89 | the states of the items: data for the good ones before the first bad one, which ends with its error, else the closed-stream error |
| Query.SubscriptionEndsInError | src/query/message.rs:66-89 | once the stream stops, however it stops, the last state the subscription leaves for the session is an `Error` |
| Query.Messages.constructor | src/query/message.rs:25-32 | no states, no subscriptions |
| Query.Messages.SubscribeState | src/query/message.rs:34-55 | the inbox is applied in order; a session is subscribed, and set `Loading`, exactly the first time it is asked for, and is in the subscription set forever after; an unknown session reads as `Loading` |
| Query.ProjectSnapshotState | src/query/project.rs:60-67 | a snapshot is `Data` exactly when every project converts, then with the converted projects in order; otherwise an `Error` |
| Query.ProjectStreamStates | src/query/project.rs:27-58 | a failed subscribe sends one error; otherwise one state per snapshot, bad ones included, then "projects stream closed unexpectedly" |
| Query.Projects.constructor | src/query/project.rs:19-25 | the state starts `Loading` |
| Query.Projects.SubscribeState | src/query/project.rs:69-74 | only the last pending update is adopted; with none the state is kept |
| Query.BadSnapshotDoesNotStop | src/query/project.rs:43-52 | after a snapshot that does not convert, a later good snapshot is still delivered as `Data` |
| Domain.SessionColumns | src/backend/db/sqlite.rs:152-161 | a session as a six-column row reads it: id, project, visibility, name and both timestamps kept, every other field at its default; a session already at its defaults is unchanged |
| Database.SqlErrorText | src/backend/db/mod.rs:16-17 | the driver text a query error carries: an unnamed blank-text CHECK is named by its expression, "CHECK constraint failed: … length(trim(<column>)) > 0"; a duplicate id names "table.id" after "UNIQUE constraint failed: "; a missing parent is "FOREIGN KEY constraint failed"; any other error keeps its own text |
| Database.CheckTextsNameTheColumn | src/backend/db/migrations.rs:8-9 | a blank name and a blank dir are reported with different texts |
| Database.ErrorText | src/backend/db/mod.rs:14-25 | the `Display` of `DatabaseError` as `db/mod.rs` defines it: a query error reads "Generic database error …"; a row-count error starts with "<op> unexpected rows affected, expected " and ends with " got <actual>" |
| Database.CheckReturningRowError | src/backend/db/sqlite.rs:115-124 | "no rows returned" becomes `UnexpectedRowsAffected(op, 1, 0)`, and only that error does; every other error passes through as a query error |
| Database.AssertOneRowAffected | src/backend/db/sqlite.rs:127-140 | Ok exactly when one row was affected; otherwise `UnexpectedRowsAffected(op, 1, rows)` |
| Database.NoTablesValid | src/backend/db/migrations.rs:6-40 | the empty tables meet every constraint of the schema |
| Database.Orphan | src/backend/db/migrations.rs:22 | `ON DELETE SET NULL`: only the parent link changes, and only when it pointed at a deleted session |
| Database.DeleteSessionRows | src/backend/db/migrations.rs:20-22 | the deleted sessions go, every other one stays, at most losing its parent link to a deleted one |
| Database.DeleteSessionRowsValid | src/backend/db/migrations.rs:18-40 | deleting sessions, with the parent links cleared, keeps the schema's constraints |
| Database.CreateProject | src/backend/db/sqlite.rs:203-224 | succeeds exactly when name and dir are not blank and the id is new (`migrations.rs:7-9`), storing the project and returning it; a failure changes nothing |
| Database.UpdateProject | src/backend/db/sqlite.rs:226-249 | a missing id is `UnexpectedRowsAffected("update_project", 1, 0)`; otherwise it succeeds exactly when name and dir are not blank, rewriting them with `updated_at := now`, keeping `created_at`, and returning the row; a failure changes nothing |
| Database.SessionsOfProject | src/backend/db/migrations.rs:20 | exactly the sessions whose project is the given one |
| Database.DeleteProject | src/backend/db/sqlite.rs:251-260 | succeeds exactly when the project exists, else `UnexpectedRowsAffected("delete_project", 1, 0)` with nothing changed; the project goes and so do exactly its sessions (`ON DELETE CASCADE`, `migrations.rs:20`) |
| Database.CreateSession | src/backend/db/sqlite.rs:295-317 | succeeds exactly when the id is new and the project exists (`migrations.rs:19-20`); only the six columns are written and returned; a failure changes nothing |
| Database.UpdateSession | src/backend/db/sqlite.rs:319-343 | a missing id is `UnexpectedRowsAffected("update_session", 1, 0)`; otherwise it succeeds exactly when the new project exists, rewriting project, visibility and name with `updated_at := now`, keeping the other columns, and returning the six columns |
| Database.DeleteSession | src/backend/db/sqlite.rs:345-354 | succeeds exactly when the session exists, else `UnexpectedRowsAffected("delete_session", 1, 0)`; exactly that session goes and projects are untouched |
| Database.CreateProjectValid | src/backend/db/migrations.rs:6-12 | `create_project` keeps every constraint |
| Database.UpdateProjectValid | src/backend/db/migrations.rs:6-12 | `update_project` keeps every constraint |
| Database.DeleteProjectValid | src/backend/db/migrations.rs:18-22 | `delete_project` with its cascade keeps every constraint |
| Database.CreateSessionValid | src/backend/db/migrations.rs:18-38 | `create_session` keeps every constraint |
| Database.UpdateSessionValid | src/backend/db/migrations.rs:18-38 | `update_session` keeps every constraint; the unique harness session id holds trivially, as no modelled insert writes a harness id (Repositories.HarnessIdNotStored) |
| Database.DeleteSessionValid | src/backend/db/migrations.rs:18-38 | `delete_session` keeps every constraint |
| Database.DeleteProjectCascades | src/backend/db/migrations.rs:20 | after a project is deleted its sessions cannot be read, and every other session reads as before |
| Database.DeleteSessionOrphansChildren | src/backend/db/migrations.rs:22 | a child of a deleted session stays, with no parent |
| Database.UpdateProjectTimestamps | src/backend/db/sqlite.rs:234-242 | an update keeps `created_at` and moves `updated_at` forward when the clock has |
| Database.UpdateSessionTimestamps | src/backend/db/sqlite.rs:327-336 | an update keeps `created_at` and moves `updated_at` forward when the clock has |
| Database.GetProject | src/backend/db/sqlite.rs:190-201 | the stored project, or none exactly when the id is missing |
| Database.GetSession | src/backend/db/sqlite.rs:280-293 | the six columns of the stored session, or none exactly when the id is missing |
| Database.CreateThenGet | src/backend/db/sqlite.rs:203-224 | a created project, or the six columns of a created session, read back as written |
| Database.ProjectSessionRows | src/backend/db/sqlite.rs:266-272 | exactly the rows of that project's sessions, six columns each |
| Database.Sqlite.constructor | src/backend/db/sqlite.rs:61-68 | after the migrations both tables are empty and meet the constraints |
| Database.Sqlite.ListProjects | src/backend/db/sqlite.rs:178-188 | every project exactly once, newest `updated_at` first |
| Database.Sqlite.ListSessionsByProject | src/backend/db/sqlite.rs:262-278 | exactly that project's sessions, six columns each, newest first |
| Database.Sqlite.GetProjectRow | src/backend/db/sqlite.rs:190-201 | answers `GetProject` |
| Database.Sqlite.GetSessionRow | src/backend/db/sqlite.rs:280-293 | answers `GetSession` |
| Database.Sqlite.InsertProject | src/backend/db/sqlite.rs:203-224 | applies `CreateProject` to the tables |
| Database.Sqlite.UpdateProjectRow | src/backend/db/sqlite.rs:226-249 | applies `UpdateProject` to the tables |
| Database.Sqlite.DeleteProjectRow | src/backend/db/sqlite.rs:251-260 | applies `DeleteProject` to the tables |
| Database.Sqlite.InsertSession | src/backend/db/sqlite.rs:295-317 | applies `CreateSession` to the tables |
| Database.Sqlite.UpdateSessionRow | src/backend/db/sqlite.rs:319-343 | applies `UpdateSession` to the tables |
| Database.Sqlite.DeleteSessionRow | src/backend/db/sqlite.rs:345-354 | applies `DeleteSession` to the tables |
| Database.Sqlite.BeginTransaction | src/backend/db/sqlite.rs:169-176 | fails exactly when taking the lock or `BEGIN IMMEDIATE` fails; otherwise a fresh, unfinished transaction remembering the tables |
| Database.SqliteTransaction.constructor | src/backend/db/sqlite.rs:172-175 | unfinished, snapshot of the tables at `BEGIN` |
| Database.SqliteTransaction.Commit | src/backend/db/sqlite.rs:21-28 | finished: Ok and nothing runs; otherwise the `COMMIT` outcome is returned, and the transaction is finished only if it succeeded |
| Database.SqliteTransaction.Rollback | src/backend/db/sqlite.rs:30-37 | as commit; a `ROLLBACK` that succeeds restores the tables of `BEGIN` |
| Database.SqliteTransaction.Drop | src/backend/db/sqlite.rs:40-48 | an unfinished transaction is rolled back, with the outcome ignored; a finished one does nothing; afterwards it is finished |
| Database.Finish | src/backend/db/sqlite.rs:21-37 | a finished transaction answers Ok; an unfinished one reports the statement's outcome and is finished exactly when it succeeded |
| Database.AtMostOneTakesEffect | src/backend/db/sqlite.rs:21-37 | across any sequence of commits and rollbacks at most one statement takes effect, and none once finished |
| Repositories.ProjectErr | src/backend/data/project.rs:16-20 | a project repository result succeeds exactly when the database's did, with the same value; a database error is carried unchanged inside `ProjectRepoError::Database` |
| Repositories.SessionErr | src/backend/data/session.rs:21-29 | a session repository result succeeds exactly when the database's did, with the same value; a database error is carried unchanged inside `SessionRepoError::Database` |
| Repositories.ProjectRepo.constructor | src/backend/data/project.rs:33-35 | the repository works on the database it was given |
| Repositories.ProjectRepo.List | src/backend/data/project.rs:37-39 | succeeds, the connection lock and the driver being sound (see Left out), with every stored project exactly once, newest first |
| Repositories.ProjectRepo.Get | src/backend/data/project.rs:41-43 | succeeds, the connection lock and the driver being sound (see Left out), with the stored project of that id, or none |
| Repositories.ProjectRepo.Create | src/backend/data/project.rs:45-47 | the tables and the answer are the database's insert, its error wrapped as a repository error |
| Repositories.ProjectRepo.Update | src/backend/data/project.rs:49-51 | the tables and the answer are the database's update, its error wrapped |
| Repositories.ProjectRepo.Delete | src/backend/data/project.rs:53-56 | the tables and the answer are the database's cascading delete, its error wrapped |
| Repositories.BlankProjectRefused | src/backend/db/migrations.rs:6-12 | a project with a blank name is refused with a database error and the tables are left as they were |
| Repositories.WithHarness | src/backend/repo/session.rs:129-134 | the record handed to the insert carries the harness's session id, keeps its own directory when it has one and takes the project's otherwise, and differs from the request in those two fields only |
| Repositories.CreateHarnessFirst | src/backend/repo/session.rs:114-137 | a missing project fails with `ProjectNotFound` and a failing harness with `Harness`, both storing nothing; otherwise the record with the harness id is handed to the insert, which stores its six columns, and the database's answer is returned |
| Repositories.HarnessIdNotStored | src/backend/repo/session.rs:130-136 | after a successful create the stored row and the returned session have no harness session id and no directory: the one-argument `create_session` inserts six columns only (`sqlite.rs:302`) |
| Repositories.HarnessFirstAtomic | src/backend/repo/session.rs:114-137 | a failed create leaves the tables unchanged; a successful one stores a session under an id that was free before |
| Repositories.HarnessFirstSessionRepo.constructor | src/backend/repo/session.rs:99-101 | the repository works on the database it was given |
| Repositories.HarnessFirstSessionRepo.Create | src/backend/repo/session.rs:114-137 | the new tables and the answer are those of CreateHarnessFirst |
| Repositories.HarnessFirstSessionRepo.Update | src/backend/repo/session.rs:139-141 | the tables and the answer are the database's session update, its error wrapped |
| Repositories.HarnessFirstSessionRepo.Delete | src/backend/repo/session.rs:143-146 | the tables and the answer are the database's session delete, its error wrapped |
| Repositories.HarnessFirstSessionRepo.ListByProject | src/backend/repo/session.rs:103-108 | succeeds, the connection lock and the driver being sound (see Left out), with sessions of that project only, each stored session of it exactly once |
| Repositories.HarnessFirstSessionRepo.Get | src/backend/repo/session.rs:110-112 | succeeds, the connection lock and the driver being sound (see Left out), with the stored session of that id, or none |
| Repositories.CreateInTransaction | src/backend/data/session.rs:57-86 | a missing project fails with `ProjectNotFound` storing nothing; the create succeeds exactly when the project exists and BEGIN, the insert, the harness and COMMIT all succeed, and then the session is stored and returned as its six columns; when the harness fails and ROLLBACK succeeds the tables are as before and the harness error is returned |
| Repositories.CreateInTransactionAtomic | src/backend/data/session.rs:65-85 | whenever create fails and the rollback on drop succeeds, the tables are exactly as before |
| Repositories.HarnessFailureRollsBack | src/backend/data/session.rs:74-82 | a harness failure with a working ROLLBACK fails the create, leaves the tables as they were and leaves the session unreadable if it was before |
| Repositories.TransactionalSessionRepo.constructor | src/backend/data/session.rs:42-44 | the repository works on the database it was given |
| Repositories.TransactionalSessionRepo.Create | src/backend/data/session.rs:57-86 | the new tables and the answer are those of CreateInTransaction for the given statement outcomes |
| Repositories.TransactionalSessionRepo.Update | src/backend/data/session.rs:88-90 | the tables and the answer are the database's session update outside a transaction, its error wrapped |
| Repositories.TransactionalSessionRepo.Delete | src/backend/data/session.rs:92-95 | the tables and the answer are the database's session delete outside a transaction, its error wrapped |
| Repositories.CreateSessionHandler | src/backend/service/session.rs:43-56 | a missing or malformed session body is refused with its status and stores nothing; otherwise the tables are the repository create's and the reply is the created session as its wire model or the repository error's status |
| Focus.SaturatingSub | src/components/directory_picker.rs:188 | `usize::saturating_sub`: the exact difference when it is not negative, zero otherwise, never less than the difference |
| Focus.Clamp | src/components/directory_picker.rs:178-184 | the clamped focus is inside the list; it is unset exactly when the list is empty or nothing was focused; an in-range focus is kept and one past the end moves to the last entry |
| Focus.Down | src/components/directory_picker.rs:186-190 | ArrowDown always sets the focus, inside a non-empty list, one below an entry that is not the last |
| Focus.Up | src/components/directory_picker.rs:191-195 | ArrowUp always sets the focus, one above an entry that is not the first, and the first entry otherwise |
| Focus.ArrowFocusInRange | src/components/model_selector.rs:114-121 | after the clamp and the arrows of one frame over a non-empty list the focus is on an entry, and it is unset exactly when it was and no arrow was pressed |
| Focus.ArrowOnEmptyList | src/components/model_selector.rs:264-273 | an arrow over an empty list still sets the focus, to index 0 |
| Focus.DownThenUp | src/components/model_selector.rs:264-273 | ArrowUp undoes an ArrowDown that was not stopped at the last entry |
| Focus.UpThenDown | src/components/model_selector.rs:264-273 | ArrowDown undoes an ArrowUp that was not stopped at the first entry |
| Focus.ArrowsStopAtEnds | src/components/directory_picker.rs:186-195 | ArrowDown on the last entry and ArrowUp on the first leave the focus where it is |
| Focus.ClampIdempotent | src/components/directory_picker.rs:178-184 | clamping an already clamped focus changes nothing |
| Focus.ResetFocus | src/components/directory_picker.rs:161-165 | after new suggestions the focus is on the first one, and unset exactly when there are none |
| EntityStore.Lookup | src/backend/state/entity.rs:88-90 | a value is found exactly when the key is stored, and it is the stored one |
| EntityStore.Notify | src/backend/state/entity.rs:97-99 | only an existing watcher of the key receives the value; the set of watchers and every other watcher's value are unchanged |
| EntityStore.Indexed | src/backend/state/entity.rs:43-46 | the entries' keys are exactly the keys of the initial values, and every entry is stored under its own key |
| EntityStore.IndexedLastWins | src/backend/state/entity.rs:44-46 | a key holds the last initial value that has it |
| EntityStore.IndexedDistinct | src/backend/state/entity.rs:43-46 | with distinct keys the entries hold exactly the initial values, each once |
| EntityStore.IndexedListing | src/backend/state/entity.rs:37-60 | seeded with a listing of a keyed map, `new` holds that very map |
| EntityStore.RepeatedKeySeedsStaleList | src/backend/state/entity.rs:43-50 | two initial values under one key leave only the second in the entries while the all-watcher is seeded with both, so it is not their listing |
| EntityStore.EntityState.constructor | src/backend/state/entity.rs:37-60 | entries indexed from the initial values, no single-key watcher, the all-watcher holding the initial values sorted, and the state consistent when the keys are distinct |
| EntityStore.EntityState.SubscribeAll | src/backend/state/entity.rs:62-64 | in a consistent state the subscriber reads the sorted listing of the entries |
| EntityStore.EntityState.SubscribeOne | src/backend/state/entity.rs:66-80 | a poisoned sender lock or items lock fails with its name and changes nothing; otherwise an existing watcher is reused or one holding the key's current value is added, the subscriber reads it, and consistency is kept |
| EntityStore.EntityState.List | src/backend/state/entity.rs:82-86 | fails exactly when the items lock is poisoned; otherwise a sorted list of every stored value, each once |
| EntityStore.EntityState.Get | src/backend/state/entity.rs:88-90 | fails exactly when the items lock is poisoned; otherwise the stored value of the key, or none |
| EntityStore.EntityState.Upsert | src/backend/state/entity.rs:92-102 | a poisoned items lock fails and changes nothing; otherwise the value replaces its key's entry, a poisoned sender lock then fails before any watcher hears of it, and without poisoning the key's watcher gets the value, the all-watcher the new listing, and consistency is kept |
| EntityStore.EntityState.Remove | src/backend/state/entity.rs:104-113 | a poisoned items lock fails and changes nothing; otherwise the key's entry is deleted, a poisoned sender lock then fails, and without poisoning the key's watcher is dropped, the all-watcher gets the new listing, and consistency is kept |
| EntityStore.EntityState.PublishAll | src/backend/state/entity.rs:115-118 | entries and watchers are unchanged; fails exactly when the items lock is poisoned, and otherwise the all-watcher holds the listing of the entries |
| EntityStore.UpsertListing | src/backend/state/entity.rs:92-102 | the listing after an upsert contains the new value in place of the key's old one and nothing else changes in it |
| EntityStore.RemoveListing | src/backend/state/entity.rs:104-113 | the listing after a remove lacks exactly the key's old value |
| EntityStore.ListingUnique | src/backend/state/entity.rs:82-86 | two listings of the same entries under an antisymmetric order are equal, so the all-watcher holds exactly what `list` answers |
| GroupedStore.GroupItems | src/backend/state/grouped.rs:86-91 | a known group's items as stored, and no items for an unknown group |
| GroupedStore.Place | src/backend/state/grouped.rs:50-53 | the group is created if missing and gets the value under its item key; every other group is unchanged |
| GroupedStore.Seeded | src/backend/state/grouped.rs:44-55 | the index holds exactly the initial item keys, each indexed item sits in its indexed group, and every stored value is under its own group and key |
| GroupedStore.SeededConsistent | src/backend/state/grouped.rs:37-66 | with distinct item keys `new` gives groups and index that agree both ways |
| GroupedStore.RepeatedKeyBreaksIndex | src/backend/state/grouped.rs:47-55 | one item key under two groups leaves the first group holding an item that the index files under the second |
| GroupedStore.MovedFrom | src/backend/state/grouped.rs:103-114 | an upsert leaves a group exactly when the item is indexed under another group, and that group is the one it leaves |
| GroupedStore.Upserted | src/backend/state/grouped.rs:96-121 | the index files the item under its group; the group holds the value and keeps its other items; the group it left loses it; all other groups are unchanged |
| GroupedStore.UpsertKeeps | src/backend/state/grouped.rs:96-121 | an upsert keeps groups and index in agreement and every value under its own keys |
| GroupedStore.UpsertConsistent | src/backend/state/grouped.rs:107-120 | an upsert keeps groups and index in agreement whatever the value |
| GroupedStore.UpsertKeyed | src/backend/state/grouped.rs:116-119 | an upsert keeps every stored value under its own group and item key |
| GroupedStore.Removed | src/backend/state/grouped.rs:129-141 | the item leaves the index and its indexed group; an unindexed item changes nothing |
| GroupedStore.RemoveKeeps | src/backend/state/grouped.rs:129-141 | a remove keeps groups and index in agreement and every value under its own keys |
| GroupedStore.GroupRemoved | src/backend/state/grouped.rs:143-151 | the group is gone, the index loses exactly that group's items, and every other entry of the index is unchanged |
| GroupedStore.RemoveGroupKeeps | src/backend/state/grouped.rs:143-156 | removing a group keeps groups and index in agreement and every value under its own keys |
| GroupedStore.PublishSet | src/backend/state/grouped.rs:123-126 | `upsert` publishes its own group and the group the item left, and no other |
| GroupedStore.PublishedTwice | src/backend/state/grouped.rs:123-126 | publishing one group and then another leaves both watchers holding their listings and every other watcher as it was |
| GroupedStore.RepublishedCurrent | src/backend/state/grouped.rs:158-164 | watchers that held their groups' listings still do once every group whose items changed has been published |
| GroupedStore.UpsertedElsewhere | src/backend/state/grouped.rs:107-120 | an upsert changes the items of its own group and of the group the item left, and of no other |
| GroupedStore.GroupedState.constructor | src/backend/state/grouped.rs:37-66 | groups and index as Seeded builds them, no watchers, and the state consistent when item keys are distinct |
| GroupedStore.GroupedState.ListGroup | src/backend/state/grouped.rs:86-94 | fails exactly when the groups lock is poisoned; otherwise the group's values sorted, each once, and nothing for an unknown group |
| GroupedStore.GroupedState.SubscribeGroup | src/backend/state/grouped.rs:68-84 | the sender lock then the groups lock fail with their names and change nothing; otherwise an existing watcher is reused or one holding the group's listing is added, the others untouched, and consistency is kept |
| GroupedStore.GroupedState.PublishGroup | src/backend/state/grouped.rs:158-164 | a poisoned sender lock fails; a subscribed group with a poisoned groups lock fails; otherwise the group's watcher, if any, gets its listing and every other watcher is unchanged |
| GroupedStore.GroupedState.Upsert | src/backend/state/grouped.rs:96-127 | the index lock then the groups lock fail before anything changes; otherwise the store becomes Upserted, then the group the item left and its own group are published; success exactly without poisoning, and then consistency and current watchers are kept |
| GroupedStore.GroupedState.MoveIn | src/backend/state/grouped.rs:101-121 | the groups and index become Upserted and the watchers are unchanged |
| GroupedStore.GroupedState.PublishEach | src/backend/state/grouped.rs:123-126 | the store is unchanged; a poisoned sender lock fails at once; with the groups lock sound it succeeds exactly when the sender lock is, and then both groups are published |
| GroupedStore.GroupedState.Remove | src/backend/state/grouped.rs:129-141 | a poisoned index lock fails; an unindexed item succeeds changing nothing; otherwise the store becomes Removed, the item's group is published, the locks fail in the source's order, and consistency is kept |
| GroupedStore.GroupedState.RemoveGroup | src/backend/state/grouped.rs:143-156 | a poisoned groups lock fails; the group is dropped; its items are unindexed unless the index lock is poisoned; its watcher is dropped unless the sender lock is; success exactly when no lock it needed was poisoned, and consistency is kept |
| GroupedStore.GroupedState.Unindex | src/backend/state/grouped.rs:147-150 | every given key leaves the index and nothing else changes |
| LocalBackend.SortProjects | src/backend/local.rs:80-82 | `Less` exactly when the first project is the later updated, `Equal` exactly on equal `updated_at`, `Greater` exactly when it is the earlier |
| LocalBackend.SortSessions | src/backend/local.rs:84-86 | the same for sessions: the later `updated_at` compares `Less` |
| LocalBackend.Cmp | src/backend/local.rs:80-86 | `Ord::cmp` on timestamps: `Less`, `Equal` and `Greater` exactly when the first is earlier, the same or later |
| LocalBackend.OrdersNewestFirst | src/backend/local.rs:80-86 | `sort_projects` and `sort_sessions` put the later `updated_at` first, exactly as the database's `ORDER BY updated_at DESC`, and both are total preorders |
| LocalBackend.OrdersArePreorders | src/backend/local.rs:80-86 | both comparators are total preorders, as `sort_by` needs |
| LocalBackend.FromState | src/backend/local.rs:100-103 | a state's answer is passed on with the same value, its error wrapped as a backend error |
| LocalBackend.SeededAgrees | src/backend/local.rs:56-68 | seeded with distinct session ids, the keyed session state and the grouped one hold the same sessions |
| LocalBackend.AgreeUpsert | src/backend/local.rs:188-189 | upserting a session into both session states keeps them holding the same sessions |
| LocalBackend.UpsertedSession | src/backend/local.rs:188-189 | after both upserts the session is in the state, and in its own project's group and no other |
| LocalBackend.AgreeRemove | src/backend/local.rs:205-206 | removing a session from both session states keeps them holding the same sessions |
| LocalBackend.AgreeGroupRemoved | src/backend/local.rs:158-162 | removing a project's sessions from the keyed state and its group from the grouped one keeps them holding the same sessions |
| LocalBackend.GroupIsItsMembers | src/backend/local.rs:158-161 | a project's group holds exactly the keyed state's sessions of that project, with the same values |
| LocalBackend.DeleteSessionRowsMirror | src/backend/local.rs:154-165 | dropping the same sessions from the state and from the table keeps them agreeing on the six session columns |
| LocalBackend.SessionIdsAre | src/backend/local.rs:159-161 | the ids the removal loop collects are the ids of the listed sessions |
| LocalBackend.ListedIds | src/backend/local.rs:158 | the sessions listed for a group carry exactly that group's ids |
| LocalBackend.ListedSessions | src/backend/local.rs:167-174 | every session listed for a project belongs to that project and is the keyed state's copy, and the list covers every session of the project |
| LocalBackend.MirroredProjectSessions | src/backend/local.rs:158-162 | when the state agrees with the table, a project's sessions in memory are its sessions in the table |
| LocalBackend.SeedsFromTables | src/backend/local.rs:46-68 | a listing of valid tables seeds the project state with exactly the stored projects; distinct session ids seed agreeing session states; a listing of the sessions seeds exactly the stored sessions |
| LocalBackend.CreateSessionMirrors | src/backend/local.rs:183-191 | a successful create keeps the tables valid, leaves the projects alone and keeps the state agreeing with the table once the created row is upserted; a failed one with a working rollback leaves the tables unchanged |
| LocalBackend.InsertedMirrors | src/backend/local.rs:187-188 | inserting the same row into the state and the table keeps them agreeing |
| LocalBackend.UpdateSessionMirrors | src/backend/local.rs:193-201 | an update leaves the projects alone and, when it succeeds, keeps the state agreeing with the table once the updated row is upserted |
| LocalBackend.DeleteSessionMirrors | src/backend/local.rs:203-208 | a delete keeps the tables valid and the projects alone and, when it succeeds, keeps the state without the session agreeing with the table |
| LocalBackend.DeleteProjectMirrors | src/backend/local.rs:154-165 | a project delete keeps the tables valid and, when it succeeds, removes just that project and keeps the state without its sessions agreeing with the table |
| LocalBackend.Backend.constructor | src/backend/local.rs:40-77 | the project state is seeded with the stored projects and both session states with the initial sessions, with no watchers; the backend is consistent when those ids are distinct and agrees with the tables when they are the stored sessions |
| LocalBackend.Backend.SubscribeProjects | src/backend/local.rs:90-94 | the all-projects watcher holds every project once, newest first, matching the table when the state mirrors it |
| LocalBackend.Backend.SubscribeProject | src/backend/local.rs:96-103 | the project's watcher is reused or created, nothing else changes, and the subscriber reads the project as the table holds it |
| LocalBackend.Backend.SubscribeSessionsByProject | src/backend/local.rs:105-112 | the project's group watcher is reused or created, the store and other watchers are unchanged, and the subscriber reads that project's sessions, sorted |
| LocalBackend.Backend.SubscribeSession | src/backend/local.rs:114-121 | the session's watcher is reused or created, nothing else changes, and the subscriber reads the state's copy of the session |
| LocalBackend.Backend.ListProjects | src/backend/local.rs:123-127 | every project in the state once, newest first, and the table's projects when the state mirrors it |
| LocalBackend.Backend.GetProject | src/backend/local.rs:129-134 | the state's copy of the project, which is the table's when the state mirrors it |
| LocalBackend.Backend.ListSessionsByProject | src/backend/local.rs:167-174 | the project's sessions newest first, each the keyed state's copy, and exactly the project's rows in the table when the state mirrors it |
| LocalBackend.Backend.GetSession | src/backend/local.rs:176-181 | the state's copy of the session, present exactly when the table has the row and equal to it on its six columns |
| LocalBackend.Backend.CreateProject | src/backend/local.rs:136-143 | the tables change as the database's insert does; a refused project leaves the state alone and returns the wrapped error; a stored one is returned and upserted; consistency and mirroring are kept |
| LocalBackend.Backend.UpdateProject | src/backend/local.rs:145-152 | the tables change as the database's update does; a failure leaves the state alone; on success the stored row, stamped with the clock's time, replaces the state's copy; consistency and mirroring are kept |
| LocalBackend.Backend.DeleteProject | src/backend/local.rs:154-165 | the tables change as the cascading delete does; a failure leaves the states alone; on success the project, each of its sessions and its group leave the states; consistency and mirroring are kept |
| LocalBackend.Backend.DropProjectSessions | src/backend/local.rs:158-162 | the project's sessions leave the keyed state, its group and its watcher leave the grouped one, and the session states stay consistent |
| LocalBackend.Backend.RemoveSessions | src/backend/local.rs:159-161 | each listed session leaves the keyed state and it stays consistent |
| LocalBackend.Backend.StoreSession | src/backend/local.rs:188-189 | the session replaces its entry in the keyed state and sits in its own project's group and no other, and the session states stay consistent |
| LocalBackend.Backend.CreateSession | src/backend/local.rs:183-191 | the tables and the answer are the transactional repository's; a failure leaves the states alone; on success the created row is upserted into both states; consistency, and mirroring unless both rollbacks failed, are kept |
| LocalBackend.Backend.UpdateSession | src/backend/local.rs:193-201 | the tables change as the database's update does; a failure leaves the states alone; on success the stored row, stamped with the clock's time, is upserted into both states, under its project only; consistency and mirroring are kept |
| LocalBackend.Backend.DeleteSession | src/backend/local.rs:203-208 | the tables change as the database's delete does; a failure leaves the states alone; on success the session leaves both states and the index; consistency and mirroring are kept |
| MessageStore.UpsertMessageRow | src/backend/db/sqlite/messages.rs:149-181 | the message is stored under its session and id with every column as given and is visible again; other messages and all parts are unchanged |
| MessageStore.EnsureMessageRow | src/backend/db/sqlite/messages.rs:204-220 | a stored message is left as it is; a missing one gets a visible placeholder assistant row; nothing else changes |
| MessageStore.MarkRemovedRow | src/backend/db/sqlite/messages.rs:222-236 | the message is hidden and stamped with the removal time; a missing one changes nothing; other messages and all parts are unchanged |
| MessageStore.RemoveThenUpsert | src/backend/db/sqlite/messages.rs:156-165 | removing a message hides it and no other, and upserting it again shows it again with its new columns |
| MessageStore.EnsureAfterUpsert | src/backend/db/sqlite/messages.rs:215 | the placeholder never overwrites a message that was upserted |
| MessageStore.SqliteTail | src/backend/db/sqlite/messages.rs:255 | `substr(x, -n)`: at most `n` characters, the last `n` of the text when it has that many |
| MessageStore.MergePartText | src/backend/db/sqlite/messages.rs:251-258 | a non-empty incoming text wins; otherwise a non-empty delta the stored text does not end with is appended; otherwise the stored text stays |
| MessageStore.MergeEndsWithDelta | src/backend/db/sqlite/messages.rs:251-258 | after merging a delta the text ends with it |
| MessageStore.MergeIdempotent | src/backend/db/sqlite/messages.rs:253-256 | merging the same delta twice leaves what merging it once left |
| MessageStore.MergeAccumulates | src/backend/db/sqlite/messages.rs:253-256 | two deltas that are not already suffixes are appended one after the other |
| MessageStore.UpsertPartAsWritten | src/backend/db/sqlite/messages.rs:238-274 | the part is stored afterwards and the messages are unchanged; a part not stored yet gets the incoming text as it came, whatever the delta |
| MessageStore.FirstDeltaDropped | src/backend/db/sqlite/messages.rs:246-248 | a first delta "hello" for a fresh part with empty text leaves the stored text empty |
| MessageStore.UpsertPartRow | src/backend/db/sqlite/messages.rs:238-274 | the part's row is added or replaced: its type, tool JSON and time are the incoming ones and its text is the merge of the stored text (empty for a fresh part), the incoming text and the delta; no other part and no message changes |
| MessageStore.CorrectedAgreesWithWritten | src/backend/db/sqlite/messages.rs:245-271 | wherever the part was stored, or the incoming text is not empty, or no delta came, the corrected upsert and the written one store the same |
| MessageStore.UpsertPartIdempotent | src/backend/db/sqlite/messages.rs:238-274 | ingesting the same delta twice leaves the text the first ingestion left |
| MessageStore.FirstDeltaKept | src/backend/db/sqlite/messages.rs:251-258 | in the corrected upsert a first delta for a new part is its text |
| MessageStore.PartKeysSnoc | src/backend/db/sqlite/messages.rs:191-193 | the keys a run of parts names are those of all but its last part and the last part's |
| MessageStore.LastOfKeyStep | src/backend/db/sqlite/messages.rs:191-193 | one more part upserted after a run keeps, for every key, the type, tool JSON and time of its last part |
| MessageStore.LastTextStep | src/backend/db/sqlite/messages.rs:191-193 | one more part upserted after a run keeps, for every key, the last non-empty text brought for it |
| MessageStore.NoTextStep | src/backend/db/sqlite/messages.rs:191-193 | one more part upserted after a run keeps, for every key no part brought a text for, the text it had before the run |
| MessageStore.PartsWrittenStep | src/backend/db/sqlite/messages.rs:191-193 | one more part upserted after a run whose writes are as UpsertParts states gives the writes of the longer run |
| MessageStore.UpsertParts | src/backend/db/sqlite/messages.rs:191-193 | the keys of the parts are added and no other part changes; each key takes the type, tool JSON and time of its last part, and the text of its last part with a non-empty text, or keeps its earlier text (empty when new) when none brought one; the messages are unchanged |
| MessageStore.WriteMessage | src/backend/db/sqlite/messages.rs:189-195 | the message is visible with its columns, no other message row changes, and its parts are written as UpsertParts states |
| MessageStore.UpsertWithParts | src/backend/db/sqlite/messages.rs:183-202 | succeeds exactly when BEGIN, every statement and COMMIT succeed, and then the message and its parts are written; a refused BEGIN or statement leaves the tables as they were and returns its error; a refused COMMIT returns its error with the writes left in place |
| MessageStore.WrittenMessageIsComplete | src/backend/db/sqlite/messages.rs:183-202 | a message written with its parts, even one removed before, is visible with every part stored |
| MessageStore.PartFromRow | src/backend/db/sqlite/messages.rs:43-68 | a part exactly when all five part columns are present, built from those columns |
| MessageStore.GroupStep | src/backend/db/sqlite/messages.rs:300-326 | after a row the last message is the row's, and at most one message was added |
| MessageStore.StepKeeps | src/backend/db/sqlite/messages.rs:300-314 | a step keeps every message in the session and neighbouring message ids distinct |
| MessageStore.GroupFrom | src/backend/db/sqlite/messages.rs:284-327 | grouping adds at most one message per row |
| MessageStore.GroupFromKeeps | src/backend/db/sqlite/messages.rs:284-327 | grouping keeps every message in the session and neighbouring ids distinct |
| MessageStore.GroupRows | src/backend/db/sqlite/messages.rs:276-330 | the listed messages all belong to the session, neighbouring ones have distinct ids, and there are no more of them than rows |
| MessageStore.GroupFromAppend | src/backend/db/sqlite/messages.rs:284-327 | grouping two runs of rows is grouping the first and carrying on with the second |
| MessageStore.StepAddsPart | src/backend/db/sqlite/messages.rs:316-326 | a row of the message being built appends its part to it |
| MessageStore.StepStartsMessage | src/backend/db/sqlite/messages.rs:300-314 | a row whose id differs from the last message's starts a message with the row's columns and its part, if any |
| MessageStore.GroupPartsOnto | src/backend/db/sqlite/messages.rs:316-326 | the part rows of the message being built append their parts, in order |
| MessageStore.GroupOneMessage | src/backend/db/sqlite/messages.rs:284-327 | the joined rows of one new message group back into exactly that message |
| MessageStore.GroupJoinFrom | src/backend/db/sqlite/messages.rs:284-327 | grouping the joined rows of messages carries on the list with exactly those messages |
| MessageStore.GroupJoinRoundTrip | src/backend/db/sqlite/messages.rs:96-121 | grouping undoes the `LEFT JOIN`: messages with distinct neighbouring ids, joined with their parts and grouped, come back unchanged |
| MessageStore.LimitCount | src/backend/db/sqlite/messages.rs:75-81 | a limit keeps no more than the messages there are: all without a limit, and the smaller of the two for a non-negative limit |
| MessageStore.ListingGroupsBack | src/backend/db/sqlite/messages.rs:70-138 | the limit counts messages, not joined rows: the messages the query selects group back whole, as many as the limit lets through, every one visible |
| MessageStore.Execute | src/backend/db/sqlite/messages.rs:151-178 | a statement succeeds exactly when the engine accepts it, and only then changes the tables |
| MessageStore.MessageDb.UpsertMessage | src/backend/db/sqlite/messages.rs:149-181 | the tables and the answer are the statement's upsert, or unchanged and failed when refused |
| MessageStore.MessageDb.EnsureMessageExists | src/backend/db/sqlite/messages.rs:204-220 | the tables and the answer are the statement's placeholder insert, or unchanged and failed when refused |
| MessageStore.MessageDb.MarkMessageRemoved | src/backend/db/sqlite/messages.rs:222-236 | the tables and the answer are the statement's update, or unchanged and failed when refused |
| MessageStore.MessageDb.UpsertPart | src/backend/db/sqlite/messages.rs:238-274 | the tables and the answer are those of the corrected part upsert (UpsertPartRow), or unchanged and failed when the statement is refused |
| MessageStore.MessageDb.UpsertMessageWithParts | src/backend/db/sqlite/messages.rs:183-202 | the tables and the answer are those of UpsertWithParts: a refused statement is rolled back to the tables at BEGIN, and a refused COMMIT keeps the writes |
| MessageStore.MessageDb.WriteRows | src/backend/db/sqlite/messages.rs:189-195 | fails exactly when a statement of the batch is refused, with that statement's error; otherwise the message and its parts are written |
| MessageStore.MessageDb.ListSessionMessages | src/backend/db/sqlite/messages.rs:276-330 | a failed fetch is returned as it is; otherwise the messages grouped from the fetched rows |
| MessageStore.MessageDb.AddRow | src/backend/db/sqlite/messages.rs:300-326 | one turn of the grouping loop, as GroupStep states it |
| MessageService.ValidateLimit | src/backend/service/message.rs:44-48 | a limit is accepted exactly when it is absent or positive, and then passed on unchanged; otherwise the request is refused with "limit must be greater than 0" |
| MessageService.ListRequestOf | src/backend/service/message.rs:38-53 | a malformed session id is refused with its parse error first; the repository is asked exactly when the id parses and the limit is absent or positive, with that id and limit; a parsed id with a bad limit gets the limit error |
| MessageService.NonPositiveLimitRefused | src/backend/service/message.rs:44-48 | a well-formed id with a limit of zero or less is refused before the repository is asked |
| MessageService.MessageSenders.constructor | src/backend/service/message.rs:66-67 | no session has a sender yet |
| MessageService.MessageSenders.Subscribe | src/backend/service/message.rs:60-107 | a malformed id or a poisoned lock fails and changes nothing; otherwise the session has a sender afterwards and no other sender changes; a successful listing becomes the sender's value and the stream's first item; a failed one leaves a new sender empty and an old one as it was |
| MessageService.MessageSenders.SendMessage | src/backend/service/message.rs:22-36 | a malformed id, then a missing input, is refused; the call succeeds exactly when the id parses, the input is there and the repository sends, answering what it sent; only then is the session's list republished |
| MessageService.Publish | src/backend/service/message.rs:31 | republishing reaches the session's sender if it has one and no other, and creates no sender |
| ClientStore.IndexInsert | src/live_query/store.rs:172-192 | a loaded list gets the session appended when absent; an idle, failed or missing one becomes a one-element list; a list still loading is left alone; no other project changes and no list gains a duplicate |
| ClientStore.IndexRemove | src/live_query/store.rs:194-201 | a loaded list loses every occurrence of the session; a list that is not loaded and every other project are unchanged; no list gains a duplicate |
| ClientStore.NewestFirstTotal | src/live_query/store.rs:273-277 | the comparator of the sorts, later `updated_at` first, a missing time last, ties by id, is a total preorder |
| ClientStore.NewestFirstStrict | src/live_query/store.rs:276 | two different ids are never tied |
| ClientStore.NewestFirstAntisymmetric | src/live_query/store.rs:276 | the comparator is antisymmetric, so a sorted list of given ids is unique |
| ClientStore.ProjectUpdatedAt | src/live_query/store.rs:266-270 | the time table has exactly the cached projects, each with its `updated_at` |
| ClientStore.SessionUpdatedAt | src/live_query/store.rs:282-288 | the time table has exactly the cached sessions of the project, each with its `updated_at` |
| ClientStore.SortIds | src/live_query/store.rs:273-277 | a permutation of the ids, sorted newest first, and free of duplicates when they were |
| ClientStore.SortProjects | src/live_query/store.rs:265-279 | only the project list changes: a loaded list is permuted into newest-first order, any other is left as it was |
| ClientStore.SortSessions | src/live_query/store.rs:281-297 | only the project's loaded session list changes, permuted into newest-first order by its cached sessions' times; every other list is unchanged |
| ClientStore.PutProject | src/live_query/store.rs:203-217 | the project is cached and marked loaded; a loaded project list holds it once more if it was absent, sorted newest first; no session entry changes |
| ClientStore.SessionsOf | src/live_query/store.rs:226-230 | the ids of exactly the cached sessions of that project |
| ClientStore.MarkGone | src/live_query/store.rs:231-236 | each given session is known not to exist and every other session state is unchanged |
| ClientStore.MarkGoneStep | src/live_query/store.rs:231-236 | marking one more session gone is marking the larger set gone |
| ClientStore.DropProject | src/live_query/store.rs:219-241 | the project leaves the cache and is known not to exist, its session list is forgotten, each of its sessions leaves the cache and is known not to exist, other sessions stay, and a loaded project list loses it |
| ClientStore.PutSession | src/live_query/store.rs:243-254 | the session is cached and marked loaded, projects are untouched, and its project's list is still loading or is loaded, holds it and is sorted newest first; no list gains a duplicate |
| ClientStore.DropSession | src/live_query/store.rs:256-263 | the session leaves the cache and is known not to exist; its recorded project's list loses it; nothing else changes |
| ClientStore.Ids | src/live_query/store.rs:34 | the ids of the loaded projects, or sessions at line 73, in order and of the same length |
| ClientStore.InvalidateKey | src/live_query/store.rs:123-139 | the query reads idle afterwards, every other query reads as before, and the caches are untouched |
| ClientStore.SetLoading | src/live_query/projects.rs:58-62 | the query reads loading afterwards, every other query reads as before, and the caches are untouched |
| ClientStore.ProjectsView | src/live_query/projects.rs:9-26 | the project list keeps the store's state, and a loaded one shows the cached projects of its ids, in order |
| ClientStore.ProjectView | src/live_query/projects.rs:28-41 | a cached project wins; otherwise the project's state, or idle when it has none |
| ClientStore.SessionsByProjectView | src/live_query/sessions.rs:9-27 | an unknown project reads idle; otherwise its list's state, and a loaded one shows the cached sessions of its ids, in order |
| ClientStore.SessionView | src/live_query/sessions.rs:29-42 | a cached session wins; otherwise the session's state, or idle when it has none |
| ClientStore.CompletedKeys | src/live_query/store.rs:31-121 | a message completes at most two queries |
| ClientStore.ApplyMessage | src/live_query/store.rs:31-121 | no ensures of its own: the queries it completes are CompletedKeys of the message (ApplyMessageCompletes), each of them reads loaded or failed afterwards (CompletedQueriesSettle), and an error keeps the caches and fails exactly those queries (ErrorsKeepCaches); its store changes are the contracts of PutProject, DropProject, PutSession and DropSession |
| ClientStore.ApplyMessageCompletes | src/live_query/store.rs:31-121 | the queries a message completes are CompletedKeys of it, whatever the store holds: a load its query, a deletion that entity's query, an error the queries it names, an upsert none |
| ClientStore.CompletedQueriesSettle | src/live_query/store.rs:31-121 | every query a message completes reads loaded or failed afterwards, unless a session load names another session than it carries |
| ClientStore.ErrorsKeepCaches | src/live_query/store.rs:31-121 | an error message leaves the cached projects and sessions as they were and every query it completes reads as failed with its message |
| ClientStore.PutProjectIdempotent | src/live_query/store.rs:51-54 | receiving the same project twice is receiving it once |
| ClientStore.ResortListed | src/live_query/store.rs:243-254 | taking a listed id out of a sorted list without duplicates, appending it and sorting again gives the same list |
| ClientStore.PutSessionSettled | src/live_query/store.rs:243-254 | a session already cached, loaded and listed in place is not changed by receiving it again |
| ClientStore.PutSessionIdempotent | src/live_query/store.rs:91-94 | receiving the same session twice is receiving it once, when no list holds an id twice |
| ClientStore.PutSessionMoves | src/live_query/store.rs:244-246 | a session that moved to another project leaves the loaded list of its old project |
| ClientStore.DropProjectHidesIt | src/live_query/store.rs:219-241 | after a project is deleted it reads as not existing and is out of the list, its session list reads idle and each of its sessions reads as not existing |
| ClientStore.DropProjectGone | src/live_query/store.rs:219-241 | deleting a project that is already gone changes nothing |
| ClientStore.DropProjectIdempotent | src/live_query/store.rs:55-58 | deleting a project twice is deleting it once |
| ClientStore.DropSessionHidesIt | src/live_query/store.rs:256-263 | a deleted session reads as not existing and is out of its project's loaded list |
| ClientStore.PutProjectsCaches | src/live_query/store.rs:33-40 | after a list with distinct ids loads, every project of it is cached as received |
| ClientStore.ProjectsLoadedShowsIt | src/live_query/store.rs:33-40 | a loaded project list with distinct ids is shown exactly as the backend returned it, and completes the list query |
| ClientStore.CacheSessionsCaches | src/live_query/store.rs:74-78 | after a session list with distinct ids loads, every session of it is cached as received |
| ClientStore.SessionsLoadedShowsThem | src/live_query/store.rs:69-82 | a loaded session list with distinct ids is shown exactly as the backend returned it |
| ClientStore.SessionsLoadedCachesEach | src/live_query/store.rs:69-82 | after a session list with distinct ids loads, each of its sessions reads as loaded |
| ClientStore.Store.constructor | src/live_query/store.rs:17-28 | the store starts with everything idle and empty |
| ClientStore.Store.UpsertSessionIntoProjectIndex | src/live_query/store.rs:172-192 | only the session index changes, as IndexInsert states |
| ClientStore.Store.RemoveSessionFromProjectIndex | src/live_query/store.rs:194-201 | only the session index changes, as IndexRemove states |
| ClientStore.Store.SortProjectsByUpdatedAtDesc | src/live_query/store.rs:265-279 | the store becomes SortProjects of what it was |
| ClientStore.Store.SortSessionsByUpdatedAtDesc | src/live_query/store.rs:281-297 | the store becomes SortSessions of what it was |
| ClientStore.Store.UpsertProject | src/live_query/store.rs:203-217 | the store becomes PutProject of what it was |
| ClientStore.Store.RemoveProject | src/live_query/store.rs:219-241 | the store becomes DropProject of what it was |
| ClientStore.Store.ForgetSessions | src/live_query/store.rs:231-236 | the given sessions leave the cache and are known not to exist; nothing else changes |
| ClientStore.Store.UpsertSession | src/live_query/store.rs:243-254 | the store becomes PutSession of what it was |
| ClientStore.Store.RemoveSession | src/live_query/store.rs:256-263 | the store becomes DropSession of what it was |
| ClientStore.Store.Apply | src/live_query/store.rs:31-121 | the store and the completed queries are ApplyMessage's for that message |
| ClientStore.Store.LoadProjects | src/live_query/store.rs:33-40 | the store and the completed queries are ApplyMessage's for a loaded project list |
| ClientStore.Store.LoadSessionsByProject | src/live_query/store.rs:69-82 | the store and the completed queries are ApplyMessage's for a loaded session list |
| ClientStore.Store.MarkLoading | src/live_query/sessions.rs:61-65 | the store becomes SetLoading of what it was |
| ClientStore.Store.Invalidate | src/live_query/store.rs:123-139 | the store becomes InvalidateKey of what it was |
| LiveQuery.FlattenRpc | src/live_query/mod.rs:21-27 | the result succeeds exactly when the transport and the backend both succeeded, and then carries the value; otherwise it carries the transport error first, else the backend's error |
| LiveQuery.ProjectsReply | src/live_query/projects.rs:64-65 | a listed set of projects becomes `ProjectsLoaded`, a failure a `ProjectError` without id carrying the message |
| LiveQuery.ProjectReply | src/live_query/projects.rs:94-101 | a fetched project (or its absence) becomes `ProjectLoaded` for the asked id, a failure a `ProjectError` for that id |
| LiveQuery.SessionsByProjectReply | src/live_query/sessions.rs:71-79 | the listed sessions become `SessionsByProjectLoaded` for the project, a failure a `SessionError` naming only the project |
| LiveQuery.SessionReply | src/live_query/sessions.rs:108-116 | a fetched session becomes `SessionLoaded` for the asked id, a failure a `SessionError` naming only the session |
| LiveQuery.ProjectsReplyCompletes | src/live_query/projects.rs:58-66 | applying the list reply completes exactly the list query and leaves it loaded or failed |
| LiveQuery.ProjectReplyCompletes | src/live_query/projects.rs:88-102 | applying a project reply completes exactly that project's query and leaves it loaded or failed |
| LiveQuery.SessionsReplyCompletes | src/live_query/sessions.rs:59-80 | applying a session-list reply completes exactly that project's session query and leaves it loaded or failed |
| LiveQuery.SessionReplyCompletes | src/live_query/sessions.rs:102-117 | applying a reply that fetched the session asked for (or none, or a failure) completes exactly that query and leaves it loaded or failed |
| LiveQuery.ReplyCompletesItsQuery | src/live_query/mod.rs:186-196 | whatever the call behind any of the four queries returns, the message posted completes exactly that query and leaves it loaded or failed, never idle or loading, so its in-flight mark is cleared |
| LiveQuery.CreateProjectFeedback | src/live_query/projects.rs:105-117 | a project creation posts a message exactly when it failed, a `ProjectError` without id |
| LiveQuery.DeleteProjectFeedback | src/live_query/projects.rs:119-134 | a project deletion posts a message exactly when it failed, a `ProjectError` for that project |
| LiveQuery.CreateSessionFeedback | src/live_query/sessions.rs:120-136 | a session creation posts a message exactly when it failed, a `SessionError` naming neither project nor session |
| LiveQuery.SessionMutationFeedback | src/live_query/sessions.rs:138-173 | a session update or deletion posts a message exactly when it failed, a `SessionError` naming only that session and carrying the error |
| LiveQuery.FailedMutationEffects | src/live_query/projects.rs:105-134 | once applied, a failed project creation fails the project list, a failed project deletion fails that project's query (shown when it is not cached), a failed session creation changes nothing, and a failed session update or deletion fails that session's query while a cached copy stays visible |
| LiveQuery.EventMessage | src/live_query/mod.rs:74-93 | each backend event becomes the store message of the same change |
| LiveQuery.EventMessageInjective | src/live_query/mod.rs:74-93 | distinct events are posted as distinct messages |
| LiveQuery.Forwarded | src/live_query/mod.rs:71-98 | the forwarding task posts at most one message per receive |
| LiveQuery.ForwardedSkipsLagged | src/live_query/mod.rs:94 | a lagged receive is skipped: removing it changes nothing that is posted |
| LiveQuery.ForwardedStopsAtClosed | src/live_query/mod.rs:95 | nothing received after the channel closed is posted |
| LiveQuery.ForwardedOneToOne | src/live_query/mod.rs:72-97 | without lag or closing every event is posted once, in order |
| LiveQuery.Forward | src/live_query/mod.rs:71-98 | the forwarding loop posts exactly the forwarded messages of the receives it gets |
| LiveQuery.ApplyOne | src/live_query/mod.rs:117-121 | applying one message only ever removes keys from the in-flight set; each key it removes is one the message completes and, unless the message misreports its session, now reads loaded or failed |
| LiveQuery.ApplyAllPrefix | src/live_query/mod.rs:117-122 | draining one more message applies it to the state after the earlier ones |
| LiveQuery.ApplyAllAppend | src/live_query/mod.rs:110-123 | draining two batches in turn is draining their concatenation |
| LiveQuery.ApplyAllCompletes | src/live_query/mod.rs:117-122 | draining never adds a key in flight and clears every key any message completed |
| LiveQuery.LiveQueryClient.constructor | src/live_query/mod.rs:102-107 | the client starts with an empty store and no query in flight |
| LiveQuery.LiveQueryClient.Poll | src/live_query/mod.rs:110-123 | every inbox message is applied in order, and each key it completes leaves the in-flight set |
| LiveQuery.LiveQueryClient.CompleteAll | src/live_query/mod.rs:119-121 | every completed key, and nothing else, leaves the in-flight set |
| LiveQuery.LiveQueryClient.CompleteQuery | src/live_query/mod.rs:149-151 | the key, and nothing else, leaves the in-flight set |
| LiveQuery.LiveQueryClient.InvalidateProjects | src/live_query/mod.rs:125-128 | the list query leaves the in-flight set and the store forgets its state |
| LiveQuery.LiveQueryClient.InvalidateProject | src/live_query/mod.rs:130-133 | that project's query leaves the in-flight set and the store forgets its state |
| LiveQuery.LiveQueryClient.InvalidateSessionsByProject | src/live_query/mod.rs:135-140 | that project's session query leaves the in-flight set and the store forgets its state |
| LiveQuery.LiveQueryClient.InvalidateSession | src/live_query/mod.rs:142-147 | that session's query leaves the in-flight set and the store forgets its state |
| LiveQuery.LiveQueryClient.StartQuery | src/live_query/mod.rs:157-182 | a load starts exactly when its key is not in flight, and then the key is in flight and the query shows loading with every other query unchanged; otherwise nothing changes |
| LiveQuery.LiveQueryClient.LoadProjectsIfNeeded | src/live_query/projects.rs:43-67 | the list load starts exactly when it is not in flight and the list is idle or failed |
| LiveQuery.LiveQueryClient.LoadProjectIfNeeded | src/live_query/projects.rs:69-103 | a project load starts exactly when it is not in flight, the project is not cached and its state is neither loading nor loaded |
| LiveQuery.LiveQueryClient.LoadSessionsByProjectIfNeeded | src/live_query/sessions.rs:44-81 | a session-list load starts exactly when it is not in flight and the project's list is neither loading nor loaded |
| LiveQuery.LiveQueryClient.LoadSessionIfNeeded | src/live_query/sessions.rs:83-118 | a session load starts exactly when it is not in flight, the session is not cached and its state is neither loading nor loaded |
| LiveQuery.LiveQueryClient.Projects | src/live_query/projects.rs:9-26 | the read starts the list load when needed, then returns the list view of the resulting store |
| LiveQuery.LiveQueryClient.Project | src/live_query/projects.rs:28-41 | the read starts the project load when needed, then returns the project view of the resulting store |
| LiveQuery.LiveQueryClient.SessionsByProject | src/live_query/sessions.rs:9-27 | the read starts the session-list load when needed, then returns that project's session view |
| LiveQuery.LiveQueryClient.Session | src/live_query/sessions.rs:29-42 | the read starts the session load when needed, then returns the session view of the resulting store |
| LiveQuery.Started | src/live_query/mod.rs:171-182 | a started load puts its key in flight and shows it loading with every other query unchanged; an unstarted one changes nothing |
| LiveQuery.LoadStartsOnce | src/live_query/mod.rs:171-177 | after a load started, the guard stays shut for that key, even once its in-flight mark is gone, because its state reads as loading |
| LiveQuery.FirstReadIsLoading | src/live_query/projects.rs:9-16 | the read that starts a load shows the query as loading |
| LiveQuery.InvalidateCachedProjectKeepsCache | src/live_query/projects.rs:69-86 | invalidating a cached project does not restart its load and the read still shows the cached project |
| LiveQuery.InvalidateProjectsReloads | src/live_query/mod.rs:125-128 | after the list is invalidated the next read loads it again |
| SyncEngine.Keys | src/sync_engine/mod.rs:33-36 | the in-flight flag and the three in-flight id sets, read as the same query keys the live-query client tracks, one for one in both directions |
| SyncEngine.SyncApply | src/sync_engine/mod.rs:76-169 | a project-list error with no list load in flight changes nothing; every other message changes the store as the shared reducer does; the in-flight marks only ever shrink |
| SyncEngine.SyncClearsCompletedKeys | src/sync_engine/mod.rs:76-169 | the reducer clears exactly the in-flight marks of the keys that reducer completes, except that a project deletion clears none |
| SyncEngine.ProjectListErrorNeedsInFlight | src/sync_engine/mod.rs:103-113 | a project-list error with no list load in flight changes nothing; with one in flight it fails the list and clears the flag |
| SyncEngine.SyncApplyAllPrefix | src/sync_engine/mod.rs:70-73 | draining one more message applies it to the state after the earlier ones |
| SyncEngine.SyncApplyAllShrinks | src/sync_engine/mod.rs:64-74 | draining the inbox only ever clears in-flight marks, never sets one |
| SyncEngine.CreateSessionLocally | src/sync_engine/sessions.rs:166-174 | the optimistic creation shows the session as loaded, adds it to its project's session list as the index insertion says, leaves the project side alone and keeps every list free of duplicates |
| SyncEngine.UpdateSessionLocally | src/sync_engine/sessions.rs:206-218 | the optimistic update shows the new session as loaded, leaves the project side alone and keeps every list free of duplicates |
| SyncEngine.UpdateSessionLocallyIsUnsortedUpsert | src/sync_engine/sessions.rs:206-218 | the optimistic update followed by the re-sort of that project is the store's session upsert, and for a session not cached yet it equals the optimistic creation |
| SyncEngine.CreatedSessionIsListed | src/sync_engine/sessions.rs:166-174 | unless the project's list is still loading, a created session is in its project's list, which is loaded |
| SyncEngine.ProjectsLoadReply | src/sync_engine/projects.rs:61-84 | the list call posts `ProjectsLoaded` exactly when both transport and backend succeeded, otherwise a `ProjectError` without id |
| SyncEngine.ProjectLoadReply | src/sync_engine/projects.rs:116-144 | the project call posts `ProjectLoaded` for the asked id exactly when it succeeded, otherwise a `ProjectError` for that id |
| SyncEngine.SessionsLoadReply | src/sync_engine/sessions.rs:69-101 | the session-list call posts `SessionsByProjectLoaded` for the project exactly when it succeeded, otherwise a `SessionError` naming only the project |
| SyncEngine.SessionLoadReply | src/sync_engine/sessions.rs:133-163 | the session call posts `SessionLoaded` for the asked id exactly when it succeeded, otherwise a `SessionError` naming only the session |
| SyncEngine.CreateProjectReply | src/sync_engine/projects.rs:155-178 | a project creation posts the stored project as upserted exactly when it succeeded, otherwise a `ProjectError` without id |
| SyncEngine.DeleteProjectReply | src/sync_engine/projects.rs:189-212 | a project deletion posts `ProjectDeleted` exactly when it succeeded, otherwise a `ProjectError` for that project |
| SyncEngine.UpsertSessionReply | src/sync_engine/sessions.rs:178-203 | a session creation or update posts the stored session as upserted exactly when it succeeded, otherwise a `SessionError` naming neither project nor session |
| SyncEngine.DeleteSessionReply | src/sync_engine/sessions.rs:263-288 | a session deletion posts `SessionDeleted` exactly when it succeeded, otherwise a `SessionError` for that session |
| SyncEngine.CreatedProjectConfirmed | src/sync_engine/projects.rs:147-179 | when the backend confirms a creation with the project as sent, applying the confirmation leaves the optimistic store and the in-flight marks unchanged |
| SyncEngine.DeletedProjectConfirmed | src/sync_engine/projects.rs:181-213 | a confirmed deletion leaves the optimistic store and the in-flight marks unchanged |
| SyncEngine.FailedMutationsStay | src/sync_engine/projects.rs:147-213 | a failed mutation is not rolled back: an optimistically created project stays when no list load is in flight, and an optimistically deleted project reads as failed rather than restored |
| SyncEngine.FailedSessionUpsertStays | src/sync_engine/sessions.rs:178-203 | a failed session creation or update changes neither the store nor the in-flight marks, so the optimistic copy stays |
| SyncEngine.SyncEngineClient.constructor | src/sync_engine/mod.rs:53-61 | the client starts with an empty store and nothing in flight |
| SyncEngine.SyncEngineClient.Poll | src/sync_engine/mod.rs:64-74 | every inbox message is handed to the reducer in order |
| SyncEngine.SyncEngineClient.ApplyStoreMessage | src/sync_engine/mod.rs:76-169 | the store and the in-flight marks end as the reducer says for that message |
| SyncEngine.SyncEngineClient.ProjectsState | src/sync_engine/projects.rs:9-24 | the read, which starts nothing, is the list view of the store: the cached projects of a loaded list, in order, skipping ids not cached |
| SyncEngine.SyncEngineClient.ProjectState | src/sync_engine/projects.rs:26-37 | the read is the project view: a cached project first, else its recorded state, else idle |
| SyncEngine.SyncEngineClient.SessionsByProjectState | src/sync_engine/sessions.rs:11-27 | the read is the session-list view of that project |
| SyncEngine.SyncEngineClient.SessionState | src/sync_engine/sessions.rs:29-40 | the read is the session view: a cached session first, else its recorded state, else idle |
| SyncEngine.SyncEngineClient.EnsureProjectsLoaded | src/sync_engine/projects.rs:39-85 | the list load starts exactly when no list load is in flight and the list is idle or failed; then the list shows loading and is marked in flight, otherwise nothing changes |
| SyncEngine.SyncEngineClient.EnsureProjectLoaded | src/sync_engine/projects.rs:87-145 | a project load starts exactly when the project is not cached, its state is neither loading nor loaded and it is not in flight; then it shows loading and is marked in flight, otherwise nothing changes |
| SyncEngine.SyncEngineClient.EnsureSessionsByProjectLoaded | src/sync_engine/sessions.rs:42-102 | a session-list load starts exactly when that list is neither loading nor loaded and not in flight; then it shows loading and is marked in flight, otherwise nothing changes |
| SyncEngine.SyncEngineClient.EnsureSessionLoaded | src/sync_engine/sessions.rs:104-164 | a session load starts exactly when the session is not cached, its state is neither loading nor loaded and it is not in flight; then it shows loading and is marked in flight, otherwise nothing changes |
| SyncEngine.SyncEngineClient.CreateProject | src/sync_engine/projects.rs:147-179 | before the call the store holds the project as the store's project upsert says |
| SyncEngine.SyncEngineClient.DeleteProject | src/sync_engine/projects.rs:181-213 | before the call the store drops the project and its sessions as the store's project removal says |
| SyncEngine.SyncEngineClient.CreateSession | src/sync_engine/sessions.rs:166-204 | before the call the store holds the optimistic creation |
| SyncEngine.SyncEngineClient.UpdateSession | src/sync_engine/sessions.rs:206-248 | before the call the store holds the optimistic update |
| SyncEngine.SyncEngineClient.DeleteSession | src/sync_engine/sessions.rs:250-289 | before the call the store drops the session as the store's session removal says |
| SyncEngine.EnsureStartsOnce | src/sync_engine/projects.rs:39-56 | right after a load started, the store guard refuses the same load |
| DirectoryPicker.Join | src/components/directory_picker.rs:305 | `PathBuf::join` on Unix: an absolute path, or any path under an empty base, is taken as it is; otherwise the result starts with the base, ends with the path and has exactly one `/` between them |
| DirectoryPicker.JoinAbsolute | src/components/directory_picker.rs:305 | a path joined under an absolute HOME is absolute |
| DirectoryPicker.ExpandTilde | src/components/directory_picker.rs:297-309 | `~` becomes HOME and `~/rest` becomes `rest` joined under HOME; with HOME unset, or for any other input, the input comes back unchanged |
| DirectoryPicker.ExpandTildeIdempotent | src/components/directory_picker.rs:297-309 | with HOME unset or absolute, expanding twice is expanding once |
| DirectoryPicker.LastSlash | src/components/directory_picker.rs:337-342 | the index found holds a `/` and none follows it; when none is found the path has no `/` |
| DirectoryPicker.TrimTrailingSlashes | src/components/directory_picker.rs:337 | the result is the longest prefix not ending in `/`, and only `/` was cut |
| DirectoryPicker.SplitParent | src/components/directory_picker.rs:333-344 | a path ending in `/` is listed itself with the empty prefix; otherwise the prefix is a non-empty final component that contains no `/` and ends the path |
| DirectoryPicker.SplitJoin | src/components/directory_picker.rs:333-344 | splitting a directory joined with a name gives back that directory and that name |
| DirectoryPicker.Locate | src/components/directory_picker.rs:315-344 | an empty input gives up; an input starting with `/` or `~` is split after tilde expansion; any other input is split after joining under HOME, and gives up when HOME is unset |
| DirectoryPicker.Offers | src/components/directory_picker.rs:352-372 | a path is offered exactly when some readable listing entry is a directory with a UTF-8 name that is not hidden and matches the lowercased prefix, and the path is that name joined under the parent |
| DirectoryPicker.Take | src/components/directory_picker.rs:375 | the result is the first `n` entries, or all of them when there are fewer |
| DirectoryPicker.ComputeDirSuggestions | src/components/directory_picker.rs:315-378 | at most fifty suggestions; none for an empty input, for an input it gives up on, or when the parent cannot be read |
| DirectoryPicker.SuggestionsAreSmallestCandidates | src/components/directory_picker.rs:352-377 | the suggestions are sorted and are candidates, and a candidate is left out only when fifty suggestions that sort no later than it are shown |
| DirectoryPicker.SmallestSorted | src/components/directory_picker.rs:374-375 | the first fifty of the sorted names are sorted, are among the names, and every name left out sorts after all of them |
| DirectoryPicker.TakeOfSorted | src/components/directory_picker.rs:375 | a prefix of a sorted list is sorted and everything it leaves out sorts after all of it |
| DirectoryPicker.FewCandidatesAllSuggested | src/components/directory_picker.rs:374-375 | with fifty candidates or fewer, a path is suggested exactly when it is a candidate |
| DirectoryPicker.TrailingSlashListsDirectory | src/components/directory_picker.rs:333-372 | every suggestion for an absolute input ending in `/` is a visible sub-directory of that directory, joined under it |
| DirectoryPicker.StrLeOrders | src/components/directory_picker.rs:374 | the string order the sort uses is a total preorder |
| DirectoryPicker.Popup | src/components/directory_picker.rs:174-279 | its focus and pick are exactly `PopupResult`: the focus is clamped and moved by the arrows and stays on the list; Enter picks the focused suggestion; otherwise, unless Escape was pressed, a click picks the clicked row; picking or Escape empties the list and the focus; otherwise the list is kept with the moved focus; whatever is picked is a shown suggestion |
| DirectoryPicker.EnterPicksFocused | src/components/directory_picker.rs:196-208 | Enter with the focus on a suggestion, and no arrow pressed, picks that suggestion and leaves no focus |
| DirectoryPicker.ClickPicksRow | src/components/directory_picker.rs:209-272 | a click on a row, with neither Enter nor Escape pressed, picks that row and leaves no focus |
| DirectoryPicker.ArrowsOnlyMoveFocus | src/components/directory_picker.rs:176-195 | without Enter, Escape or a click nothing is picked, and the focus is where the arrows put it, on the list |
| DirectoryPicker.PopupIfShown | src/components/directory_picker.rs:170-174 | the popup is shown exactly for a non-empty search with suggestions while the field has focus, and then the focus and the pick are `PopupResult` over the listed suggestions; otherwise the focus is kept and nothing is picked |
| DirectoryPicker.FocusRead | src/components/directory_picker.rs:281-282 | the read gives back the focus the previous frame stored, and no focus when nothing was stored |
| DirectoryPicker.FocusReadAsWritten | src/components/directory_picker.rs:83 | the read as written never finds a stored focus |
| DirectoryPicker.FocusLostBetweenFrames | src/components/directory_picker.rs:186-190 | two frames of ArrowDown over three suggestions reach the third entry with the focus read back, but only the second as written |
| DirectoryPicker.SearchOf | src/components/directory_picker.rs:99-139 | a folder picked in the dialog wins, then the typed text, then the stored search text, then the bound path |
| DirectoryPicker.PickerMemory.constructor | src/components/directory_picker.rs:73-96 | a picker with nothing in memory: no search text, no suggestions, no focus, an empty last search and all flags off |
| DirectoryPicker.PickerMemory.Load | src/components/directory_picker.rs:73-139 | the frame starts from the stored search (or the bound path), as typed, replaced by a picked folder, which also clears the suggestions and the focus; otherwise the stored suggestions and the focus the previous frame stored, read as intended (FocusRead), not as line 83 reads it |
| DirectoryPicker.PickerMemory.Refresh | src/components/directory_picker.rs:153-168 | the suggestions are recomputed and stored with their search exactly when the search differs from the last one, and the focus then moves to the first suggestion; otherwise nothing is stored |
| DirectoryPicker.PickerMemory.Show | src/components/directory_picker.rs:64-294 | one frame: suggestions follow the search exactly when it changed; the popup starts from the listing and focus `FrameListing` gives (recomputed with the focus on the first, cleared by a picked folder, or the stored ones with the focus read as intended); when it is shown, the stored focus is `PopupResult`'s and a suggestion it picks is stored as the search text and answered as the path, marked changed; otherwise the stored focus is the one it started from, and the answer is the search with `~` expanded, changed exactly when the search was refreshed or a folder was picked; the scroll request survives only while the popup is hidden |
| DirectoryPicker.PickerMemory.Finish | src/components/directory_picker.rs:170-294 | after the popup the search text, focus, scroll request and flags are stored: with the popup shown the stored focus is `PopupResult`'s and its pick is stored as the search text and answered as the path, marked changed; without a pick the search is stored and answered with `~` expanded, changed exactly after a refresh or a picked folder; without the popup the focus is kept; the scroll request survives only while the popup is not shown |
| ModelSelector.Filter | src/components/model_selector.rs:50-64 | the entries are the matching models, each paired with its own index in the full list, in list order, and no matching model is missing |
| ModelSelector.EmptySearchKeepsAll | src/components/model_selector.rs:57 | an empty search keeps every model with its own index, in order |
| ModelSelector.SearchIgnoresCase | src/components/model_selector.rs:51 | searching for a text and for its lower-cased form keeps the same entries |
| ModelSelector.LowerTwice | src/components/model_selector.rs:51 | lower-casing is idempotent |
| ModelSelector.ModelSelectorState.constructor | src/components/model_selector.rs:31-42 | no models, no selection, no focus, empty search texts, an empty filtered list and the popup closed |
| ModelSelector.ModelSelectorState.SetModels | src/components/model_selector.rs:44-48 | the models and the selection are replaced and the filtered list is recomputed for the current search; nothing else changes |
| ModelSelector.ModelSelectorState.RecomputeFilteredModels | src/components/model_selector.rs:50-64 | the filtered list becomes the filter of the models by the search text; nothing else changes |
| ModelSelector.ModelSelectorState.SelectedModel | src/components/model_selector.rs:66-69 | no model when nothing is selected or the index is past the models, otherwise the model at the index |
| ModelSelector.ModelSelectorState.Show | src/components/model_selector.rs:81-143 | one frame: the filtered list is current for the search the frame started with; opening on the trigger focuses the selected model; with the popup shown over a non-empty list the focus stays on the list and the keys, the search edit and a click act as the popup outcome says; a closed popup that was open clears the search and the focus; any new selection is a model matching the search |
| ModelSelector.ModelSelectorState.PopupOrClose | src/components/model_selector.rs:102-142 | an open popup acts as its body says; a popup closed after being open clears the search and the focus; the open state is recorded; any new selection is a model matching the filtered search |
| ModelSelector.ModelSelectorState.OpenFocus | src/components/model_selector.rs:83-86 | a click on the trigger while the popup was closed focuses the selected model and asks to scroll it into view; nothing else changes |
| ModelSelector.ModelSelectorState.ClearOnClose | src/components/model_selector.rs:137-140 | a popup that was open clears the search and the focus; nothing else changes |
| ModelSelector.ModelSelectorState.RefreshFilter | src/components/model_selector.rs:93-97 | afterwards the filtered list is the filter by the current search, which is recorded as the last one; nothing else changes |
| ModelSelector.ModelSelectorState.PopupBody | src/components/model_selector.rs:106-134 | with no models nothing changes; otherwise the keys, then the search edit, then a click act as the popup outcome says, the focus stays on the filtered list and any new selection is a matching model |
| ModelSelector.ModelSelectorState.Navigate | src/components/model_selector.rs:260-285 | the focus is clamped and moved by the arrows and stays on the filtered list; Enter on a focused entry selects the model behind it and closes; Escape closes |
| ModelSelector.ModelSelectorState.EditSearch | src/components/model_selector.rs:145-175 | the search becomes the typed text; if it changed, the focus moves to the first entry of the list filtered before the edit, or to none when that list is empty |
| ModelSelector.ModelSelectorState.ClickRow | src/components/model_selector.rs:177-214 | a click on an entry still listed selects the model behind it and closes the popup; otherwise nothing changes |

## Left out

- Harness processes, the opencode HTTP/SSE client and event translation are not modelled. The harness call is an input of each session `create`: a success (carrying the harness session id in `repo/session.rs`) or a failure.
- Transport (tonic, tarpc, `tokio::spawn`, `UiInbox`, the broadcast channel) is not modelled. A call is replaced by its outcome, the inbox by the sequence of messages drained in one frame, and a broadcast receiver by its sequence of receives.
- Locks, `RefCell` and `Cell` are modelled sequentially. A poisoned lock is an input of `EntityState` and `GroupedState`. It is not threaded through `LocalBackend`, which calls the states with no lock poisoned, so a state error after a successful database write is not modelled there.
- A `watch::Sender` is modelled by the value it last sent. Receivers, dropped receivers and failed sends are not modelled.
- `LocalBackend::new` opens the connection, starts the harness and calls `session_repo.list()`, which neither session repository defines. The connection and the harness startup are left out, and the initial sessions are a constructor input. `BackendError` is the three wrappers the `?` conversions use; the startup error is left out.
- `src/sync_engine/mod.rs` imports `upsert_project`, `remove_project`, `upsert_session` and `remove_session` from `src/sync_engine/store.rs`, which does not define them. The model uses the live-query store's functions of those names, which are modelled once in `ClientStore`.
- `src/query/mod.rs` is commented out, so `QueryState` (`Loading`, `Data`, `Error`) is reconstructed from its uses. A failed `Status` is kept as its message.
- `HashMap` iteration order is not modelled. Where the source iterates a map, the model uses the multiset of its values or a sorted listing.
- The uuid and chrono text syntaxes are replaced by decimal numerals. Formatting prints the canonical numeral; parsing also accepts leading zeros, which stand in for the other spellings the libraries accept (upper-case hex, braces, urns, shorter fractions). The real syntaxes and the second date-time format that `parse_naive_datetime` accepts (with `T`) are left out.
- Ids are natural numbers, so the `length(id) = 16` CHECKs of the schema are not modelled.
- The `messages`, `message_tools` and `message_parts` tables of the migrations (role CHECK, cascades, positions) are left out: no modelled code writes them. `messages.rs` writes `session_messages` and `session_message_parts`, which no migration creates. Their keys come from the `ON CONFLICT` clauses, and no foreign key or cascade is modelled for them.
- `get_session_id_by_harness_id` in `messages.rs` is left out: nothing in the modelled core calls it.
- `publish_session_messages` is modelled only as replacing the latest value of the session's sender, if it has one, with the current listing. The listing is an input, and the stream plumbing is left out.
- Floating-point cost and token-count columns take part in no logic and are left out.
- MessageStore.MessageDb.UpsertMessageWithParts: a failed `ROLLBACK` after an error is not modelled. The rollback is taken to restore the tables, and the source ignores its result.
- Repositories.CreateHarnessFirst: the harness session id and the default directory that `create` sets on the session (`repo/session.rs:130-134`) are not stored, because `create_session` inserts six columns only (`sqlite.rs:302-303`). The model keeps this as the code does (`Repositories.HarnessIdNotStored`) and does not model a table holding a harness id, so the uniqueness of that column is never exercised.
- Database.SqlErrorText: the constraint texts are those SQLite 3.30 and later produces; a driver error outside the schema's constraints is an input text (`OtherSqlError`).
- MessageStore.UpsertWithParts: one time `now` stamps the message row and all its parts. The source reads `Utc::now()` in every statement (`messages.rs:244`), so the rows of one batch can carry different `updated_at` values; the model does not capture that difference.
- MessageStore.UpsertWithParts: after a refused `COMMIT` the source returns without a `ROLLBACK`, so the transaction stays open on the connection. The model keeps the writes but does not model the open transaction, so the next `BEGIN IMMEDIATE` on that connection failing is not modelled.
- MessageStore.MessageDb.UpsertPart: uses the corrected part upsert (`UpsertPartRow`), where the first delta of a new part becomes its text. The code as written stores "" in that case (see Findings); `UpsertPartAsWritten` models it.
- DirectoryPicker.PickerMemory.Load: reads the stored focus as intended (`FocusRead`). The code as written never finds it (see Findings); `FocusReadAsWritten` models that read.
- DirectoryPicker.PickerMemory.Show: reads the focus through `Load`, so it also uses the intended read, not the one line 83 performs.
- Database.Sqlite: the ten CRUD and list calls run with the connection lock sound and the driver accepting each statement. In the source `with_conn` fails every such call with `PoisonedLock` when the lock is poisoned (`sqlite.rs:81-86`), and each statement passes any driver error on with `?`. The model's only errors there are the schema's constraint refusals and the checks on the rows affected, so `ListProjects`, `ListSessionsByProject`, `GetProjectRow` and `GetSessionRow` never fail, and neither do `Repositories.ProjectRepo.List`, `Repositories.ProjectRepo.Get`, `Repositories.HarnessFirstSessionRepo.ListByProject` and `Repositories.HarnessFirstSessionRepo.Get`. Only `BeginTransaction` takes the lock's outcome.
- Database.ErrorText: the texts are the `Display` of `DatabaseError` as `db/mod.rs:14-25` defines it. `sqlite.rs` builds a `SqliteQueryError` variant that `db/mod.rs` does not define; that error type is not part of this model, and its query-error variant is modelled as `QueryError` with the "Generic database error" text.
- ClientStore.ApplyMessage: its contract is stated by the lemmas `ApplyMessageCompletes`, `CompletedQueriesSettle` and `ErrorsKeepCaches`, and by the contracts of the update functions it calls (`PutProject`, `DropProject`, `PutSession`, `DropSession`), not by `ensures` clauses on the function itself.
- Case folding is ASCII-only `ToLower`: Unicode `to_lowercase` is not modelled.
- Directory picker: only Unix paths, with no `.`/`..` normalisation. The file dialog, HOME and `read_dir` are inputs.
- Directory picker and model selector: rendering, layout, styling, `scroll_to_me` and `request_focus` are left out. The scroll request is kept only as a flag.
- Model selector: egui decides whether the popup shows in a frame (toggle, click outside, `ui.close()`), and that is the `open` input. `ui.close()` is reported as `closeRequested`.
- `LiveQuery.LiveQueryClient.constructor` and `SyncEngine.SyncEngineClient.constructor` leave out spawning the server and the event-forwarding task. The forwarding loop is modelled separately as `LiveQuery.Forward`.
- Pages, the other components, the UI tester, process management and the database modules other than `src/backend/db/sqlite.rs` and `src/backend/db/sqlite/messages.rs` are outside the modelled core.

## Findings

| source | as written | input that shows it | evidently intended | confidence | as-written member | corrected member |
|---|---|---|---|---|---|---|
| src/backend/db/sqlite/messages.rs:246-248 | a part not stored yet is inserted with the incoming `text`; the delta is applied only in the `ON CONFLICT` branch | a fresh part with text "" and delta "hello" is stored with text "" | the first delta of a new part becomes its text, as a later delta is appended | not executed | MessageStore.UpsertPartAsWritten | MessageStore.UpsertPartRow |
| src/components/directory_picker.rs:83 | `focused_index` is read as a `usize` temp value but stored as an `Option<usize>` (line 282); egui keys temp values by type, so the read never finds the stored focus | two frames of ArrowDown over three suggestions end on the second entry instead of the third | the focus stored by one frame is read back by the next | not executed | DirectoryPicker.FocusReadAsWritten | DirectoryPicker.FocusRead |
