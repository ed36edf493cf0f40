/**
 * The message tables of the SQLite backend: messages keyed by (session, id), their parts
 * keyed by (session, message, id), the upserts the event ingestion uses, the soft removal
 * of a message, and the listing that folds the rows of a `LEFT JOIN` back into messages
 * with their parts. Timestamps are the text the backend writes; the clock is a parameter,
 * and what the engine refuses or returns for a query is a parameter too.
 */
module MessageStore {
  import opened Wrappers
  import opened Domain
  import opened Seqs
  import opened Database

  /** `repo::message::MessagePart` as the message tables store it. */
  datatype MessagePart = MessagePart(id: string, messageId: string, partType: string, text: string, toolJson: string)

  /** `repo::message::Message` as the message tables store it: every column as text. */
  datatype Message = Message(
    id: string,
    sessionId: Uuid,
    role: string,
    createdAt: string,
    completedAt: string,
    parentId: string,
    providerId: string,
    modelId: string,
    errorJson: string,
    parts: seq<MessagePart>)

  datatype MessageKey = MessageKey(sessionId: Uuid, id: string)
  datatype PartKey = PartKey(sessionId: Uuid, messageId: string, id: string)

  datatype MessageRow = MessageRow(
    role: string,
    createdAt: string,
    completedAt: string,
    parentId: string,
    providerId: string,
    modelId: string,
    errorJson: string,
    removedAt: Option<string>,
    updatedAt: string)

  datatype PartRow = PartRow(partType: string, text: string, toolJson: string, updatedAt: string)

  /** `session_messages` and `session_message_parts`, with the keys of their `ON CONFLICT`
      clauses. */
  datatype MessageTables = MessageTables(messages: map<MessageKey, MessageRow>, parts: map<PartKey, PartRow>)

  const NoMessages := MessageTables(map[], map[])

  ghost predicate Visible(t: MessageTables, sessionId: Uuid, id: string)
  {
    MessageKey(sessionId, id) in t.messages && t.messages[MessageKey(sessionId, id)].removedAt.None?
  }

  /** Whether `m`'s columns are those of the stored row. */
  predicate MatchesRow(m: Message, row: MessageRow)
  {
    m.role == row.role && m.createdAt == row.createdAt && m.completedAt == row.completedAt &&
    m.parentId == row.parentId && m.providerId == row.providerId && m.modelId == row.modelId &&
    m.errorJson == row.errorJson
  }

  // ---------------------------------------------------------------------------
  // Messages

  /** `upsert_session_message`: insert, or overwrite every column; either way the row is no
      longer removed. */
  function UpsertMessageRow(t: MessageTables, m: Message, now: string): (r: MessageTables)
    ensures Visible(r, m.sessionId, m.id) && MatchesRow(m, r.messages[MessageKey(m.sessionId, m.id)])
    ensures r.messages.Keys == t.messages.Keys + {MessageKey(m.sessionId, m.id)}
    ensures forall k :: k in t.messages && k != MessageKey(m.sessionId, m.id) ==> r.messages[k] == t.messages[k]
    ensures r.parts == t.parts
  {
    var row := MessageRow(m.role, m.createdAt, m.completedAt, m.parentId, m.providerId, m.modelId, m.errorJson, None, now);
    t.(messages := t.messages[MessageKey(m.sessionId, m.id) := row])
  }

  /** `ensure_session_message_exists`: a placeholder assistant message when the key is
      absent; `DO NOTHING` when it is present. */
  function EnsureMessageRow(t: MessageTables, sessionId: Uuid, id: string, now: string): (r: MessageTables)
    ensures MessageKey(sessionId, id) in t.messages ==> r == t
    ensures MessageKey(sessionId, id) !in t.messages ==>
      Visible(r, sessionId, id) && r.messages[MessageKey(sessionId, id)].role == "assistant" &&
      r.messages[MessageKey(sessionId, id)].createdAt == now
    ensures r.messages.Keys == t.messages.Keys + {MessageKey(sessionId, id)} && r.parts == t.parts
    ensures forall k :: k in t.messages ==> r.messages[k] == t.messages[k]
  {
    var k := MessageKey(sessionId, id);
    if k in t.messages then t
    else t.(messages := t.messages[k := MessageRow("assistant", now, "", "", "", "", "", None, now)])
  }

  /** `mark_session_message_removed`: an `UPDATE` that touches the row if there is one and
      otherwise affects nothing, without error. */
  function MarkRemovedRow(t: MessageTables, sessionId: Uuid, id: string, now: string): (r: MessageTables)
    ensures !Visible(r, sessionId, id)
    ensures MessageKey(sessionId, id) !in t.messages ==> r == t
    ensures r.messages.Keys == t.messages.Keys && r.parts == t.parts
    ensures forall k :: k in t.messages && k != MessageKey(sessionId, id) ==> r.messages[k] == t.messages[k]
    ensures MessageKey(sessionId, id) in t.messages ==>
      r.messages[MessageKey(sessionId, id)] == t.messages[MessageKey(sessionId, id)].(removedAt := Some(now), updatedAt := now)
  {
    var k := MessageKey(sessionId, id);
    if k in t.messages then t.(messages := t.messages[k := t.messages[k].(removedAt := Some(now), updatedAt := now)])
    else t
  }

  /** Removing a message hides it and no other; upserting it again shows it again with the
      upserted columns. */
  lemma RemoveThenUpsert(t: MessageTables, m: Message, removedAt: string, now: string)
    ensures var removed := MarkRemovedRow(t, m.sessionId, m.id, removedAt);
      !Visible(removed, m.sessionId, m.id) &&
      (forall s: Uuid, id: string :: s != m.sessionId || id != m.id ==> (Visible(removed, s, id) <==> Visible(t, s, id))) &&
      Visible(UpsertMessageRow(removed, m, now), m.sessionId, m.id)
  {
  }

  /** A placeholder never overwrites: after an upsert, ensuring the message keeps its columns. */
  lemma EnsureAfterUpsert(t: MessageTables, m: Message, now: string, later: string)
    ensures EnsureMessageRow(UpsertMessageRow(t, m, now), m.sessionId, m.id, later) == UpsertMessageRow(t, m, now)
  {
  }

  // ---------------------------------------------------------------------------
  // Part text

  /** SQLite's `substr(x, -n)` for `n > 0`: the last `n` characters, or all of `x` when it
      is shorter. */
  function SqliteTail(x: string, n: nat): (r: string)
    ensures |r| <= n
    ensures n <= |x| ==> r == x[|x| - n..]
  {
    if n >= |x| then x else x[|x| - n..]
  }

  /** The `CASE` that updates a stored part's text: a non-empty incoming text wins; otherwise
      a non-empty delta is appended unless the stored text already ends with it. */
  function MergePartText(stored: string, incoming: string, delta: Option<string>): (r: string)
    ensures incoming != "" ==> r == incoming
    ensures incoming == "" && delta.Some? && delta.value != "" && !EndsWith(stored, delta.value) ==> r == stored + delta.value
    ensures incoming == "" && (delta.None? || delta.value == "" || EndsWith(stored, delta.value)) ==> r == stored
  {
    if incoming != "" then incoming
    else if delta.Some? && delta.value != "" && SqliteTail(stored, |delta.value|) != delta.value then stored + delta.value
    else stored
  }

  /** Whatever the stored text, a merged delta is at its end afterwards. */
  lemma MergeEndsWithDelta(stored: string, d: string)
    ensures EndsWith(MergePartText(stored, "", Some(d)), d)
  {
    var r := MergePartText(stored, "", Some(d));
    if !EndsWith(stored, d) && d != "" {
      assert r[|r| - |d|..] == d;
    }
  }

  /** The same delta delivered twice leaves the text it left the first time. */
  lemma MergeIdempotent(stored: string, d: Option<string>)
    ensures var once := MergePartText(stored, "", d);
      MergePartText(once, "", d) == once
  {
    if d.Some? {
      MergeEndsWithDelta(stored, d.value);
    }
  }

  /** Distinct deltas accumulate: a delta that is not a suffix of the text is kept after it. */
  lemma MergeAccumulates(stored: string, d: string, e: string)
    requires d != "" && e != "" && !EndsWith(stored, d) && !EndsWith(stored + d, e)
    ensures MergePartText(MergePartText(stored, "", Some(d)), "", Some(e)) == stored + d + e
  {
  }

  // ---------------------------------------------------------------------------
  // Part upsert

  function PartKeyOf(sessionId: Uuid, part: MessagePart): PartKey
  {
    PartKey(sessionId, part.messageId, part.id)
  }

  /** The text a part has so far: a part not stored yet has none. */
  function StoredText(t: MessageTables, k: PartKey): string
  {
    if k in t.parts then t.parts[k].text else ""
  }

  /** `upsert_session_message_part` as written: the `INSERT` stores the incoming text as it
      is, and only a conflicting row goes through the merge. */
  function UpsertPartAsWritten(t: MessageTables, sessionId: Uuid, part: MessagePart, delta: Option<string>, now: string): (r: MessageTables)
    ensures PartKeyOf(sessionId, part) in r.parts && r.messages == t.messages
    ensures PartKeyOf(sessionId, part) !in t.parts ==> r.parts[PartKeyOf(sessionId, part)].text == part.text
  {
    var k := PartKeyOf(sessionId, part);
    if k in t.parts then t.(parts := t.parts[k := PartRow(part.partType, MergePartText(t.parts[k].text, part.text, delta), part.toolJson, now)])
    else t.(parts := t.parts[k := PartRow(part.partType, part.text, part.toolJson, now)])
  }

  /** A first delta for a part that is not stored yet is dropped by the written `INSERT`. */
  lemma FirstDeltaDropped()
    ensures var part := MessagePart("part-1", "msg-1", "text", "", "");
      UpsertPartAsWritten(NoMessages, 0, part, Some("hello"), "now").parts[PartKey(0, "msg-1", "part-1")].text == "" &&
      MergePartText("", "", Some("hello")) == "hello"
  {
    assert SqliteTail("", 5) == "";
  }

  /** The part upsert with the delta applied on insert as well: a part that is not stored
      yet merges as if its text were empty. */
  function UpsertPartRow(t: MessageTables, sessionId: Uuid, part: MessagePart, delta: Option<string>, now: string): (r: MessageTables)
    ensures r.parts.Keys == t.parts.Keys + {PartKeyOf(sessionId, part)} && r.messages == t.messages
    ensures forall k :: k in t.parts && k != PartKeyOf(sessionId, part) ==> r.parts[k] == t.parts[k]
    ensures r.parts[PartKeyOf(sessionId, part)].partType == part.partType
    ensures r.parts[PartKeyOf(sessionId, part)].toolJson == part.toolJson
    ensures r.parts[PartKeyOf(sessionId, part)].updatedAt == now
    ensures r.parts[PartKeyOf(sessionId, part)].text == MergePartText(StoredText(t, PartKeyOf(sessionId, part)), part.text, delta)
  {
    var k := PartKeyOf(sessionId, part);
    t.(parts := t.parts[k := PartRow(part.partType, MergePartText(StoredText(t, k), part.text, delta), part.toolJson, now)])
  }

  /** Where a row was already stored, or the incoming text is not empty, or no delta came,
      the two agree. */
  lemma CorrectedAgreesWithWritten(t: MessageTables, sessionId: Uuid, part: MessagePart, delta: Option<string>, now: string)
    requires PartKeyOf(sessionId, part) in t.parts || part.text != "" || delta.None? || delta.value == ""
    ensures UpsertPartRow(t, sessionId, part, delta, now) == UpsertPartAsWritten(t, sessionId, part, delta, now)
  {
  }

  /** Ingesting the same delta twice leaves the text the first ingestion left, on stored and
      new parts alike. */
  lemma UpsertPartIdempotent(t: MessageTables, sessionId: Uuid, part: MessagePart, delta: Option<string>, now: string, later: string)
    requires part.text == ""
    ensures var k := PartKeyOf(sessionId, part);
      var once := UpsertPartRow(t, sessionId, part, delta, now);
      UpsertPartRow(once, sessionId, part, delta, later).parts[k].text == once.parts[k].text
  {
    MergeIdempotent(StoredText(t, PartKeyOf(sessionId, part)), delta);
  }

  /** A delta for a new part is its text. */
  lemma FirstDeltaKept(t: MessageTables, sessionId: Uuid, part: MessagePart, d: string, now: string)
    requires PartKeyOf(sessionId, part) !in t.parts && part.text == ""
    ensures UpsertPartRow(t, sessionId, part, Some(d), now).parts[PartKeyOf(sessionId, part)].text == d
  {
    assert SqliteTail("", |d|) == "";
  }

  // ---------------------------------------------------------------------------
  // A message with its parts, in one transaction

  /** The statements of the batch are numbered from 0 (the message) to the number of parts;
      `StatementFault(i, e)` says the engine refuses statement `i` with `e`. */
  datatype WriteFault = StatementFault(index: nat, error: DatabaseError)

  /** The keys a run of parts names. */
  function PartKeys(sessionId: Uuid, parts: seq<MessagePart>): set<PartKey>
  {
    set j | 0 <= j < |parts| :: PartKeyOf(sessionId, parts[j])
  }

  /** No later part of the run has the key of part `j`. */
  predicate LastOfKey(sessionId: Uuid, parts: seq<MessagePart>, j: nat)
    requires j < |parts|
  {
    forall i :: j < i < |parts| ==> PartKeyOf(sessionId, parts[i]) != PartKeyOf(sessionId, parts[j])
  }

  /** Part `j` brings a text, and no later part with its key does. */
  predicate LastTextOfKey(sessionId: Uuid, parts: seq<MessagePart>, j: nat)
    requires j < |parts|
  {
    parts[j].text != "" &&
    forall i :: j < i < |parts| && PartKeyOf(sessionId, parts[i]) == PartKeyOf(sessionId, parts[j]) ==> parts[i].text == ""
  }

  /** No part of the run with key `k` brings a text. */
  predicate NoTextFor(sessionId: Uuid, parts: seq<MessagePart>, k: PartKey)
  {
    forall j :: 0 <= j < |parts| && PartKeyOf(sessionId, parts[j]) == k ==> parts[j].text == ""
  }

  /** The part rows `after` are those that upserting `parts` in order, without a delta, leaves
      over `before`: the named keys are added and the others are untouched; the type, tool JSON
      and time of a key are those of its last part; its text is the last non-empty text a part
      brought, or the text it had when none did. */
  ghost predicate PartsWritten(before: map<PartKey, PartRow>, after: map<PartKey, PartRow>, sessionId: Uuid, parts: seq<MessagePart>, now: string)
  {
    after.Keys == before.Keys + PartKeys(sessionId, parts) &&
    (forall k :: k in before && k !in PartKeys(sessionId, parts) ==> after[k] == before[k]) &&
    (forall j :: 0 <= j < |parts| && LastOfKey(sessionId, parts, j) ==>
      var row := after[PartKeyOf(sessionId, parts[j])];
      row.partType == parts[j].partType && row.toolJson == parts[j].toolJson && row.updatedAt == now) &&
    (forall j :: 0 <= j < |parts| && LastTextOfKey(sessionId, parts, j) ==>
      after[PartKeyOf(sessionId, parts[j])].text == parts[j].text) &&
    (forall k :: k in PartKeys(sessionId, parts) && NoTextFor(sessionId, parts, k) ==>
      after[k].text == (if k in before then before[k].text else ""))
  }

  /** The keys of a run are those of all but its last part, and the last part's. */
  lemma PartKeysSnoc(sessionId: Uuid, parts: seq<MessagePart>)
    requires |parts| > 0
    ensures PartKeys(sessionId, parts) == PartKeys(sessionId, parts[..|parts| - 1]) + {PartKeyOf(sessionId, parts[|parts| - 1])}
  {
    var n := |parts| - 1;
    forall k | k in PartKeys(sessionId, parts)
      ensures k in PartKeys(sessionId, parts[..n]) + {PartKeyOf(sessionId, parts[n])}
    {
      var j :| 0 <= j < |parts| && PartKeyOf(sessionId, parts[j]) == k;
      if j < n {
        assert PartKeyOf(sessionId, parts[..n][j]) == k;
      }
    }
    forall k | k in PartKeys(sessionId, parts[..n])
      ensures k in PartKeys(sessionId, parts)
    {
      var j :| 0 <= j < n && PartKeyOf(sessionId, parts[..n][j]) == k;
      assert parts[..n][j] == parts[j];
    }
  }

  /** The type, tool JSON and time of the last part of each key survive one more upsert. */
  lemma LastOfKeyStep(t: MessageTables, p: MessageTables, sessionId: Uuid, parts: seq<MessagePart>, now: string)
    requires |parts| > 0
    requires PartsWritten(t.parts, p.parts, sessionId, parts[..|parts| - 1], now)
    ensures var r := UpsertPartRow(p, sessionId, parts[|parts| - 1], None, now).parts;
      forall j :: 0 <= j < |parts| && LastOfKey(sessionId, parts, j) ==>
        PartKeyOf(sessionId, parts[j]) in r &&
        var row := r[PartKeyOf(sessionId, parts[j])];
        row.partType == parts[j].partType && row.toolJson == parts[j].toolJson && row.updatedAt == now
  {
    var n := |parts| - 1;
    var r := UpsertPartRow(p, sessionId, parts[n], None, now).parts;
    forall j | 0 <= j < n && LastOfKey(sessionId, parts, j)
      ensures PartKeyOf(sessionId, parts[j]) in r && var row := r[PartKeyOf(sessionId, parts[j])];
        row.partType == parts[j].partType && row.toolJson == parts[j].toolJson && row.updatedAt == now
    {
      assert parts[..n][j] == parts[j];
      assert LastOfKey(sessionId, parts[..n], j);
    }
  }

  /** The last text brought for each key survives one more upsert. */
  lemma LastTextStep(t: MessageTables, p: MessageTables, sessionId: Uuid, parts: seq<MessagePart>, now: string)
    requires |parts| > 0
    requires PartsWritten(t.parts, p.parts, sessionId, parts[..|parts| - 1], now)
    ensures var r := UpsertPartRow(p, sessionId, parts[|parts| - 1], None, now).parts;
      forall j :: 0 <= j < |parts| && LastTextOfKey(sessionId, parts, j) ==>
        PartKeyOf(sessionId, parts[j]) in r && r[PartKeyOf(sessionId, parts[j])].text == parts[j].text
  {
    var n := |parts| - 1;
    var r := UpsertPartRow(p, sessionId, parts[n], None, now).parts;
    forall j | 0 <= j < n && LastTextOfKey(sessionId, parts, j)
      ensures PartKeyOf(sessionId, parts[j]) in r && r[PartKeyOf(sessionId, parts[j])].text == parts[j].text
    {
      assert parts[..n][j] == parts[j];
      assert LastTextOfKey(sessionId, parts[..n], j);
      assert PartKeyOf(sessionId, parts[..n][j]) in PartKeys(sessionId, parts[..n]);
    }
  }

  /** A key no part brought a text for keeps its earlier text after one more upsert. */
  lemma NoTextStep(t: MessageTables, p: MessageTables, sessionId: Uuid, parts: seq<MessagePart>, now: string)
    requires |parts| > 0
    requires PartsWritten(t.parts, p.parts, sessionId, parts[..|parts| - 1], now)
    ensures var r := UpsertPartRow(p, sessionId, parts[|parts| - 1], None, now).parts;
      forall k :: k in PartKeys(sessionId, parts) && NoTextFor(sessionId, parts, k) ==>
        k in r && r[k].text == (if k in t.parts then t.parts[k].text else "")
  {
    var n := |parts| - 1;
    var r := UpsertPartRow(p, sessionId, parts[n], None, now).parts;
    PartKeysSnoc(sessionId, parts);
    forall k | k in PartKeys(sessionId, parts) && NoTextFor(sessionId, parts, k)
      ensures k in r && r[k].text == (if k in t.parts then t.parts[k].text else "")
    {
      forall j | 0 <= j < n && PartKeyOf(sessionId, parts[..n][j]) == k
        ensures parts[..n][j].text == ""
      {
        assert parts[..n][j] == parts[j];
      }
      assert NoTextFor(sessionId, parts[..n], k);
    }
  }

  /** One more part upserted after a run keeps `PartsWritten`. */
  lemma PartsWrittenStep(t: MessageTables, p: MessageTables, sessionId: Uuid, parts: seq<MessagePart>, now: string)
    requires |parts| > 0
    requires PartsWritten(t.parts, p.parts, sessionId, parts[..|parts| - 1], now)
    ensures PartsWritten(t.parts, UpsertPartRow(p, sessionId, parts[|parts| - 1], None, now).parts, sessionId, parts, now)
  {
    PartKeysSnoc(sessionId, parts);
    LastOfKeyStep(t, p, sessionId, parts, now);
    LastTextStep(t, p, sessionId, parts, now);
    NoTextStep(t, p, sessionId, parts, now);
  }

  /** The parts upserted one after the other, without a delta. */
  function UpsertParts(t: MessageTables, sessionId: Uuid, parts: seq<MessagePart>, now: string): (r: MessageTables)
    ensures r.messages == t.messages
    ensures PartsWritten(t.parts, r.parts, sessionId, parts, now)
    decreases |parts|
  {
    if parts == [] then
      assert PartKeys(sessionId, parts) == {};
      t
    else
      var last := parts[|parts| - 1];
      var p := UpsertParts(t, sessionId, parts[..|parts| - 1], now);
      PartsWrittenStep(t, p, sessionId, parts, now);
      UpsertPartRow(p, sessionId, last, None, now)
  }

  /** The batch's writes: the message row, then its parts. */
  function WriteMessage(t: MessageTables, m: Message, now: string): (r: MessageTables)
    ensures Visible(r, m.sessionId, m.id) && MatchesRow(m, r.messages[MessageKey(m.sessionId, m.id)])
    ensures r.messages.Keys == t.messages.Keys + {MessageKey(m.sessionId, m.id)}
    ensures forall k :: k in t.messages && k != MessageKey(m.sessionId, m.id) ==> r.messages[k] == t.messages[k]
    ensures PartsWritten(t.parts, r.parts, m.sessionId, m.parts, now)
  {
    UpsertParts(UpsertMessageRow(t, m, now), m.sessionId, m.parts, now)
  }

  /** `upsert_session_message_with_parts`: `BEGIN`, the message, each part, `COMMIT`. A
      refused statement rolls the batch back. A refused `COMMIT` is returned without a
      `ROLLBACK`: the transaction stays open and its writes stay on the connection. */
  function UpsertWithParts(t: MessageTables, m: Message, now: string, begin: Result<(), DatabaseError>, fault: Option<WriteFault>, commit: Result<(), DatabaseError>)
    : (r: (MessageTables, Result<(), DatabaseError>))
    ensures r.1.Success? <==> begin.Success? && (fault.None? || fault.value.index > |m.parts|) && commit.Success?
    ensures r.1.Success? ==> r.0 == WriteMessage(t, m, now)
    ensures begin.Failure? ==> r == (t, Failure(begin.error))
    ensures begin.Success? && fault.Some? && fault.value.index <= |m.parts| ==> r == (t, Failure(fault.value.error))
    ensures begin.Success? && (fault.None? || fault.value.index > |m.parts|) && commit.Failure? ==>
      r == (WriteMessage(t, m, now), Failure(commit.error))
  {
    if begin.Failure? then (t, Failure(begin.error))
    else if fault.Some? && fault.value.index <= |m.parts| then (t, Failure(fault.value.error))
    else if commit.Failure? then (WriteMessage(t, m, now), Failure(commit.error))
    else (WriteMessage(t, m, now), Success(()))
  }

  /** A message written with its parts and then listed shows them all. */
  lemma WrittenMessageIsComplete(t: MessageTables, m: Message, now: string, later: string)
    ensures var w := WriteMessage(MarkRemovedRow(t, m.sessionId, m.id, later), m, now);
      Visible(w, m.sessionId, m.id) && forall j :: 0 <= j < |m.parts| ==> PartKeyOf(m.sessionId, m.parts[j]) in w.parts
  {
    forall j | 0 <= j < |m.parts|
      ensures PartKeyOf(m.sessionId, m.parts[j]) in PartKeys(m.sessionId, m.parts)
    {
    }
  }

  // ---------------------------------------------------------------------------
  // Listing

  /** A row of the `LEFT JOIN` of messages with their parts: the part columns are absent for
      a message without parts. */
  datatype JoinedRow = JoinedRow(
    id: string,
    role: string,
    createdAt: string,
    completedAt: string,
    parentId: string,
    providerId: string,
    modelId: string,
    errorJson: string,
    partId: Option<string>,
    partMessageId: Option<string>,
    partType: Option<string>,
    partText: Option<string>,
    partToolJson: Option<string>)

  /** `message_part_from_row`: a part exactly when all five part columns are present. */
  function PartFromRow(row: JoinedRow): (r: Option<MessagePart>)
    ensures r.Some? <==>
      row.partId.Some? && row.partMessageId.Some? && row.partType.Some? && row.partText.Some? && row.partToolJson.Some?
    ensures r.Some? ==> r.value == MessagePart(row.partId.value, row.partMessageId.value, row.partType.value, row.partText.value, row.partToolJson.value)
  {
    if row.partId.Some? && row.partMessageId.Some? && row.partType.Some? && row.partText.Some? && row.partToolJson.Some? then
      Some(MessagePart(row.partId.value, row.partMessageId.value, row.partType.value, row.partText.value, row.partToolJson.value))
    else None
  }

  function HeaderOf(sessionId: Uuid, row: JoinedRow): Message
  {
    Message(row.id, sessionId, row.role, row.createdAt, row.completedAt, row.parentId, row.providerId, row.modelId, row.errorJson, [])
  }

  predicate AdjacentDistinct(ms: seq<Message>)
  {
    forall i :: 0 <= i < |ms| - 1 ==> ms[i].id != ms[i + 1].id
  }

  predicate AllOfSession(ms: seq<Message>, sessionId: Uuid)
  {
    forall i :: 0 <= i < |ms| ==> ms[i].sessionId == sessionId
  }

  /** One turn of the listing loop: a row whose message id differs from the last message's
      starts a new message; a row with a part adds it to the last message. */
  function GroupStep(sessionId: Uuid, acc: seq<Message>, row: JoinedRow): (r: seq<Message>)
    ensures r != [] && r[|r| - 1].id == row.id
    ensures |acc| <= |r| <= |acc| + 1
  {
    var started := if acc == [] || acc[|acc| - 1].id != row.id then acc + [HeaderOf(sessionId, row)] else acc;
    var part := PartFromRow(row);
    if part.None? then started
    else
      var last := started[|started| - 1];
      started[..|started| - 1] + [last.(parts := last.parts + [part.value])]
  }

  /** A step keeps every message of the session and neighbouring ids distinct. */
  lemma StepKeeps(sessionId: Uuid, acc: seq<Message>, row: JoinedRow)
    ensures AllOfSession(acc, sessionId) ==> AllOfSession(GroupStep(sessionId, acc, row), sessionId)
    ensures AdjacentDistinct(acc) ==> AdjacentDistinct(GroupStep(sessionId, acc, row))
  {
  }

  function GroupFrom(sessionId: Uuid, acc: seq<Message>, rows: seq<JoinedRow>): (r: seq<Message>)
    ensures |acc| <= |r| <= |acc| + |rows|
    decreases |rows|
  {
    if rows == [] then acc else GroupFrom(sessionId, GroupStep(sessionId, acc, rows[0]), rows[1..])
  }

  lemma {:induction false} GroupFromKeeps(sessionId: Uuid, acc: seq<Message>, rows: seq<JoinedRow>)
    ensures AllOfSession(acc, sessionId) ==> AllOfSession(GroupFrom(sessionId, acc, rows), sessionId)
    ensures AdjacentDistinct(acc) ==> AdjacentDistinct(GroupFrom(sessionId, acc, rows))
    decreases |rows|
  {
    if rows != [] {
      StepKeeps(sessionId, acc, rows[0]);
      GroupFromKeeps(sessionId, GroupStep(sessionId, acc, rows[0]), rows[1..]);
    }
  }

  /** The messages `list_session_messages` builds from the rows of its query. */
  function GroupRows(sessionId: Uuid, rows: seq<JoinedRow>): (r: seq<Message>)
    ensures AllOfSession(r, sessionId) && AdjacentDistinct(r)
    ensures |r| <= |rows|
  {
    GroupFromKeeps(sessionId, [], rows);
    GroupFrom(sessionId, [], rows)
  }

  /** The joined row of `m` carrying `part`, or no part. */
  function RowOf(m: Message, part: Option<MessagePart>): JoinedRow
  {
    match part
    case None => JoinedRow(m.id, m.role, m.createdAt, m.completedAt, m.parentId, m.providerId, m.modelId, m.errorJson, None, None, None, None, None)
    case Some(p) =>
      JoinedRow(m.id, m.role, m.createdAt, m.completedAt, m.parentId, m.providerId, m.modelId, m.errorJson,
                Some(p.id), Some(p.messageId), Some(p.partType), Some(p.text), Some(p.toolJson))
  }

  function PartRows(m: Message, ps: seq<MessagePart>): seq<JoinedRow>
    decreases |ps|
  {
    if ps == [] then [] else [RowOf(m, Some(ps[0]))] + PartRows(m, ps[1..])
  }

  /** What the `LEFT JOIN` yields for one message: a row per part, or one row without a part. */
  function MessageRows(m: Message): seq<JoinedRow>
  {
    if m.parts == [] then [RowOf(m, None)] else PartRows(m, m.parts)
  }

  function JoinRows(ms: seq<Message>): seq<JoinedRow>
    decreases |ms|
  {
    if ms == [] then [] else MessageRows(ms[0]) + JoinRows(ms[1..])
  }

  lemma {:induction false} GroupFromAppend(sessionId: Uuid, acc: seq<Message>, a: seq<JoinedRow>, b: seq<JoinedRow>)
    ensures GroupFrom(sessionId, acc, a + b) == GroupFrom(sessionId, GroupFrom(sessionId, acc, a), b)
    decreases |a|
  {
    if a == [] {
      assert a + b == b;
    } else {
      var next := GroupStep(sessionId, acc, a[0]);
      assert (a + b)[0] == a[0];
      assert (a + b)[1..] == a[1..] + b;
      assert GroupFrom(sessionId, acc, a + b) == GroupFrom(sessionId, next, a[1..] + b);
      assert GroupFrom(sessionId, acc, a) == GroupFrom(sessionId, next, a[1..]);
      GroupFromAppend(sessionId, next, a[1..], b);
    }
  }

  /** A row of the message being built adds its part to it. */
  lemma StepAddsPart(sessionId: Uuid, acc: seq<Message>, m: Message, p: MessagePart)
    requires acc != [] && acc[|acc| - 1].id == m.id
    ensures GroupStep(sessionId, acc, RowOf(m, Some(p))) == acc[..|acc| - 1] + [acc[|acc| - 1].(parts := acc[|acc| - 1].parts + [p])]
  {
    assert PartFromRow(RowOf(m, Some(p))) == Some(p);
  }

  /** A row of a message other than the last starts it. */
  lemma StepStartsMessage(sessionId: Uuid, acc: seq<Message>, m: Message, p: Option<MessagePart>)
    requires m.sessionId == sessionId && (acc == [] || acc[|acc| - 1].id != m.id)
    ensures GroupStep(sessionId, acc, RowOf(m, p)) == acc + [m.(parts := if p.Some? then [p.value] else [])]
  {
    var started := acc + [HeaderOf(sessionId, RowOf(m, p))];
    assert HeaderOf(sessionId, RowOf(m, p)) == m.(parts := []);
    assert PartFromRow(RowOf(m, p)) == p;
    if p.Some? {
      assert started[..|started| - 1] == acc;
      assert started[|started| - 1] == m.(parts := []);
      assert [] + [p.value] == [p.value];
    }
  }

  /** Part rows of the message being built are added to it, in order. */
  lemma {:induction false} GroupPartsOnto(sessionId: Uuid, acc: seq<Message>, m: Message, ps: seq<MessagePart>)
    requires acc != [] && acc[|acc| - 1].id == m.id
    ensures GroupFrom(sessionId, acc, PartRows(m, ps)) == acc[..|acc| - 1] + [acc[|acc| - 1].(parts := acc[|acc| - 1].parts + ps)]
    decreases |ps|
  {
    var last := acc[|acc| - 1];
    if ps == [] {
      assert last.(parts := last.parts + ps) == last;
      assert acc[..|acc| - 1] + [last] == acc;
    } else {
      var next := acc[..|acc| - 1] + [last.(parts := last.parts + [ps[0]])];
      StepAddsPart(sessionId, acc, m, ps[0]);
      assert PartRows(m, ps) == [RowOf(m, Some(ps[0]))] + PartRows(m, ps[1..]);
      assert GroupFrom(sessionId, acc, PartRows(m, ps)) == GroupFrom(sessionId, next, PartRows(m, ps[1..]));
      GroupPartsOnto(sessionId, next, m, ps[1..]);
      assert next[..|next| - 1] == acc[..|acc| - 1];
      assert last.parts + [ps[0]] + ps[1..] == last.parts + ps;
    }
  }

  lemma GroupOneMessage(sessionId: Uuid, acc: seq<Message>, m: Message)
    requires m.sessionId == sessionId && (acc == [] || acc[|acc| - 1].id != m.id)
    ensures GroupFrom(sessionId, acc, MessageRows(m)) == acc + [m]
  {
    if m.parts == [] {
      StepStartsMessage(sessionId, acc, m, None);
      assert m.(parts := []) == m;
      assert GroupFrom(sessionId, acc, [RowOf(m, None)]) == GroupFrom(sessionId, acc + [m], []);
    } else {
      var first := acc + [m.(parts := [m.parts[0]])];
      StepStartsMessage(sessionId, acc, m, Some(m.parts[0]));
      assert GroupFrom(sessionId, acc, MessageRows(m)) == GroupFrom(sessionId, first, PartRows(m, m.parts[1..]));
      GroupPartsOnto(sessionId, first, m, m.parts[1..]);
      assert first[..|first| - 1] == acc;
      assert [m.parts[0]] + m.parts[1..] == m.parts;
    }
  }

  lemma TailKeeps(sessionId: Uuid, ms: seq<Message>)
    requires ms != [] && AllOfSession(ms, sessionId) && AdjacentDistinct(ms)
    ensures AllOfSession(ms[1..], sessionId) && AdjacentDistinct(ms[1..])
    ensures |ms| > 1 ==> ms[0].id != ms[1..][0].id
  {
    forall i | 0 <= i < |ms[1..]| - 1 ensures ms[1..][i].id != ms[1..][i + 1].id {
      assert ms[1..][i] == ms[i + 1] && ms[1..][i + 1] == ms[i + 2];
    }
  }

  lemma SplitFirst<T>(acc: seq<T>, ms: seq<T>)
    requires ms != []
    ensures acc + [ms[0]] + ms[1..] == acc + ms
  {
  }

  lemma GroupJoinStep(sessionId: Uuid, acc: seq<Message>, ms: seq<Message>)
    requires ms != [] && ms[0].sessionId == sessionId && (acc == [] || acc[|acc| - 1].id != ms[0].id)
    ensures GroupFrom(sessionId, acc, JoinRows(ms)) == GroupFrom(sessionId, acc + [ms[0]], JoinRows(ms[1..]))
  {
    GroupFromAppend(sessionId, acc, MessageRows(ms[0]), JoinRows(ms[1..]));
    GroupOneMessage(sessionId, acc, ms[0]);
  }

  lemma {:induction false} GroupJoinFrom(sessionId: Uuid, acc: seq<Message>, ms: seq<Message>)
    requires AllOfSession(ms, sessionId) && AdjacentDistinct(ms)
    requires acc == [] || ms == [] || acc[|acc| - 1].id != ms[0].id
    ensures GroupFrom(sessionId, acc, JoinRows(ms)) == acc + ms
    decreases |ms|
  {
    if ms != [] {
      TailKeeps(sessionId, ms);
      GroupJoinStep(sessionId, acc, ms);
      GroupJoinFrom(sessionId, acc + [ms[0]], ms[1..]);
      SplitFirst(acc, ms);
    }
  }

  /** Grouping undoes the join: messages with distinct neighbouring ids, joined with their
      parts and grouped again, come back as they were, each with its parts in order and a
      message without parts with none. */
  lemma GroupJoinRoundTrip(sessionId: Uuid, ms: seq<Message>)
    requires AllOfSession(ms, sessionId) && AdjacentDistinct(ms)
    ensures GroupRows(sessionId, JoinRows(ms)) == ms
  {
    GroupJoinFrom(sessionId, [], ms);
  }

  /** The number of messages a `LIMIT` keeps out of `n`: SQLite treats a negative limit as
      none. */
  function LimitCount(n: nat, limit: Option<int>): (r: nat)
    ensures r <= n
    ensures limit.None? ==> r == n
    ensures limit.Some? && 0 <= limit.value ==> r == if limit.value < n then limit.value else n
  {
    if limit.None? || limit.value < 0 then n else if limit.value < n then limit.value else n
  }

  /** The order of the listing: `created_at`, then id, as text. */
  predicate StrLt(a: string, b: string)
  {
    StrLe(a, b) && a != b
  }

  predicate ListedBefore(a: Message, b: Message)
  {
    StrLt(a.createdAt, b.createdAt) || (a.createdAt == b.createdAt && StrLt(a.id, b.id))
  }

  ghost function VisibleIds(t: MessageTables, sessionId: Uuid): set<string>
  {
    set k | k in t.messages && k.sessionId == sessionId && t.messages[k].removedAt.None? :: k.id
  }

  ghost function PartIds(t: MessageTables, sessionId: Uuid, messageId: string): set<string>
  {
    set k | k in t.parts && k.sessionId == sessionId && k.messageId == messageId :: k.id
  }

  /** `ps` are all of the message's stored parts, by ascending id. */
  ghost predicate PartsListed(t: MessageTables, sessionId: Uuid, messageId: string, ps: seq<MessagePart>)
  {
    (forall j :: 0 <= j < |ps| ==>
      ps[j].messageId == messageId && PartKey(sessionId, messageId, ps[j].id) in t.parts &&
      var row := t.parts[PartKey(sessionId, messageId, ps[j].id)];
      ps[j].partType == row.partType && ps[j].text == row.text && ps[j].toolJson == row.toolJson) &&
    (forall j :: 0 <= j < |ps| - 1 ==> StrLt(ps[j].id, ps[j + 1].id)) &&
    |ps| == |PartIds(t, sessionId, messageId)|
  }

  /** Whether the listed message `m` comes before the stored row `row` under key `k`. */
  predicate ListedBeforeRow(m: Message, k: MessageKey, row: MessageRow)
  {
    StrLt(m.createdAt, row.createdAt) || (m.createdAt == row.createdAt && StrLt(m.id, k.id))
  }

  /** No message of `ms` has id `id`. */
  predicate Unlisted(ms: seq<Message>, id: string)
  {
    forall i :: 0 <= i < |ms| ==> ms[i].id != id
  }

  /** What the listing query selects: the first `limit` visible messages of the session in
      listing order, each with its parts; every visible message left out comes after all the
      listed ones. */
  ghost predicate ListedBy(t: MessageTables, sessionId: Uuid, limit: Option<int>, ms: seq<Message>)
  {
    AllOfSession(ms, sessionId) &&
    (forall k :: k in t.messages && k.sessionId == sessionId && t.messages[k].removedAt.None? && Unlisted(ms, k.id) ==>
      forall i :: 0 <= i < |ms| ==> ListedBeforeRow(ms[i], k, t.messages[k])) &&
    (forall i :: 0 <= i < |ms| ==> Visible(t, sessionId, ms[i].id) && MatchesRow(ms[i], t.messages[MessageKey(sessionId, ms[i].id)])) &&
    (forall i :: 0 <= i < |ms| - 1 ==> ListedBefore(ms[i], ms[i + 1])) &&
    (forall i :: 0 <= i < |ms| ==> PartsListed(t, sessionId, ms[i].id, ms[i].parts)) &&
    |ms| == LimitCount(|VisibleIds(t, sessionId)|, limit)
  }

  /** The limit counts messages, not joined rows: grouping the query's rows gives back
      exactly the selected messages, however many parts each has. */
  lemma ListingGroupsBack(t: MessageTables, sessionId: Uuid, limit: Option<int>, ms: seq<Message>)
    requires ListedBy(t, sessionId, limit, ms)
    ensures GroupRows(sessionId, JoinRows(ms)) == ms
    ensures |GroupRows(sessionId, JoinRows(ms))| == LimitCount(|VisibleIds(t, sessionId)|, limit)
    ensures forall i :: 0 <= i < |ms| ==> Visible(t, sessionId, GroupRows(sessionId, JoinRows(ms))[i].id)
  {
    forall i | 0 <= i < |ms| - 1 ensures ms[i].id != ms[i + 1].id {
      var a, b := ms[i], ms[i + 1];
      assert ListedBefore(a, b);
      assert MatchesRow(a, t.messages[MessageKey(sessionId, a.id)]);
      assert MatchesRow(b, t.messages[MessageKey(sessionId, b.id)]);
    }
    GroupJoinRoundTrip(sessionId, ms);
  }

  // ---------------------------------------------------------------------------
  // The connection

  /** What a single statement does to the tables: nothing when the engine refuses it. */
  function Execute(t: MessageTables, after: MessageTables, refused: Option<DatabaseError>): (r: (MessageTables, Result<(), DatabaseError>))
    ensures r.1.Success? <==> refused.None?
    ensures r.0 == (if refused.None? then after else t)
  {
    match refused
    case None => (after, Success(()))
    case Some(e) => (t, Failure(e))
  }

  /** The message tables behind one SQLite connection. */
  class MessageDb {
    var tables: MessageTables

    constructor ()
      ensures tables == NoMessages
    {
      tables := NoMessages;
    }

    method UpsertMessage(m: Message, now: string, refused: Option<DatabaseError>) returns (r: Result<(), DatabaseError>)
      modifies this
      ensures (tables, r) == Execute(old(tables), UpsertMessageRow(old(tables), m, now), refused)
    {
      var (after, done) := Execute(tables, UpsertMessageRow(tables, m, now), refused);
      tables := after;
      r := done;
    }

    method EnsureMessageExists(sessionId: Uuid, id: string, now: string, refused: Option<DatabaseError>) returns (r: Result<(), DatabaseError>)
      modifies this
      ensures (tables, r) == Execute(old(tables), EnsureMessageRow(old(tables), sessionId, id, now), refused)
    {
      var (after, done) := Execute(tables, EnsureMessageRow(tables, sessionId, id, now), refused);
      tables := after;
      r := done;
    }

    method MarkMessageRemoved(sessionId: Uuid, id: string, now: string, refused: Option<DatabaseError>) returns (r: Result<(), DatabaseError>)
      modifies this
      ensures (tables, r) == Execute(old(tables), MarkRemovedRow(old(tables), sessionId, id, now), refused)
    {
      var (after, done) := Execute(tables, MarkRemovedRow(tables, sessionId, id, now), refused);
      tables := after;
      r := done;
    }

    method UpsertPart(sessionId: Uuid, part: MessagePart, delta: Option<string>, now: string, refused: Option<DatabaseError>)
      returns (r: Result<(), DatabaseError>)
      modifies this
      ensures (tables, r) == Execute(old(tables), UpsertPartRow(old(tables), sessionId, part, delta, now), refused)
    {
      var (after, done) := Execute(tables, UpsertPartRow(tables, sessionId, part, delta, now), refused);
      tables := after;
      r := done;
    }

    /** The batch: a refused statement stops it and `ROLLBACK` puts back the tables as they
        were at `BEGIN`; a refused `COMMIT` leaves the writes in place. */
    method UpsertMessageWithParts(m: Message, now: string, begin: Result<(), DatabaseError>, fault: Option<WriteFault>, commit: Result<(), DatabaseError>)
      returns (r: Result<(), DatabaseError>)
      modifies this
      ensures (tables, r) == UpsertWithParts(old(tables), m, now, begin, fault, commit)
    {
      if begin.Failure? {
        return Failure(begin.error);
      }
      var snapshot := tables;
      var failed := WriteRows(m, now, fault);
      if failed.Some? {
        tables := snapshot;
        return Failure(failed.value);
      }
      if commit.Failure? {
        return Failure(commit.error);
      }
      r := Success(());
    }

    /** The statements between `BEGIN` and `COMMIT`: the message row, then each part row,
        stopping at the first one the engine refuses. */
    method WriteRows(m: Message, now: string, fault: Option<WriteFault>) returns (failed: Option<DatabaseError>)
      modifies this
      ensures failed.None? <==> fault.None? || fault.value.index > |m.parts|
      ensures failed.Some? ==> failed.value == fault.value.error
      ensures failed.None? ==> tables == WriteMessage(old(tables), m, now)
    {
      failed := None;
      if fault.Some? && fault.value.index == 0 {
        failed := Some(fault.value.error);
        return;
      }
      tables := UpsertMessageRow(tables, m, now);
      var i := 0;
      while i < |m.parts| && failed.None?
        invariant 0 <= i <= |m.parts|
        decreases |m.parts| - i, if failed.None? then 1 else 0
        invariant failed.None? ==> tables == UpsertParts(UpsertMessageRow(old(tables), m, now), m.sessionId, m.parts[..i], now)
        invariant failed.None? ==> fault.None? || fault.value.index > i
        invariant failed.Some? ==> fault.Some? && fault.value.index <= |m.parts| && failed.value == fault.value.error
      {
        if fault.Some? && fault.value.index == i + 1 {
          failed := Some(fault.value.error);
        } else {
          assert m.parts[..i + 1][..i] == m.parts[..i];
          tables := UpsertPartRow(tables, m.sessionId, m.parts[i], None, now);
          i := i + 1;
        }
      }
      if failed.None? {
        assert m.parts[..i] == m.parts;
      }
    }

    /** `list_session_messages` over the rows the engine returns for its query (a failed
        query is its error). */
    method ListSessionMessages(sessionId: Uuid, fetched: Result<seq<JoinedRow>, DatabaseError>) returns (r: Result<seq<Message>, DatabaseError>)
      ensures fetched.Failure? ==> r == Failure(fetched.error)
      ensures fetched.Success? ==> r == Success(GroupRows(sessionId, fetched.value))
    {
      if fetched.Failure? {
        return Failure(fetched.error);
      }
      var rows := fetched.value;
      var messages: seq<Message> := [];
      var i := 0;
      while i < |rows|
        invariant 0 <= i <= |rows|
        invariant GroupFrom(sessionId, messages, rows[i..]) == GroupRows(sessionId, rows)
      {
        assert rows[i..][1..] == rows[i + 1..];
        messages := AddRow(sessionId, messages, rows[i]);
        i := i + 1;
      }
      r := Success(messages);
    }

    /** One joined row of the listing: a new message id starts a message from the row's
        header, and the row's part, when it has one, goes to the last message. */
    method AddRow(sessionId: Uuid, messages: seq<Message>, row: JoinedRow) returns (next: seq<Message>)
      ensures next == GroupStep(sessionId, messages, row)
    {
      next := messages;
      if next == [] || next[|next| - 1].id != row.id {
        next := next + [HeaderOf(sessionId, row)];
      }
      var part := PartFromRow(row);
      if part.Some? {
        var last := next[|next| - 1];
        next := next[..|next| - 1] + [last.(parts := last.parts + [part.value])];
      }
    }
  }
}
