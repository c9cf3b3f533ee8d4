/**
 Catalog's persistence adapter: the five tables, and every transaction that the
 service runs over them
 (services/catalog-service/repository/postgres_book_repository.go).

 A transaction is one atomic step, as the row locks make it. Each is given twice:
 as a function from database to database, about which CatalogRuns and Outbox
 prove what all runs keep, and as a method that works through the tables in the
 order of the source and is proved to do what the function says.
 */
module Catalog {
  import opened Prelude
  import opened Domain

  /** Outbox keys. Generated identifiers are random; the key of a final deletion
      event is a digest of four values, modelled as injective. */
  datatype EventId = Generated(key: Id) | FinalDeletion(book: Id, command: Id, lifecycle: nat, version: nat)

  datatype StatusEvent = StatusEvent(
    id: EventId, book: Id, status: Status, stage: Stage, failure: Failure, detail: string,
    version: nat, lifecycle: nat, canReindex: bool, updatedAt: Time)

  datatype Payload =
    | Uploaded(content: Option<Content>, lifecycle: nat)
    | StatusChanged(event: StatusEvent)
    | ReindexRequested(command: Id, lifecycle: nat, manifestRef: Id, manifestDigest: nat)
    | DeletionRequested(command: Id, lifecycle: nat)

  datatype OutboxRow = OutboxRow(
    book: Id, sequence: nat, payload: Payload, occurredAt: Time,
    nextAttemptAt: Time, leasedUntil: Option<Time>, publishedAt: Option<Time>, attempts: nat)

  datatype EventType = ProcessingStartedV1 | ChunksReadyV1 | ProcessingFailedV1 | IndexedV1 | IndexingFailedV1

  datatype ProcessingEvent = ProcessingEvent(
    id: Id, eventType: EventType, book: Id, source: nat, digest: nat,
    lifecycle: nat, manifestRef: Id, manifestDigest: nat, fact: Fact)

  datatype CommandKind = ReindexCommand | DeleteCommand | OtherCommand

  datatype Command = Command(
    kind: CommandKind, book: Id, id: Id, actor: Id, requestId: EventId, statusId: EventId, occurredAt: Time)

  datatype AckType = ArtifactsDeletedV1 | IndexDeletedV1 | OtherAck

  datatype Ack = Ack(id: Id, ackType: AckType, book: Id, command: Id, lifecycle: nat, digest: nat)

  datatype Receipt<T> = Receipt(kind: T, digest: nat)

  datatype CommandRow = CommandRow(book: Id, kind: CommandKind, lifecycle: nat, actor: Option<Id>)

  datatype Db = Db(
    books: map<Id, Row>,
    inbox: map<Id, Receipt<EventType>>,
    acks: map<Id, Receipt<AckType>>,
    commands: map<Id, CommandRow>,
    outbox: map<EventId, OutboxRow>)

  datatype CatalogError =
    | NotFound | EventConflict | InvalidCommand | InvalidEvent | NoEvents | DatabaseError
    | DomainFailure(error: DomainError)

  datatype Tx = Committed(db: Db, changed: bool) | RolledBack(error: CatalogError)

  // ---------------------------------------------------------------------
  // The outbox table

  function SequencesOf(outbox: map<EventId, OutboxRow>, book: Id): set<nat> {
    set id | id in outbox && outbox[id].book == book :: outbox[id].sequence
  }

  ghost function Largest(s: set<nat>): (m: nat)
    requires s != {}
    ensures m in s && forall x :: x in s ==> x <= m
    decreases |s|
  {
    var x :| x in s;
    if s == {x} then x
    else
      var m := Largest(s - {x});
      assert forall y :: y in s ==> y == x || y in s - {x};
      if m < x then x else m
  }

  /** COALESCE(MAX(sequence), -1) + 1 over the rows of one book. */
  ghost function NextSequence(outbox: map<EventId, OutboxRow>, book: Id): (n: nat)
    ensures forall id :: id in outbox && outbox[id].book == book ==> outbox[id].sequence < n
    ensures n == 0 || exists id :: id in outbox && outbox[id].book == book && outbox[id].sequence == n - 1
  {
    var s := SequencesOf(outbox, book);
    if s == {} then
      assert forall id :: id in outbox && outbox[id].book == book ==> outbox[id].sequence in s;
      0
    else
      assert forall id :: id in outbox && outbox[id].book == book ==> outbox[id].sequence in s;
      Largest(s) + 1
  }

  function FreshRow(book: Id, sequence: nat, payload: Payload, at: Time): OutboxRow {
    OutboxRow(book, sequence, payload, at, at, None, None, 0)
  }

  function StatusOf(id: EventId, book: Id, row: Row): StatusEvent {
    StatusEvent(id, book, row.status, row.stage, row.failure, row.detail,
                row.version, row.lifecycle, CanReindex(row), row.updatedAt)
  }

  // ---------------------------------------------------------------------
  // Upload

  datatype NewEvent = NewEvent(id: EventId, sequence: nat, payload: Payload, occurredAt: Time)

  /** Inserts the rows one by one under the primary key and the unique
      (aggregate, sequence) index; None when either is violated. */
  function InsertAll(outbox: map<EventId, OutboxRow>, book: Id, events: seq<NewEvent>): Option<map<EventId, OutboxRow>>
    decreases |events|
  {
    if events == [] then Some(outbox)
    else
      var e := events[0];
      if e.id in outbox || e.sequence in SequencesOf(outbox, book) then None
      else InsertAll(outbox[e.id := FreshRow(book, e.sequence, e.payload, e.occurredAt)], book, events[1..])
  }

  function Create(db: Db, book: Id, row: Row, events: seq<NewEvent>): Tx {
    if events == [] then RolledBack(NoEvents)
    else if book in db.books then RolledBack(DatabaseError)
    else
      var inserted := InsertAll(db.outbox, book, events);
      if inserted.None? then RolledBack(DatabaseError)
      else Committed(db.(books := db.books[book := row], outbox := inserted.value), true)
  }

  function UploadedRow(content: Content, now: Time): Row {
    Row(Some(content), now, Pending, QueuedStage, NoFailure, "", now, 1, 1, 0, 0, 0, false, false, false)
  }

  /** The two rows with which the upload use case creates a book. */
  function UploadEvents(book: Id, row: Row, uploadedId: EventId, statusId: EventId, now: Time): seq<NewEvent> {
    [NewEvent(uploadedId, 0, Uploaded(row.content, row.lifecycle), now),
     NewEvent(statusId, row.version, StatusChanged(StatusOf(statusId, book, row)), now)]
  }

  // ---------------------------------------------------------------------
  // Facts

  function WithManifest(b: Row, e: ProcessingEvent): Row {
    if e.fact.kind.ChunksReadyFact? then b.(manifestRef := e.manifestRef, manifestDigest := e.manifestDigest) else b
  }

  /** An empty reference is written as NULL together with its digest. */
  function StoredManifest(b: Row): Row {
    if b.manifestRef == 0 then b.(manifestDigest := 0) else b
  }

  /** The answer to an event that is a redelivery, or that names no live book of
      its own content and lifecycle version; None when the fact must be judged. */
  function Screened(db: Db, e: ProcessingEvent): Option<Tx> {
    if e.id in db.inbox then
      Some(if db.inbox[e.id] == Receipt(e.eventType, e.digest) then Committed(db, false) else RolledBack(EventConflict))
    else if e.book !in db.books || db.books[e.book].status.Deleted? then Some(RolledBack(NotFound))
    else if db.books[e.book].content.None? then Some(RolledBack(DatabaseError))
    else if db.books[e.book].content.value.checksum != e.source then Some(RolledBack(EventConflict))
    else if db.books[e.book].lifecycle != e.lifecycle then Some(RolledBack(EventConflict))
    else None
  }

  ghost function ApplyEvent(db: Db, e: ProcessingEvent, statusId: EventId, now: Time): Tx {
    var screened := Screened(db, e);
    if screened.Some? then screened.value else ApplyScreened(db, e, statusId, now)
  }

  ghost function ApplyScreened(db: Db, e: ProcessingEvent, statusId: EventId, now: Time): Tx
    requires e.book in db.books
  {
    var b := db.books[e.book];
    var received := db.(inbox := db.inbox[e.id := Receipt(e.eventType, e.digest)]);
    match Judge(b, e.fact)
    case Rejected(error) => RolledBack(DomainFailure(error))
    case Absorbed =>
      if !e.fact.kind.ChunksReadyFact? then Committed(received, false)
      else if e.manifestRef == 0 then RolledBack(DatabaseError)
      else Committed(received.(books := db.books[e.book := WithManifest(b, e)]), false)
    case Accepted(row) =>
      var after := WithManifest(row, e);
      if statusId in db.outbox then RolledBack(DatabaseError)
      else Committed(received.(
        books := db.books[e.book := StoredManifest(after)],
        outbox := db.outbox[statusId := FreshRow(e.book, NextSequence(db.outbox, e.book),
                                                 StatusChanged(StatusOf(statusId, e.book, after)), now)]), true)
  }

  // ---------------------------------------------------------------------
  // Lifecycle commands

  function Commanded(b: Row, c: Command): Result<Row, CatalogError> {
    var next := b.(lifecycle := b.lifecycle + 1, version := b.version + 1, updatedAt := c.occurredAt,
        commandId := c.id);
    match c.kind
    case ReindexCommand =>
      if !CanReindex(b) then Err(DomainFailure(InvalidTransition))
      else Ok(next.(status := Reindexing, stage := ChunksReadyStage, failure := NoFailure))
    case DeleteCommand =>
      if !ValidTransition(b.status, Deleting) then Err(DomainFailure(InvalidTransition))
      else Ok(next.(status := Deleting, originalDeleted := false, artifactsDeleted := false, indexDeleted := false))
    case OtherCommand => Err(InvalidCommand)
  }

  function RequestOf(c: Command, row: Row): Payload {
    if c.kind.ReindexCommand? then ReindexRequested(c.id, row.lifecycle, row.manifestRef, row.manifestDigest)
    else DeletionRequested(c.id, row.lifecycle)
  }

  /** The UNIQUE (book_id, lifecycle_version) index. */
  predicate GenerationTaken(commands: map<Id, CommandRow>, book: Id, lifecycle: nat) {
    exists c :: c in commands && commands[c].book == book && commands[c].lifecycle == lifecycle
  }

  ghost function ApplyCommand(db: Db, c: Command): Tx {
    if c.book !in db.books then RolledBack(NotFound)
    else if c.id in db.commands then
      if db.commands[c.id].book != c.book || db.commands[c.id].kind != c.kind then RolledBack(InvalidCommand)
      else if db.commands[c.id].lifecycle != db.books[c.book].lifecycle then RolledBack(EventConflict)
      else Committed(db, false)
    else if db.books[c.book].status.Deleted? then RolledBack(NotFound)
    else match Commanded(db.books[c.book], c)
      case Err(error) => RolledBack(error)
      case Ok(row) => Accept(db, c, row)
  }

  ghost function Accept(db: Db, c: Command, row: Row): Tx {
    if GenerationTaken(db.commands, c.book, row.lifecycle) then RolledBack(DatabaseError)
    else if c.requestId in db.outbox || c.statusId in db.outbox || c.requestId == c.statusId
        then RolledBack(DatabaseError)
    else
      var n := NextSequence(db.outbox, c.book);
      Committed(db.(
        books := db.books[c.book := row],
        commands := db.commands[c.id := CommandRow(c.book, c.kind, row.lifecycle, Some(c.actor))],
        outbox := db.outbox[c.requestId := FreshRow(c.book, n, RequestOf(c, row), c.occurredAt)]
                           [c.statusId := FreshRow(c.book, n + 1, StatusChanged(StatusOf(c.statusId, c.book, row)),
                               c.occurredAt)]),
        true)
  }

  // ---------------------------------------------------------------------
  // Deletion acknowledgements

  function Tombstone(b: Row, now: Time): Row {
    Row(None, b.createdAt, Deleted, NoStage, NoFailure, "", now, b.version + 1, b.lifecycle, 0, 0, b.commandId,
        b.originalDeleted, b.artifactsDeleted, b.indexDeleted)
  }

  function WithoutActors(commands: map<Id, CommandRow>, book: Id): map<Id, CommandRow> {
    map c | c in commands :: if commands[c].book == book then commands[c].(actor := None) else commands[c]
  }

  function WithoutBook(outbox: map<EventId, OutboxRow>, book: Id): map<EventId, OutboxRow> {
    map id | id in outbox && outbox[id].book != book :: outbox[id]
  }

  function FinalId(book: Id, row: Row): EventId {
    FinalDeletion(book, row.commandId, row.lifecycle, row.version)
  }

  /** `b` already carries the three flags. */
  function Finalize(db: Db, book: Id, b: Row, now: Time): Tx {
    if b.commandId !in db.commands then RolledBack(DatabaseError)
    else
      var row := Tombstone(b, now);
      var id := FinalId(book, row);
      var kept := WithoutBook(db.outbox, book);
      if id in kept then RolledBack(DatabaseError)
      else Committed(db.(
        books := db.books[book := row],
        commands := WithoutActors(db.commands, book),
        outbox := kept[id := FreshRow(book, 0, StatusChanged(StatusOf(id, book, row)), now)]), true)
  }

  predicate AcceptsAck(b: Row, command: Id, lifecycle: nat) {
    b.commandId == command && b.lifecycle == lifecycle && (b.status.Deleting? || b.status.Deleted?)
  }

  function MarkOriginal(db: Db, book: Id, command: Id, lifecycle: nat, now: Time): Tx {
    if book !in db.books then RolledBack(DatabaseError)
    else
      var b := db.books[book];
      if !AcceptsAck(b, command, lifecycle) then RolledBack(EventConflict)
      else if b.originalDeleted then Committed(db, false)
      else
        var marked := b.(originalDeleted := true);
        if b.artifactsDeleted && b.indexDeleted then Finalize(db, book, marked, now)
        else Committed(db.(books := db.books[book := marked]), true)
  }

  function Acknowledged(b: Row, t: AckType): Row {
    match t
    case ArtifactsDeletedV1 => b.(artifactsDeleted := true)
    case IndexDeletedV1 => b.(indexDeleted := true)
    case OtherAck => b
  }

  function ApplyAck(db: Db, a: Ack, now: Time): Tx {
    if a.id in db.acks then
      if db.acks[a.id] == Receipt(a.ackType, a.digest) then Committed(db, false) else RolledBack(EventConflict)
    else if a.ackType.OtherAck? || a.book !in db.books then RolledBack(DatabaseError)
    else
      var b := db.books[a.book];
      if !AcceptsAck(b, a.command, a.lifecycle) then RolledBack(EventConflict)
      else
        var received := db.(acks := db.acks[a.id := Receipt(a.ackType, a.digest)]);
        var acked := Acknowledged(b, a.ackType);
        if acked == b then Committed(received, false)
        else if acked.originalDeleted && acked.artifactsDeleted && acked.indexDeleted
            then Finalize(received, a.book, acked, now)
        else Committed(received.(books := db.books[a.book := acked]), true)
  }

  // ---------------------------------------------------------------------
  // Leases

  /** The head of its book's unpublished rows, due, and not leased. */
  predicate Claimable(outbox: map<EventId, OutboxRow>, id: EventId, now: Time)
    ensures Claimable(outbox, id, now) ==> id in outbox
  {
    id in outbox &&
    var row := outbox[id];
    && row.publishedAt.None? && row.nextAttemptAt <= now
    && (row.leasedUntil.None? || row.leasedUntil.value <= now)
    && forall p :: p in outbox && outbox[p].book == row.book && outbox[p].publishedAt.None?
         ==> row.sequence <= outbox[p].sequence
  }

  function Leased(outbox: map<EventId, OutboxRow>, ids: set<EventId>, until: Time): map<EventId, OutboxRow> {
    map id | id in outbox :: if id in ids then outbox[id].(leasedUntil := Some(until)) else outbox[id]
  }

  /** ORDER BY next_attempt_at, occurred_at, sequence; ties go to either row. */
  predicate ClaimedBefore(a: OutboxRow, b: OutboxRow) {
    || a.nextAttemptAt < b.nextAttemptAt
    || (a.nextAttemptAt == b.nextAttemptAt && a.occurredAt < b.occurredAt)
    || (a.nextAttemptAt == b.nextAttemptAt && a.occurredAt == b.occurredAt && a.sequence < b.sequence)
  }

  predicate Distinct<T(==)>(s: seq<T>) {
    forall i, j :: 0 <= i < j < |s| ==> s[i] != s[j]
  }

  const BATCH: nat := 32

  /** What one claim may return: distinct claimable rows, at most a batch. */
  predicate ValidClaim(outbox: map<EventId, OutboxRow>, now: Time, claimed: seq<EventId>) {
    |claimed| <= BATCH && Distinct(claimed) && forall i :: 0 <= i < |claimed| ==> Claimable(outbox, claimed[i], now)
  }

  function Published(outbox: map<EventId, OutboxRow>, id: EventId, now: Time): map<EventId, OutboxRow> {
    if id in outbox then outbox[id := outbox[id].(publishedAt := Some(now), leasedUntil := None)] else outbox
  }

  function Retried(outbox: map<EventId, OutboxRow>, id: EventId, at: Time): map<EventId, OutboxRow> {
    if id in outbox
    then outbox[id := outbox[id].(attempts := outbox[id].attempts + 1, nextAttemptAt := at, leasedUntil := None)]
    else outbox
  }
}
