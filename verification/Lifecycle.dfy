/**
 What every run of Catalog's transactions keeps: the shape of each book, its
 ledger of status events, and the deletion quorum. Redelivered, reordered and
 refused inputs are all steps of a run; so is anything the outbox workers do to
 the lease columns.
 */
module Lifecycle {
  import opened Prelude
  import opened Domain
  import opened Catalog

  datatype Step =
    | Upload(book: Id, content: Content, uploadedId: EventId, statusId: EventId, now: Time)
    | Report(event: ProcessingEvent, eventStatusId: EventId, at: Time)
    | Direct(command: Command)
    | OriginalGone(gone: Id, cause: Id, generation: nat, markedAt: Time)
    | AckArrives(ack: Ack, ackedAt: Time)
    | Deliver(outbox: map<EventId, OutboxRow>)

  /** A status event as committed, with its place in the outbox. */
  datatype Entry = Entry(event: StatusEvent, sequence: nat)

  /** A fact that changed a book. */
  datatype Change = Change(event: Id, book: Id, version: nat)

  /** The tables, with the status events ever committed for each book and the
      facts that ever changed one. */
  datatype History = History(db: Db, ledger: map<Id, seq<Entry>>, changes: seq<Change>)

  const BLANK: History := History(Db(map[], map[], map[], map[], map[]), map[], [])

  ghost function TxOf(db: Db, s: Step): Tx {
    match s
    case Upload(book, content, uploadedId, statusId, now) =>
      var row := UploadedRow(content, now);
      Create(db, book, row, UploadEvents(book, row, uploadedId, statusId, now))
    case Report(e, statusId, at) => ApplyEvent(db, e, statusId, at)
    case Direct(c) => ApplyCommand(db, c)
    case OriginalGone(book, command, lifecycle, now) => MarkOriginal(db, book, command, lifecycle, now)
    case AckArrives(a, now) => ApplyAck(db, a, now)
    case Deliver(outbox) => Committed(db.(outbox := outbox), false)
  }

  function BookOf(s: Step): Id {
    match s
    case Upload(book, _, _, _, _) => book
    case Report(e, _, _) => e.book
    case Direct(c) => c.book
    case OriginalGone(book, _, _, _) => book
    case AckArrives(a, _) => a.book
    case Deliver(_) => 0
  }

  /** The outbox key under which the step records a status event, if it does. */
  function StatusKey(s: Step, after: Db): Option<EventId> {
    match s
    case Upload(_, _, _, statusId, _) => Some(statusId)
    case Report(_, statusId, _) => Some(statusId)
    case Direct(c) => Some(c.statusId)
    case Deliver(_) => None
    case _ =>
      if BookOf(s) in after.books && after.books[BookOf(s)].status.Deleted?
      then Some(FinalId(BookOf(s), after.books[BookOf(s)])) else None
  }

  function LedgerOf(h: History, book: Id): seq<Entry> {
    if book in h.ledger then h.ledger[book] else []
  }

  function Recorded(h: History, s: Step, after: Db): History {
    var key := StatusKey(s, after);
    var ledger :=
      if key.Some? && key.value in after.outbox && after.outbox[key.value].payload.StatusChanged? then
        var row := after.outbox[key.value];
        h.ledger[BookOf(s) := LedgerOf(h, BookOf(s)) + [Entry(row.payload.event, row.sequence)]]
      else h.ledger;
    var changes :=
      if s.Report? && BookOf(s) in after.books
          then h.changes + [Change(s.event.id, s.event.book, after.books[BookOf(s)].version)]
      else h.changes;
    History(after, ledger, changes)
  }

  /** A refused transaction changes nothing; one that reports no change records nothing. */
  ghost function Next(h: History, s: Step): History {
    match TxOf(h.db, s)
    case RolledBack(_) => h
    case Committed(after, changed) => if changed then Recorded(h, s, after) else h.(db := after)
  }

  /** Lease and retry columns may differ; nothing else does. */
  predicate SameRow(a: OutboxRow, b: OutboxRow) {
    a.book == b.book && a.sequence == b.sequence && a.payload == b.payload && a.occurredAt == b.occurredAt
  }

  predicate SameRows(a: map<EventId, OutboxRow>, b: map<EventId, OutboxRow>) {
    a.Keys == b.Keys && forall id :: id in a ==> SameRow(a[id], b[id])
  }

  /** Workers touch no column but those of the lease, and keys are generated. */
  predicate Possible(h: History, s: Step) {
    match s
    case Upload(_, _, uploadedId, statusId, _) => uploadedId.Generated? && statusId.Generated?
    case Report(_, statusId, _) => statusId.Generated?
    case Direct(c) => c.requestId.Generated? && c.statusId.Generated?
    case Deliver(outbox) => SameRows(h.db.outbox, outbox)
    case _ => true
  }

  ghost predicate Run(h: History, steps: seq<Step>)
    decreases |steps|
  {
    steps == [] || (Possible(h, steps[0]) && Run(Next(h, steps[0]), steps[1..]))
  }

  ghost function After(h: History, steps: seq<Step>): History
    decreases |steps|
  {
    if steps == [] then h else After(Next(h, steps[0]), steps[1..])
  }

  // ---------------------------------------------------------------------
  // The invariant, book by book

  predicate AllGone(r: Row) {
    r.originalDeleted && r.artifactsDeleted && r.indexDeleted
  }

  predicate RowOk(r: Row) {
    && Shaped(r)
    && 1 <= r.version && 1 <= r.lifecycle
    && (r.content.None? <==> r.status.Deleted?)
    && (r.status.Deleted? <==> AllGone(r))
    && (r.originalDeleted || r.artifactsDeleted || r.indexDeleted ==> r.status.Deleting? || r.status.Deleted?)
  }

  /** The event shows what the row shows, but for whether the book can be
      reindexed, which can move without an event (see Reindexability). */
  predicate Projects(e: StatusEvent, r: Row) {
    && e.status == r.status && e.stage == r.stage && e.failure == r.failure && e.detail == r.detail
    && e.version == r.version && e.lifecycle == r.lifecycle && e.updatedAt == r.updatedAt
  }

  predicate LedgerOk(book: Id, r: Row, ledger: seq<Entry>) {
    && |ledger| == r.version && 1 <= |ledger|
    && Projects(ledger[|ledger| - 1].event, r)
    && forall i :: 0 <= i < |ledger| ==>
         && ledger[i].event.version == i + 1
         && ledger[i].event.book == book
         && Shape(ledger[i].event.status, ledger[i].event.stage, ledger[i].event.failure, ledger[i].event.detail)
         && (ledger[i].event.status.Deleted? ==> i == |ledger| - 1)
  }

  predicate Stored(outbox: map<EventId, OutboxRow>, book: Id, entry: Entry) {
    && entry.event.id in outbox
    && outbox[entry.event.id].book == book
    && outbox[entry.event.id].sequence == entry.sequence
    && outbox[entry.event.id].payload == StatusChanged(entry.event)
  }

  /** Every status row shows the ledger entry of its version. */
  predicate Traced(book: Id, r: Row, ledger: seq<Entry>, outbox: map<EventId, OutboxRow>) {
    forall id :: id in outbox && outbox[id].book == book ==>
      && (id.FinalDeletion? ==> r.status.Deleted?)
      && (outbox[id].payload.StatusChanged? ==>
            var e := outbox[id].payload.event;
            e.id == id && 1 <= e.version <= |ledger| && ledger[e.version - 1].event == e)
  }

  /** The rows of a live book hold its whole ledger, in outbox order. */
  predicate LiveRows(book: Id, ledger: seq<Entry>, outbox: map<EventId, OutboxRow>) {
    && (forall i :: 0 <= i < |ledger| ==> Stored(outbox, book, ledger[i]))
    && (forall i, j :: 0 <= i < j < |ledger| ==> ledger[i].sequence < ledger[j].sequence)
  }

  /** A deleted book has one row: its last ledger entry. */
  predicate LastRow(book: Id, ledger: seq<Entry>, outbox: map<EventId, OutboxRow>)
    requires 1 <= |ledger|
  {
    && Stored(outbox, book, ledger[|ledger| - 1])
    && forall id :: id in outbox && outbox[id].book == book ==> id == ledger[|ledger| - 1].event.id
  }

  predicate OutboxOk(book: Id, r: Row, ledger: seq<Entry>, outbox: map<EventId, OutboxRow>)
    requires 1 <= |ledger|
  {
    && Traced(book, r, ledger, outbox)
    && if r.status.Deleted? then LastRow(book, ledger, outbox) else LiveRows(book, ledger, outbox)
  }

  predicate CommandsOk(book: Id, r: Row, commands: map<Id, CommandRow>) {
    && (forall c :: c in commands && commands[c].book == book ==> commands[c].lifecycle <= r.lifecycle)
    && (r.status.Deleting? || r.status.Deleted? ==>
          r.commandId in commands && commands[r.commandId].book == book
          && commands[r.commandId].kind.DeleteCommand? && commands[r.commandId].lifecycle == r.lifecycle)
    && (r.status.Deleted? ==> forall c :: c in commands && commands[c].book == book ==> commands[c].actor.None?)
  }

  ghost predicate BookOk(h: History, book: Id) {
    book in h.db.books && book in h.ledger &&
    var r := h.db.books[book];
    && RowOk(r)
    && LedgerOk(book, r, h.ledger[book])
    && OutboxOk(book, r, h.ledger[book], h.db.outbox)
    && CommandsOk(book, r, h.db.commands)
  }

  ghost predicate TablesOk(h: History) {
    && h.ledger.Keys == h.db.books.Keys
    && (forall id :: id in h.db.outbox ==> h.db.outbox[id].book in h.db.books)
    && (forall id :: id in h.db.outbox && id.FinalDeletion? ==> h.db.outbox[id].book == id.book)
    && (forall c :: c in h.db.commands ==> h.db.commands[c].book in h.db.books)
  }

  ghost predicate ChangesOk(h: History) {
    && (forall i :: 0 <= i < |h.changes| ==> h.changes[i].event in h.db.inbox)
    && (forall i, j :: 0 <= i < j < |h.changes| ==> h.changes[i].event != h.changes[j].event)
  }

  ghost predicate Inv(h: History) {
    TablesOk(h) && ChangesOk(h) && forall book :: book in h.db.books ==> BookOk(h, book)
  }

  // ---------------------------------------------------------------------
  // Steps leave the books they do not name alone

  predicate SameRowsOf(book: Id, a: map<EventId, OutboxRow>, b: map<EventId, OutboxRow>) {
    && (forall id :: id in a && a[id].book == book ==> id in b && SameRow(a[id], b[id]))
    && (forall id :: id in b && b[id].book == book ==> id in a && SameRow(a[id], b[id]))
  }

  predicate SameCommandsOf(book: Id, a: map<Id, CommandRow>, b: map<Id, CommandRow>) {
    && (forall c :: c in a && a[c].book == book ==> c in b && a[c] == b[c])
    && (forall c :: c in b && b[c].book == book ==> c in a && a[c] == b[c])
  }

  predicate Apart(h: History, next: History, book: Id) {
    && book in h.db.books && book in next.db.books && next.db.books[book] == h.db.books[book]
    && book in h.ledger && book in next.ledger && next.ledger[book] == h.ledger[book]
    && SameRowsOf(book, h.db.outbox, next.db.outbox)
    && SameCommandsOf(book, h.db.commands, next.db.commands)
  }

  lemma OutboxFrame(book: Id, r: Row, ledger: seq<Entry>, a: map<EventId, OutboxRow>, b: map<EventId, OutboxRow>)
    requires 1 <= |ledger| && OutboxOk(book, r, ledger, a) && SameRowsOf(book, a, b)
    ensures OutboxOk(book, r, ledger, b)
  {
    assert forall e: Entry :: Stored(a, book, e) ==> Stored(b, book, e);
  }

  lemma ApartStaysOk(h: History, next: History, book: Id)
    requires BookOk(h, book) && Apart(h, next, book)
    ensures BookOk(next, book)
  {
    hide Shape, OutboxOk;
    OutboxFrame(book, h.db.books[book], h.ledger[book], h.db.outbox, next.db.outbox);
  }

  // ---------------------------------------------------------------------
  // What a step does to the book it names

  /** New rows belong to `book`, stand behind its rows, and hold one status entry. */
  predicate Appends(book: Id, a: map<EventId, OutboxRow>, b: map<EventId, OutboxRow>, entry: Entry) {
    && Stored(b, book, entry)
    && (forall id :: id in a ==> id in b && b[id] == a[id] && (a[id].book == book ==> a[id].sequence < entry.sequence))
    && (forall id :: id in b && id !in a ==>
          b[id].book == book && id.Generated? && (b[id].payload.StatusChanged? ==> id == entry.event.id))
  }

  lemma AppendedOk(book: Id, r: Row, r': Row, ledger: seq<Entry>, entry: Entry,
                   a: map<EventId, OutboxRow>, b: map<EventId, OutboxRow>)
    requires LedgerOk(book, r, ledger) && OutboxOk(book, r, ledger, a) && !r.status.Deleted?
    requires Shaped(r') && !r'.status.Deleted? && r'.version == r.version + 1
    requires Projects(entry.event, r') && entry.event.book == book && Appends(book, a, b, entry)
    ensures LedgerOk(book, r', ledger + [entry]) && OutboxOk(book, r', ledger + [entry], b)
  {
    AppendedLedger(book, r, r', ledger, entry);
    hide LedgerOk;
    assert |ledger| == r.version by { AppendedSizes(book, r, ledger); }
    AppendedRows(book, ledger, entry, a, b);
    AppendedTrace(book, r, r', ledger, entry, a, b);
  }

  lemma AppendedSizes(book: Id, r: Row, ledger: seq<Entry>)
    requires LedgerOk(book, r, ledger)
    ensures |ledger| == r.version >= 1
  {
  }

  lemma AppendedLedger(book: Id, r: Row, r': Row, ledger: seq<Entry>, entry: Entry)
    requires LedgerOk(book, r, ledger) && !r.status.Deleted?
    requires Shaped(r') && r'.version == r.version + 1 && Projects(entry.event, r') && entry.event.book == book
    ensures LedgerOk(book, r', ledger + [entry])
  {
    hide Shape;
    var grown := ledger + [entry];
    assert ledger[|ledger| - 1].event.status == r.status;
    assert forall i :: 0 <= i < |ledger| ==> grown[i] == ledger[i] && !ledger[i].event.status.Deleted?;
  }

  lemma AppendedRows(book: Id, ledger: seq<Entry>, entry: Entry, a: map<EventId, OutboxRow>, b: map<EventId, OutboxRow>)
    requires LiveRows(book, ledger, a) && Appends(book, a, b, entry)
    ensures LiveRows(book, ledger + [entry], b)
  {
    forall i | 0 <= i < |ledger| ensures Stored(b, book, ledger[i]) && ledger[i].sequence < entry.sequence {
      assert Stored(a, book, ledger[i]);
    }
  }

  lemma AppendedTrace(book: Id, r: Row, r': Row, ledger: seq<Entry>, entry: Entry,
                      a: map<EventId, OutboxRow>, b: map<EventId, OutboxRow>)
    requires Traced(book, r, ledger, a) && !r.status.Deleted?
    requires entry.event.version == |ledger| + 1 && Appends(book, a, b, entry)
    ensures Traced(book, r', ledger + [entry], b)
  {
    forall id | id in b && b[id].book == book && b[id].payload.StatusChanged?
      ensures var e := b[id].payload.event;
              e.id == id && 1 <= e.version <= |ledger| + 1 && (ledger + [entry])[e.version - 1].event == e
    {
      if id in a {
        assert ledger[b[id].payload.event.version - 1].event == b[id].payload.event;
      }
    }
  }

  /** A live book becomes a tombstone with a single row. */
  lemma ErasedOk(book: Id, r: Row, r': Row, ledger: seq<Entry>, entry: Entry, b: map<EventId, OutboxRow>)
    requires LedgerOk(book, r, ledger) && !r.status.Deleted?
    requires Shaped(r') && r'.status.Deleted? && r'.version == r.version + 1
    requires Projects(entry.event, r') && entry.event.book == book && Stored(b, book, entry)
    requires forall id :: id in b && b[id].book == book ==> id == entry.event.id
    ensures LedgerOk(book, r', ledger + [entry]) && OutboxOk(book, r', ledger + [entry], b)
  {
    hide Shape;
    var grown := ledger + [entry];
    assert forall i :: 0 <= i < |ledger| ==> grown[i] == ledger[i];
    assert LedgerOk(book, r', grown) by {
      forall i | 0 <= i < |ledger| ensures !ledger[i].event.status.Deleted? {
        assert ledger[|ledger| - 1].event.status == r.status;
      }
    }
  }

  function OtherCommands(commands: map<Id, CommandRow>, book: Id): map<Id, CommandRow> {
    map c | c in commands && commands[c].book != book :: commands[c]
  }

  /** Every other book, its rows and its commands are the same in both. */
  predicate OnlyTouches(book: Id, a: Db, b: Db) {
    && b.books.Keys == a.books.Keys + {book}
    && a.books - {book} == b.books - {book}
    && WithoutBook(a.outbox, book) == WithoutBook(b.outbox, book)
    && OtherCommands(a.commands, book) == OtherCommands(b.commands, book)
  }

  lemma OthersApart(h: History, next: History, book: Id, other: Id)
    requires other in h.db.books && other in h.ledger && other != book && OnlyTouches(book, h.db, next.db)
    requires other in next.ledger && next.ledger[other] == h.ledger[other]
    ensures Apart(h, next, other)
  {
    assert next.db.books[other] == (next.db.books - {book})[other] == (h.db.books - {book})[other];
    assert SameRowsOf(other, h.db.outbox, next.db.outbox) by {
      forall id | id in h.db.outbox && h.db.outbox[id].book == other
        ensures id in next.db.outbox && next.db.outbox[id] == h.db.outbox[id]
      {
        assert id in WithoutBook(h.db.outbox, book);
      }
      forall id | id in next.db.outbox && next.db.outbox[id].book == other
        ensures id in h.db.outbox && next.db.outbox[id] == h.db.outbox[id]
      {
        assert id in WithoutBook(next.db.outbox, book);
      }
    }
    assert SameCommandsOf(other, h.db.commands, next.db.commands) by {
      forall c | c in h.db.commands && h.db.commands[c].book == other
        ensures c in next.db.commands && next.db.commands[c] == h.db.commands[c]
      {
        assert c in OtherCommands(h.db.commands, book);
      }
      forall c | c in next.db.commands && next.db.commands[c].book == other
        ensures c in h.db.commands && next.db.commands[c] == h.db.commands[c]
      {
        assert c in OtherCommands(next.db.commands, book);
      }
    }
  }

  lemma OthersKeepTables(h: History, next: History, book: Id)
    requires TablesOk(h) && OnlyTouches(book, h.db, next.db)
    requires next.ledger.Keys == h.ledger.Keys + {book}
    requires forall id :: id in next.db.outbox && next.db.outbox[id].book == book && id.FinalDeletion? ==>
        id.book == book
    ensures TablesOk(next)
  {
    forall id | id in next.db.outbox && next.db.outbox[id].book != book
      ensures id in h.db.outbox && next.db.outbox[id] == h.db.outbox[id]
    {
      assert id in WithoutBook(next.db.outbox, book);
    }
    forall c | c in next.db.commands && next.db.commands[c].book != book
      ensures c in h.db.commands && next.db.commands[c] == h.db.commands[c]
    {
      assert c in OtherCommands(next.db.commands, book);
    }
  }

  lemma OthersKeep(h: History, next: History, book: Id)
    requires Inv(h) && OnlyTouches(book, h.db, next.db)
    requires book in next.ledger && next.ledger == h.ledger[book := next.ledger[book]]
    requires forall id :: id in next.db.outbox && next.db.outbox[id].book == book && id.FinalDeletion? ==>
        id.book == book
    requires BookOk(next, book) && ChangesOk(next)
    ensures Inv(next)
  {
    OthersKeepTables(h, next, book);
    hide OnlyTouches, Apart, ChangesOk, RowOk, LedgerOk, OutboxOk, CommandsOk;
    forall b | b in next.db.books ensures BookOk(next, b) {
      if b != book {
        OthersApart(h, next, book, b);
        ApartStaysOk(h, next, b);
      }
    }
  }

  lemma DeliverKeeps(h: History, outbox: map<EventId, OutboxRow>)
    requires Inv(h) && SameRows(h.db.outbox, outbox)
    ensures Inv(Next(h, Deliver(outbox)))
  {
    var next := Next(h, Deliver(outbox));
    hide RowOk, LedgerOk, OutboxOk, CommandsOk;
    forall b | b in next.db.books ensures BookOk(next, b) {
      assert BookOk(h, b);
      ApartStaysOk(h, next, b);
    }
  }

  lemma InsertPair(outbox: map<EventId, OutboxRow>, book: Id, e: NewEvent, f: NewEvent)
    ensures var r := InsertAll(outbox, book, [e, f]);
            r.Some? ==>
              && e.id !in outbox && f.id !in outbox && e.id != f.id
              && r.value == outbox[e.id := FreshRow(book, e.sequence, e.payload, e.occurredAt)]
                                  [f.id := FreshRow(book, f.sequence, f.payload, f.occurredAt)]
  {
    var first := outbox[e.id := FreshRow(book, e.sequence, e.payload, e.occurredAt)];
    assert [e, f][1..] == [f] && [f][1..] == [];
    if InsertAll(outbox, book, [e, f]).Some? {
      assert InsertAll(outbox, book, [e, f]) == InsertAll(first, book, [f]);
      assert InsertAll(first, book, [f]) ==
        InsertAll(first[f.id := FreshRow(book, f.sequence, f.payload, f.occurredAt)], book, []);
    }
  }

  /** A committed upload adds its book with two rows and a ledger of one entry. */
  lemma UploadEffect(h: History, s: Step)
    requires Inv(h) && s.Upload? && TxOf(h.db, s).Committed?
    ensures var row := UploadedRow(s.content, s.now);
            var e := StatusOf(s.statusId, s.book, row);
            var outbox := h.db.outbox[s.uploadedId := FreshRow(s.book, 0, Uploaded(row.content, row.lifecycle), s.now)]
                                     [s.statusId := FreshRow(s.book, 1, StatusChanged(e), s.now)];
            && s.book !in h.db.books && s.uploadedId !in h.db.outbox && s.statusId !in h.db.outbox
                 && s.uploadedId != s.statusId
            && Next(h, s) == History(h.db.(books := h.db.books[s.book := row], outbox := outbox),
                                     h.ledger[s.book := [Entry(e, 1)]], h.changes)
  {
    var row := UploadedRow(s.content, s.now);
    var e := StatusOf(s.statusId, s.book, row);
    var events := UploadEvents(s.book, row, s.uploadedId, s.statusId, s.now);
    InsertPair(h.db.outbox, s.book, events[0], events[1]);
    assert events == [events[0], events[1]];
    var db := TxOf(h.db, s).db;
    assert s.book !in h.ledger;
    hide InsertAll, Inv;
    assert LedgerOf(h, s.book) == [];
    assert StatusKey(s, db) == Some(s.statusId);
    assert db.outbox[s.statusId] == FreshRow(s.book, 1, StatusChanged(e), s.now);
    assert LedgerOf(h, s.book) + [Entry(e, 1)] == [Entry(e, 1)];
  }

  lemma NewBookOk(book: Id, content: Content, id: EventId, now: Time, outbox: map<EventId, OutboxRow>,
      commands: map<Id, CommandRow>)
    requires var row := UploadedRow(content, now);
             Stored(outbox, book, Entry(StatusOf(id, book, row), 1))
    requires forall k :: k in outbox && outbox[k].book == book ==>
        !k.FinalDeletion? && (k == id || !outbox[k].payload.StatusChanged?)
    requires forall c :: c in commands ==> commands[c].book != book
    ensures var row := UploadedRow(content, now);
            var ledger := [Entry(StatusOf(id, book, row), 1)];
            RowOk(row) && LedgerOk(book, row, ledger) && OutboxOk(book, row, ledger, outbox)
                && CommandsOk(book, row, commands)
  {
  }

  lemma UploadKeeps(h: History, s: Step)
    requires Inv(h) && s.Upload? && Possible(h, s)
    ensures Inv(Next(h, s))
  {
    if TxOf(h.db, s).Committed? {
      UploadEffect(h, s);
      UploadedKeeps(h, Next(h, s), s.book, s.content, s.uploadedId, s.statusId, s.now);
    }
  }

  lemma UploadedKeeps(h: History, next: History, book: Id, content: Content, uploadedId: EventId,
      statusId: EventId, now: Time)
    requires Inv(h) && book !in h.db.books && uploadedId.Generated? && statusId.Generated?
    requires uploadedId !in h.db.outbox && statusId !in h.db.outbox && uploadedId != statusId
    requires var row := UploadedRow(content, now);
             var e := StatusOf(statusId, book, row);
             var outbox := h.db.outbox[uploadedId := FreshRow(book, 0, Uploaded(row.content, row.lifecycle), now)]
                                      [statusId := FreshRow(book, 1, StatusChanged(e), now)];
             next == History(h.db.(books := h.db.books[book := row], outbox := outbox),
                 h.ledger[book := [Entry(e, 1)]], h.changes)
    ensures Inv(next)
  {
    hide UploadedRow, RowOk, LedgerOk, OutboxOk, CommandsOk;
    assert ChangesOk(next);
    assert OnlyTouches(book, h.db, next.db);
    NewBookOk(book, content, statusId, now, next.db.outbox, next.db.commands);
    OthersKeep(h, next, book);
  }

  /** A live book takes its next version, with one more status row behind its rows. */
  ghost predicate Grows(h: History, next: History, book: Id, r': Row, entry: Entry) {
    && book in h.db.books && book in h.ledger && !h.db.books[book].status.Deleted?
    && RowOk(r') && !r'.status.Deleted? && r'.version == h.db.books[book].version + 1
    && Projects(entry.event, r') && entry.event.book == book
    && next.db.books == h.db.books[book := r']
    && next.ledger == h.ledger[book := h.ledger[book] + [entry]]
    && Appends(book, h.db.outbox, next.db.outbox, entry)
    && CommandsOk(book, r', next.db.commands)
         && OtherCommands(next.db.commands, book) == OtherCommands(h.db.commands, book)
  }

  lemma GrownKeeps(h: History, next: History, book: Id, r': Row, entry: Entry)
    requires Inv(h) && Grows(h, next, book, r', entry) && ChangesOk(next)
    ensures Inv(next)
  {
    assert BookOk(h, book);
    hide Grows, BookOk, OnlyTouches, ChangesOk;
    GrownBook(h, next, book, r', entry);
    GrownElsewhere(h, next, book, r', entry);
    OthersKeep(h, next, book);
  }

  lemma GrownBook(h: History, next: History, book: Id, r': Row, entry: Entry)
    requires BookOk(h, book) && Grows(h, next, book, r', entry)
    ensures BookOk(next, book)
    ensures forall id :: id in next.db.outbox && next.db.outbox[id].book == book ==> !id.FinalDeletion?
  {
    hide LedgerOk, CommandsOk, Shape, LiveRows, LastRow;
    AppendedOk(book, h.db.books[book], r', h.ledger[book], entry, h.db.outbox, next.db.outbox);
  }

  lemma GrownElsewhere(h: History, next: History, book: Id, r': Row, entry: Entry)
    requires Grows(h, next, book, r', entry)
    ensures OnlyTouches(book, h.db, next.db)
    ensures book in next.ledger && next.ledger == h.ledger[book := next.ledger[book]]
  {
    hide RowOk, CommandsOk, OtherCommands;
    assert next.db.books - {book} == h.db.books - {book};
  }

  /** A row changes only where no status event looks. */
  predicate Alike(r: Row, r': Row) {
    && r'.status == r.status && r'.stage == r.stage && r'.failure == r.failure && r'.detail == r.detail
    && r'.version == r.version && r'.lifecycle == r.lifecycle && r'.updatedAt == r.updatedAt
         && r'.commandId == r.commandId
  }

  ghost predicate Quiet(h: History, next: History, book: Id, r': Row) {
    && book in h.db.books && RowOk(r') && Alike(h.db.books[book], r')
    && next.db.books == h.db.books[book := r'] && next.db.outbox == h.db.outbox && next.db.commands == h.db.commands
    && next.ledger == h.ledger
  }

  lemma QuietKeeps(h: History, next: History, book: Id, r': Row)
    requires Inv(h) && Quiet(h, next, book, r') && ChangesOk(next)
    ensures Inv(next)
  {
    assert BookOk(h, book);
    hide Quiet, BookOk, ChangesOk, OnlyTouches;
    QuietBook(h, next, book, r');
    QuietElsewhere(h, next, book, r');
    OthersKeep(h, next, book);
  }

  lemma QuietElsewhere(h: History, next: History, book: Id, r': Row)
    requires Quiet(h, next, book, r') && TablesOk(h)
    ensures OnlyTouches(book, h.db, next.db)
    ensures book in next.ledger && next.ledger == h.ledger[book := next.ledger[book]]
    ensures forall id :: id in next.db.outbox && next.db.outbox[id].book == book && id.FinalDeletion? ==>
        id.book == book
  {
    hide RowOk, Alike;
    assert next.db.books - {book} == h.db.books - {book};
  }

  lemma QuietBook(h: History, next: History, book: Id, r': Row)
    requires BookOk(h, book) && Quiet(h, next, book, r')
    ensures BookOk(next, book)
  {
    hide Shape, LiveRows, LastRow;
  }

  /** What a committed report does to the history. */
  lemma ReportEffect(h: History, s: Step)
    requires Inv(h) && s.Report? && Screened(h.db, s.event).None? && TxOf(h.db, s).Committed?
    ensures var e := s.event;
            var b := h.db.books[e.book];
            var inbox := h.db.inbox[e.id := Receipt(e.eventType, e.digest)];
            var next := Next(h, s);
            match Judge(b, e.fact)
            case Rejected(_) => false
            case Absorbed =>
              && next.ledger == h.ledger && next.changes == h.changes
              && (next.db == h.db.(inbox := inbox)
                  || next.db == h.db.(inbox := inbox,
                       books := h.db.books[e.book := b.(manifestRef := e.manifestRef,
                       manifestDigest := e.manifestDigest)]))
            case Accepted(row) =>
              var entry := Entry(StatusOf(s.eventStatusId, e.book, WithManifest(row, e)),
                  NextSequence(h.db.outbox, e.book));
              && s.eventStatusId !in h.db.outbox
              && next.db == h.db.(
                   inbox := inbox,
                   books := h.db.books[e.book := StoredManifest(WithManifest(row, e))],
                   outbox := h.db.outbox[s.eventStatusId := FreshRow(e.book, entry.sequence,
                       StatusChanged(entry.event), s.at)])
              && next.ledger == h.ledger[e.book := h.ledger[e.book] + [entry]]
              && next.changes == h.changes + [Change(e.id, e.book, row.version)]
  {
    hide Judge, Inv;
    assert s.event.book in h.ledger by { InLedger(h, s.event.book); }
  }

  lemma InLedger(h: History, book: Id)
    requires Inv(h) && book in h.db.books
    ensures book in h.ledger && BookOk(h, book)
  {
  }

  lemma AcceptedOk(b: Row, e: ProcessingEvent, id: EventId)
    requires RowOk(b) && Judge(b, e.fact).Accepted?
    ensures var row := WithManifest(Judge(b, e.fact).row, e);
            var r' := StoredManifest(row);
            && RowOk(r') && !b.status.Deleted? && !r'.status.Deleted? && !r'.status.Deleting?
                 && r'.version == b.version + 1
            && r'.lifecycle == b.lifecycle && Projects(StatusOf(id, e.book, row), r')
  {
    AcceptedRow(b, e.fact);
    hide Judge, Shape;
  }

  lemma ReportKeeps(h: History, s: Step)
    requires Inv(h) && s.Report? && Possible(h, s)
    ensures Inv(Next(h, s))
  {
    var e := s.event;
    if Screened(h.db, e).None? && TxOf(h.db, s).Committed? {
      ReportEffect(h, s);
      InLedger(h, e.book);
      var next, b := Next(h, s), h.db.books[e.book];
      hide Judge, TxOf, Next, BookOk, RowOk, Grows, Quiet, Appends, Screened;
      assert ChangesOk(next) by { FreshInbox(h.db, e); FreshChange(h, next, e); }
      if Judge(b, e.fact).Absorbed? {
        ReportQuiet(h, next, e);
        QuietKeeps(h, next, e.book, next.db.books[e.book]);
      } else {
        ReportGrows(h, next, e, s.eventStatusId, s.at);
        var row := WithManifest(Judge(b, e.fact).row, e);
        var entry := Entry(StatusOf(s.eventStatusId, e.book, row), NextSequence(h.db.outbox, e.book));
        GrownKeeps(h, next, e.book, StoredManifest(row), entry);
      }
    }
  }

  lemma FreshInbox(db: Db, e: ProcessingEvent)
    requires Screened(db, e).None?
    ensures e.id !in db.inbox && e.book in db.books
  {
  }

  lemma ReportQuiet(h: History, next: History, e: ProcessingEvent)
    requires BookOk(h, e.book) && next.ledger == h.ledger
    requires var inbox := h.db.inbox[e.id := Receipt(e.eventType, e.digest)];
             || next.db == h.db.(inbox := inbox)
             || next.db == h.db.(inbox := inbox,
                  books := h.db.books[e.book := h.db.books[e.book].(manifestRef := e.manifestRef,
                      manifestDigest := e.manifestDigest)])
    ensures e.book in next.db.books && Quiet(h, next, e.book, next.db.books[e.book])
  {
    hide Shape, OutboxOk, LedgerOk, CommandsOk;
  }

  lemma ReportGrows(h: History, next: History, e: ProcessingEvent, id: EventId, at: Time)
    requires BookOk(h, e.book) && Judge(h.db.books[e.book], e.fact).Accepted?
    requires id.Generated? && id !in h.db.outbox
    requires var row := WithManifest(Judge(h.db.books[e.book], e.fact).row, e);
             var entry := Entry(StatusOf(id, e.book, row), NextSequence(h.db.outbox, e.book));
             && next.db == h.db.(
                  inbox := h.db.inbox[e.id := Receipt(e.eventType, e.digest)],
                  books := h.db.books[e.book := StoredManifest(row)],
                  outbox := h.db.outbox[id := FreshRow(e.book, entry.sequence, StatusChanged(entry.event), at)])
             && next.ledger == h.ledger[e.book := h.ledger[e.book] + [entry]]
    ensures var row := WithManifest(Judge(h.db.books[e.book], e.fact).row, e);
            var entry := Entry(StatusOf(id, e.book, row), NextSequence(h.db.outbox, e.book));
            Grows(h, next, e.book, StoredManifest(row), entry)
  {
    AcceptedOk(h.db.books[e.book], e, id);
    hide Judge, RowOk, OutboxOk, LedgerOk, WithManifest, StoredManifest;
  }

  lemma FreshChange(h: History, next: History, e: ProcessingEvent)
    requires ChangesOk(h) && e.id !in h.db.inbox
    requires next.db.inbox == h.db.inbox[e.id := Receipt(e.eventType, e.digest)]
    requires next.changes == h.changes || exists v :: next.changes == h.changes + [Change(e.id, e.book, v)]
    ensures ChangesOk(next)
  {
  }

  // ---------------------------------------------------------------------
  // Commands

  /** The unique index on (book, lifecycle version) never refuses a command. */
  lemma GenerationIsFree(h: History, c: Command)
    requires Inv(h) && c.book in h.db.books && Commanded(h.db.books[c.book], c).Ok?
    ensures !GenerationTaken(h.db.commands, c.book, Commanded(h.db.books[c.book], c).value.lifecycle)
  {
    hide Inv, CanReindex, ValidTransition, GenerationTaken, RowOk, LedgerOk, OutboxOk, CommandsOk;
    InLedger(h, c.book);
    NothingLater(c.book, h.db.books[c.book], h.db.commands);
  }

  lemma NothingLater(book: Id, r: Row, commands: map<Id, CommandRow>)
    requires CommandsOk(book, r, commands)
    ensures !GenerationTaken(commands, book, r.lifecycle + 1)
  {
  }

  /** An accepted command and what it leaves. */
  ghost predicate Accepts(h: History, c: Command, row: Row, next: History) {
    && c.book in h.db.books && c.id !in h.db.commands && !h.db.books[c.book].status.Deleted?
    && Commanded(h.db.books[c.book], c) == Ok(row)
    && c.requestId !in h.db.outbox && c.statusId !in h.db.outbox && c.requestId != c.statusId
    && var n := NextSequence(h.db.outbox, c.book);
       var entry := Entry(StatusOf(c.statusId, c.book, row), n + 1);
       && next.db == h.db.(
            books := h.db.books[c.book := row],
            commands := h.db.commands[c.id := CommandRow(c.book, c.kind, row.lifecycle, Some(c.actor))],
            outbox := h.db.outbox[c.requestId := FreshRow(c.book, n, RequestOf(c, row), c.occurredAt)]
                                 [c.statusId := FreshRow(c.book, n + 1, StatusChanged(entry.event), c.occurredAt)])
       && next.ledger == h.ledger[c.book := LedgerOf(h, c.book) + [entry]]
       && next.changes == h.changes
  }

  lemma DirectEffect(h: History, s: Step)
    requires s.Direct?
    ensures Next(h, s) == h || exists row :: Accepts(h, s.command, row, Next(h, s))
  {
    var c := s.command;
    if c.book in h.db.books && Commanded(h.db.books[c.book], c).Ok? {
      var row := Commanded(h.db.books[c.book], c).value;
      hide Commanded, CanReindex, NextSequence;
      if Next(h, s) != h {
        assert Accepts(h, c, row, Next(h, s));
      }
    }
  }

  lemma CommandedOk(b: Row, c: Command, id: EventId)
    requires RowOk(b) && Commanded(b, c).Ok? && !b.status.Deleted?
    ensures var row := Commanded(b, c).value;
            && RowOk(row) && !row.status.Deleted? && row.version == b.version + 1 && row.lifecycle == b.lifecycle + 1
            && row.commandId == c.id && (row.status.Deleting? ==> c.kind.DeleteCommand?)
            && Projects(StatusOf(id, c.book, row), row)
  {
    assert ValidDetail("");
    hide ReindexableFailure, ValidExtractionFailure, ValidIndexingFailure, ValidDetail;
  }

  lemma CommandGrows(h: History, c: Command, row: Row, next: History)
    requires BookOk(h, c.book) && Accepts(h, c, row, next) && c.requestId.Generated? && c.statusId.Generated?
    ensures Grows(h, next, c.book, row, Entry(StatusOf(c.statusId, c.book, row), NextSequence(h.db.outbox, c.book) + 1))
  {
    hide Commanded, RowOk, OutboxOk, LedgerOk, StatusOf, Appends;
    CommandedOk(h.db.books[c.book], c, c.statusId);
    var entry := Entry(StatusOf(c.statusId, c.book, row), NextSequence(h.db.outbox, c.book) + 1);
    assert entry.event.book == c.book && entry.event.id == c.statusId by { StatusNames(c.statusId, c.book, row); }
    assert OtherCommands(next.db.commands, c.book) == OtherCommands(h.db.commands, c.book);
    PairAppends(c.book, h.db.outbox, c.requestId, FreshRow(c.book, entry.sequence - 1, RequestOf(c, row), c.occurredAt),
                entry, c.occurredAt);
  }

  lemma PairAppends(book: Id, outbox: map<EventId, OutboxRow>, requestId: EventId, request: OutboxRow,
      entry: Entry, at: Time)
    requires requestId.Generated? && entry.event.id.Generated? && requestId != entry.event.id
    requires requestId !in outbox && entry.event.id !in outbox
    requires request.book == book && !request.payload.StatusChanged? && entry.sequence == NextSequence(outbox, book) + 1
    ensures Appends(book, outbox,
        outbox[requestId := request][entry.event.id := FreshRow(book, entry.sequence, StatusChanged(entry.event), at)],
        entry)
  {
  }

  lemma StatusNames(id: EventId, book: Id, row: Row)
    ensures StatusOf(id, book, row).book == book && StatusOf(id, book, row).id == id
  {
  }

  lemma SameChanges(h: History, c: Command, row: Row, next: History)
    requires ChangesOk(h) && Accepts(h, c, row, next)
    ensures ChangesOk(next)
  {
  }

  lemma DirectKeeps(h: History, s: Step)
    requires Inv(h) && s.Direct? && Possible(h, s)
    ensures Inv(Next(h, s))
  {
    DirectEffect(h, s);
    var next, c := Next(h, s), s.command;
    hide Next, BookOk, Grows;
    if next != h {
      var row :| Accepts(h, c, row, next);
      InLedger(h, c.book);
      CommandGrows(h, c, row, next);
      assert ChangesOk(next) by { SameChanges(h, c, row, next); }
      hide Accepts, StatusOf;
      GrownKeeps(h, next, c.book, row, Entry(StatusOf(c.statusId, c.book, row), NextSequence(h.db.outbox, c.book) + 1));
    }
  }

  // ---------------------------------------------------------------------
  // Deletion

  /** The book becomes a tombstone; its rows give way to one final event. */
  ghost predicate Erases(h: History, next: History, book: Id, marked: Row, now: Time) {
    && book in h.db.books && book in h.ledger
    && Alike(h.db.books[book], marked) && marked.status.Deleting? && AllGone(marked)
    && var row := Tombstone(marked, now);
       var entry := Entry(StatusOf(FinalId(book, row), book, row), 0);
       && next.db.books == h.db.books[book := row]
       && next.db.commands == WithoutActors(h.db.commands, book)
       && next.db.outbox == WithoutBook(h.db.outbox,
            book)[entry.event.id := FreshRow(book, 0, StatusChanged(entry.event), now)]
       && next.ledger == h.ledger[book := h.ledger[book] + [entry]]
  }

  lemma ErasedKeeps(h: History, next: History, book: Id, marked: Row, now: Time)
    requires Inv(h) && Erases(h, next, book, marked, now) && ChangesOk(next)
    ensures Inv(next)
  {
    InLedger(h, book);
    hide Erases, BookOk, ChangesOk, OnlyTouches;
    ErasedBook(h, next, book, marked, now);
    ErasedElsewhere(h, next, book, marked, now);
    OthersKeep(h, next, book);
  }

  lemma ErasedBook(h: History, next: History, book: Id, marked: Row, now: Time)
    requires BookOk(h, book) && TablesOk(h) && Erases(h, next, book, marked, now)
    ensures BookOk(next, book)
    ensures forall id :: id in next.db.outbox && next.db.outbox[id].book == book && id.FinalDeletion? ==>
        id.book == book
  {
    hide LedgerOk, OutboxOk, CommandsOk, Shape;
    var r, row := h.db.books[book], Tombstone(marked, now);
    var entry := Entry(StatusOf(FinalId(book, row), book, row), 0);
    assert RowOk(row) by { ErasedRow(r, marked, now); }
    ErasedOk(book, r, row, h.ledger[book], entry, next.db.outbox);
    ErasedCommands(book, r, row, h.db.commands);
  }

  lemma ErasedRow(r: Row, marked: Row, now: Time)
    requires RowOk(r) && Alike(r, marked) && marked.status.Deleting? && AllGone(marked)
    ensures RowOk(Tombstone(marked, now))
  {
  }

  lemma ErasedCommands(book: Id, r: Row, row: Row, commands: map<Id, CommandRow>)
    requires CommandsOk(book, r, commands) && r.status.Deleting?
    requires row.status.Deleted? && row.commandId == r.commandId && row.lifecycle == r.lifecycle
    ensures CommandsOk(book, row, WithoutActors(commands, book))
  {
  }

  lemma ErasedElsewhere(h: History, next: History, book: Id, marked: Row, now: Time)
    requires Erases(h, next, book, marked, now) && TablesOk(h)
    ensures OnlyTouches(book, h.db, next.db)
    ensures book in next.ledger && next.ledger == h.ledger[book := next.ledger[book]]
  {
    hide Alike, AllGone;
    assert next.db.books - {book} == h.db.books - {book};
  }

  /** Committing the third acknowledgement cannot fail: the delete command is
      on record and no row of another book carries the final key. */
  lemma FinalizeSucceeds(h: History, acks: map<Id, Receipt<AckType>>, book: Id, marked: Row, now: Time)
    requires Inv(h) && book in h.db.books && Alike(h.db.books[book], marked) && marked.status.Deleting?
    ensures Finalize(h.db.(acks := acks), book, marked, now).Committed?
  {
    hide Inv, RowOk, LedgerOk, OutboxOk;
    assert TablesOk(h) by { InTables(h); }
    InLedger(h, book);
  }

  lemma InTables(h: History)
    requires Inv(h)
    ensures TablesOk(h) && ChangesOk(h)
  {
  }

  lemma NoFinalRow(h: History, book: Id, final: EventId)
    requires Inv(h) && book in h.db.books && !h.db.books[book].status.Deleted? && final.FinalDeletion?
        && final.book == book
    ensures final !in h.db.outbox
  {
    InLedger(h, book);
    InTables(h);
    hide Inv, RowOk, CommandsOk, LedgerOk;
  }

  /** Every answer to an acknowledgement of either kind. */
  ghost predicate Acked(h: History, next: History, book: Id, marked: Row, now: Time) {
    && book in h.db.books
    && if h.db.books[book].status.Deleting? && AllGone(marked) then Erases(h, next, book, marked, now)
       else Quiet(h, next, book, marked)
  }

  lemma AckedKeeps(h: History, next: History, book: Id, marked: Row, now: Time)
    requires Inv(h) && Acked(h, next, book, marked, now) && next.changes == h.changes && next.db.inbox == h.db.inbox
    ensures Inv(next)
  {
    hide Inv, Erases, Quiet, AllGone;
    InTables(h);
    if h.db.books[book].status.Deleting? && AllGone(marked) {
      ErasedKeeps(h, next, book, marked, now);
    } else {
      QuietKeeps(h, next, book, marked);
    }
  }

  function Marked(b: Row, s: Step): Row
    requires s.OriginalGone? || s.AckArrives?
  {
    if s.OriginalGone? then b.(originalDeleted := true) else Acknowledged(b, s.ack.ackType)
  }

  /** The acknowledgement is for this deletion and is not a redelivery. */
  predicate Counts(h: History, s: Step, book: Id, command: Id, lifecycle: nat) {
    match s
    case OriginalGone(b, c, l, _) => b == book && c == command && l == lifecycle
    case AckArrives(a, _) => a.book == book && a.command == command && a.lifecycle == lifecycle && a.id !in h.db.acks
        && !a.ackType.OtherAck?
    case _ => false
  }

  function AckTime(s: Step): Time
    requires s.OriginalGone? || s.AckArrives?
  {
    if s.OriginalGone? then s.markedAt else s.ackedAt
  }

  lemma MarkedOk(b: Row, s: Step)
    requires RowOk(b) && (s.OriginalGone? || s.AckArrives?) && (b.status.Deleting? || b.status.Deleted?)
    ensures var marked := Marked(b, s);
            && Alike(b, marked)
            && (b.status.Deleted? ==> marked == b && AllGone(marked))
            && (b.status.Deleting? ==> !AllGone(b))
            && (!(b.status.Deleting? && AllGone(marked)) ==> RowOk(marked))
  {
    hide Shape;
  }

  /** Commits the third acknowledgement of a deletion. */
  lemma Finalized(h: History, s: Step, acks: map<Id, Receipt<AckType>>, book: Id, marked: Row, now: Time)
    requires Inv(h) && book in h.db.books && (s.OriginalGone? || s.AckArrives?) && BookOf(s) == book
    requires Alike(h.db.books[book], marked) && marked.status.Deleting? && AllGone(marked)
    ensures var tx := Finalize(h.db.(acks := acks), book, marked, now);
            && tx.Committed? && tx.changed
            && Erases(h, Recorded(h, s, tx.db), book, marked, now)
            && Recorded(h, s, tx.db).db == tx.db && Recorded(h, s, tx.db).changes == h.changes
            && tx.db.inbox == h.db.inbox && tx.db.acks == acks
  {
    hide Inv, RowOk, LedgerOk, OutboxOk, CommandsOk;
    InLedger(h, book);
    FinalizeSucceeds(h, acks, book, marked, now);
  }

  /** What a counted acknowledgement leaves. */
  ghost predicate AckLeaves(h: History, s: Step, next: History)
    requires s.OriginalGone? || s.AckArrives?
  {
    && BookOf(s) in h.db.books
    && var b := h.db.books[BookOf(s)];
       && (b.status.Deleting? || b.status.Deleted?)
       && Counts(h, s, BookOf(s), b.commandId, b.lifecycle)
       && Acked(h, next, BookOf(s), Marked(b, s), AckTime(s))
       && next.changes == h.changes && next.db.inbox == h.db.inbox
  }

  /** A flag that does not complete the quorum records no event. */
  lemma Flagged(h: History, s: Step, db: Db, b: Row)
    requires s.OriginalGone? || s.AckArrives?
    requires RowOk(b) && b.status.Deleting? && !AllGone(Marked(b, s))
    requires BookOf(s) in h.db.books && h.db.books[BookOf(s)] == b
    requires db.books == h.db.books[BookOf(s) := Marked(b, s)] && db.outbox == h.db.outbox
        && db.commands == h.db.commands
    ensures Recorded(h, s, db) == History(db, h.ledger, h.changes)
    ensures Quiet(h, Recorded(h, s, db), BookOf(s), Marked(b, s))
  {
    MarkedOk(b, s);
    hide RowOk;
  }

  /** The acknowledgement is no news for the book it names. */
  ghost predicate Unheeded(h: History, s: Step)
    requires s.OriginalGone? || s.AckArrives?
  {
    BookOf(s) in h.db.books ==>
      var b := h.db.books[BookOf(s)];
      Counts(h, s, BookOf(s), b.commandId, b.lifecycle) && (b.status.Deleting? || b.status.Deleted?) ==>
          Marked(b, s) == b
  }

  lemma OriginalEffect(h: History, s: Step)
    requires Inv(h) && s.OriginalGone?
    ensures (Next(h, s) == h && Unheeded(h, s)) || AckLeaves(h, s, Next(h, s))
  {
    hide Inv, Finalize, Erases, Quiet, LedgerOk, OutboxOk, CommandsOk, Recorded, RowOk;
    if s.gone in h.db.books && AcceptsAck(h.db.books[s.gone], s.cause, s.generation)
        && !h.db.books[s.gone].originalDeleted {
      var b := h.db.books[s.gone];
      InLedger(h, s.gone);
      MarkedOk(b, s);
      if AllGone(Marked(b, s)) {
        assert h.db.(acks := h.db.acks) == h.db;
        Finalized(h, s, h.db.acks, s.gone, Marked(b, s), s.markedAt);
      } else {
        Flagged(h, s, h.db.(books := h.db.books[s.gone := Marked(b, s)]), b);
      }
    }
  }

  lemma ArrivalEffect(h: History, s: Step)
    requires Inv(h) && s.AckArrives?
    ensures (Next(h, s) == h && Unheeded(h, s)) || AckLeaves(h, s, Next(h, s))
  {
    hide Inv, Finalize, Erases, Quiet, LedgerOk, OutboxOk, CommandsOk, Recorded, RowOk;
    var a := s.ack;
    if a.id !in h.db.acks && !a.ackType.OtherAck? && a.book in h.db.books
        && AcceptsAck(h.db.books[a.book], a.command, a.lifecycle) {
      var b := h.db.books[a.book];
      var acks := h.db.acks[a.id := Receipt(a.ackType, a.digest)];
      InLedger(h, a.book);
      MarkedOk(b, s);
      if Marked(b, s) == b {
        Repeated(h, acks, a.book);
      } else if AllGone(Marked(b, s)) {
        Finalized(h, s, acks, a.book, Marked(b, s), s.ackedAt);
      } else {
        Flagged(h, s, h.db.(acks := acks, books := h.db.books[a.book := Marked(b, s)]), b);
      }
    }
  }

  /** A second acknowledgement of the same kind leaves only its receipt. */
  lemma Repeated(h: History, acks: map<Id, Receipt<AckType>>, book: Id)
    requires book in h.db.books && RowOk(h.db.books[book])
    ensures Quiet(h, h.(db := h.db.(acks := acks)), book, h.db.books[book])
  {
    hide Shape;
    assert h.db.books[book := h.db.books[book]] == h.db.books;
  }

  lemma Delivers(h: History, outbox: map<EventId, OutboxRow>)
    ensures Next(h, Deliver(outbox)) == h.(db := h.db.(outbox := outbox))
  {
  }

  lemma Refused(h: History, s: Step)
    requires TxOf(h.db, s).RolledBack? || (s.Report? && Screened(h.db, s.event).Some?)
    ensures Next(h, s) == h
  {
  }

  // ---------------------------------------------------------------------
  // Every run

  lemma AckKeeps(h: History, s: Step)
    requires Inv(h) && (s.OriginalGone? || s.AckArrives?)
    ensures Inv(Next(h, s))
  {
    hide Inv, Next, Acked;
    if s.OriginalGone? {
      OriginalEffect(h, s);
    } else {
      ArrivalEffect(h, s);
    }
    if Next(h, s) != h {
      AckedKeeps(h, Next(h, s), BookOf(s), Marked(h.db.books[BookOf(s)], s), AckTime(s));
    }
  }

  lemma StepKeeps(h: History, s: Step)
    requires Inv(h) && Possible(h, s)
    ensures Inv(Next(h, s))
  {
    hide Inv, Next;
    match s
    case Upload(_, _, _, _, _) => UploadKeeps(h, s);
    case Report(_, _, _) => ReportKeeps(h, s);
    case Direct(_) => DirectKeeps(h, s);
    case OriginalGone(_, _, _, _) => AckKeeps(h, s);
    case AckArrives(_, _) => AckKeeps(h, s);
    case Deliver(outbox) => DeliverKeeps(h, outbox);
  }

  lemma {:induction false} RunKeeps(h: History, steps: seq<Step>)
    requires Inv(h) && Run(h, steps)
    ensures Inv(After(h, steps))
    decreases |steps|
  {
    hide Inv, Next, Possible;
    if steps != [] {
      StepKeeps(h, steps[0]);
      RunKeeps(Next(h, steps[0]), steps[1..]);
    }
  }

  lemma BlankOk()
    ensures Inv(BLANK)
  {
  }
}
