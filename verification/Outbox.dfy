/**
 The transactional outbox as a protocol between Catalog's transactions and any
 number of workers that claim rows, publish them, mark or retry them, and crash
 (services/catalog-service/outbox/worker.go and the lease queries of
 services/catalog-service/repository/postgres_book_repository.go).
 */
module Outbox {
  import opened Prelude
  import opened Domain
  import opened Catalog
  import opened Lifecycle
  import opened RabbitPublisher

  /** A row as it was inserted. The purge of a deleted book opens its epoch 1,
      in which sequences start again at 0. */
  datatype Issue = Issue(book: Id, sequence: nat, epoch: nat, payload: Payload)

  datatype Phase = Ready | Confirmed | Refused

  /** The part of its batch that a worker has still to dispose of. */
  datatype Worker = Worker(batch: seq<EventId>, phase: Phase)

  /** `confirmed` lists the publications that the broker confirmed, in order, and
      `routed` the events that have reached a queue. */
  datatype World = World(
    h: History, issued: map<EventId, Issue>, workers: map<Id, Worker>, confirmed: seq<EventId>, routed: set<EventId>)

  const START: World := World(BLANK, map[], map[], [], {})

  datatype Move =
    | Transact(step: Step)
    | Claim(worker: Id, now: Time, lease: Time, batch: seq<EventId>)
    | Publish(publisher: Id, accepted: bool, sent: Publication)
    | Mark(marker: Id, markedAt: Time, marked: bool)
    | Retry(retrier: Id, retryAt: Time, retried: bool)
    | Abandon(leaver: Id)

  datatype Exchange = EventsExchange | EdgeStatusExchange

  datatype Route = Route(exchange: Exchange, mandatory: bool)

  /** The outbox holds four types of event, so the route of an unknown one is not needed. */
  function PublicationRoute(p: Payload): Route {
    match p
    case StatusChanged(_) => Route(EdgeStatusExchange, false)
    case _ => Route(EventsExchange, true)
  }

  predicate Mandatory(issued: map<EventId, Issue>, id: EventId) {
    id in issued && PublicationRoute(issued[id].payload).mandatory
  }

  function Epoch(h: History, book: Id): nat {
    if book in h.db.books && h.db.books[book].status.Deleted? then 1 else 0
  }

  function BatchOf(w: World, worker: Id): seq<EventId> {
    if worker in w.workers then w.workers[worker].batch else []
  }

  predicate Busy(w: World, worker: Id, phase: Phase) {
    worker in w.workers && w.workers[worker].batch != [] && w.workers[worker].phase == phase
  }

  function GeneratedKeys(s: Step): set<EventId> {
    match s
    case Upload(_, _, uploadedId, statusId, _) => {uploadedId, statusId}
    case Report(_, statusId, _) => {statusId}
    case Direct(c) => {c.requestId, c.statusId}
    case _ => {}
  }

  /** Generated keys are random, hence never used before. A worker claims only
      when its batch is done. */
  predicate Enabled(w: World, m: Move) {
    match m
    case Transact(s) => !s.Deliver? && Possible(w.h, s) && GeneratedKeys(s) !! w.issued.Keys
    case Claim(worker, now, _, batch) => BatchOf(w, worker) == [] && ValidClaim(w.h.db.outbox, now, batch)
    case Publish(worker, accepted, sent) =>
      && Busy(w, worker, Ready)
      && sent.mandatory == Mandatory(w.issued, w.workers[worker].batch[0]) && (accepted ==> Delivered(sent))
    case Mark(worker, _, _) => Busy(w, worker, Confirmed)
    case Retry(worker, _, _) => Busy(w, worker, Refused)
    case Abandon(worker) => worker in w.workers
  }

  function Newly(h: History, before: map<EventId, OutboxRow>): map<EventId, Issue> {
    map id | id in h.db.outbox && id !in before ::
      Issue(h.db.outbox[id].book, h.db.outbox[id].sequence, Epoch(h, h.db.outbox[id].book), h.db.outbox[id].payload)
  }

  function WithOutbox(h: History, outbox: map<EventId, OutboxRow>): History {
    h.(db := h.db.(outbox := outbox))
  }

  function Dispose(w: World, worker: Id): World
    requires worker in w.workers && w.workers[worker].batch != []
  {
    w.(workers := w.workers[worker := Worker(w.workers[worker].batch[1..], Ready)])
  }

  ghost function Perform(w: World, m: Move): World
    requires Enabled(w, m)
  {
    match m
    case Transact(s) =>
      var next := Lifecycle.Next(w.h, s);
      w.(h := next, issued := w.issued + Newly(next, w.h.db.outbox))
    case Claim(worker, now, lease, batch) =>
      w.(h := WithOutbox(w.h, Leased(w.h.db.outbox, (set id | id in batch), now + lease)),
         workers := w.workers[worker := Worker(batch, Ready)])
    case Publish(worker, accepted, sent) =>
      var batch := w.workers[worker].batch;
      var routed := if sent.routed then w.routed + {batch[0]} else w.routed;
      if accepted then w.(workers := w.workers[worker := Worker(batch, Confirmed)],
          confirmed := w.confirmed + [batch[0]], routed := routed)
      else w.(workers := w.workers[worker := Worker(batch, Refused)], routed := routed)
    case Mark(worker, now, marked) =>
      var id := w.workers[worker].batch[0];
      var done := Dispose(w, worker);
      if marked then done.(h := WithOutbox(w.h, Catalog.Published(w.h.db.outbox, id, now))) else done
    case Retry(worker, at, retried) =>
      var id := w.workers[worker].batch[0];
      var done := Dispose(w, worker);
      if retried then done.(h := WithOutbox(w.h, Retried(w.h.db.outbox, id, at))) else done
    case Abandon(worker) => w.(workers := w.workers - {worker})
  }

  ghost predicate Path(w: World, moves: seq<Move>)
    decreases |moves|
  {
    moves == [] || (Enabled(w, moves[0]) && Path(Perform(w, moves[0]), moves[1..]))
  }

  ghost function Arrive(w: World, moves: seq<Move>): World
    requires Path(w, moves)
    decreases |moves|
  {
    if moves == [] then w else Arrive(Perform(w, moves[0]), moves[1..])
  }

  // ---------------------------------------------------------------------
  // The invariant

  /** `a` must be confirmed before `b`. */
  predicate Precedes(a: Issue, b: Issue) {
    a.book == b.book && a.epoch == b.epoch && a.sequence < b.sequence
  }

  /** Everything that precedes `id` is among `done`. */
  predicate Led(issued: map<EventId, Issue>, id: EventId, done: seq<EventId>) {
    id in issued && forall p :: p in issued && Precedes(issued[p], issued[id]) ==> p in done
  }

  predicate RowIssued(h: History, issued: map<EventId, Issue>, id: EventId) {
    id in h.db.outbox && id in issued &&
    issued[id] == Issue(h.db.outbox[id].book, h.db.outbox[id].sequence, Epoch(h, h.db.outbox[id].book),
        h.db.outbox[id].payload)
  }

  /** The table holds exactly the rows issued in the current epoch of their book. */
  predicate TableTracked(h: History, issued: map<EventId, Issue>) {
    && (forall id :: id in h.db.outbox ==> RowIssued(h, issued, id))
    && (forall id :: id in issued ==>
          issued[id].book in h.db.books && issued[id].epoch <= Epoch(h, issued[id].book)
          && (issued[id].epoch == Epoch(h, issued[id].book) ==> id in h.db.outbox)
          && (id.FinalDeletion? ==> issued[id].book == id.book && issued[id].epoch == 1))
  }

  /** Within an epoch of a book a sequence names one row. */
  predicate SequencesUnique(issued: map<EventId, Issue>) {
    forall a, b :: a in issued && b in issued && SamePlace(issued[a], issued[b]) ==> a == b
  }

  predicate SamePlace(a: Issue, b: Issue) {
    a.book == b.book && a.epoch == b.epoch && a.sequence == b.sequence
  }

  predicate MarksEarned(outbox: map<EventId, OutboxRow>, confirmed: seq<EventId>) {
    forall id :: id in outbox && outbox[id].publishedAt.Some? ==> id in confirmed
  }

  predicate BatchesLed(issued: map<EventId, Issue>, workers: map<Id, Worker>, confirmed: seq<EventId>) {
    forall k :: k in workers ==>
      && (forall i :: 0 <= i < |workers[k].batch| ==> Led(issued, workers[k].batch[i], confirmed))
      && (workers[k].batch != [] && workers[k].phase == Confirmed ==> workers[k].batch[0] in confirmed)
  }

  predicate LogLed(issued: map<EventId, Issue>, confirmed: seq<EventId>) {
    forall i :: 0 <= i < |confirmed| ==> Led(issued, confirmed[i], confirmed[..i])
  }

  ghost predicate Sound(w: World) {
    && Inv(w.h)
    && TableTracked(w.h, w.issued)
    && SequencesUnique(w.issued)
    && MarksEarned(w.h.db.outbox, w.confirmed)
    && BatchesLed(w.issued, w.workers, w.confirmed)
    && LogLed(w.issued, w.confirmed)
  }

  // ---------------------------------------------------------------------
  // What a transaction does to the table

  /** Rows are only added, for one book, behind its rows; no book changes epoch. */
  predicate Gains(h: History, next: History, book: Id) {
    && next.db.books.Keys == h.db.books.Keys + {book}
    && (forall b :: b in h.db.books ==> Epoch(next, b) == Epoch(h, b))
    && Epoch(next, book) == Epoch(h, book)
    && (forall id :: id in h.db.outbox ==> id in next.db.outbox && next.db.outbox[id] == h.db.outbox[id])
    && (forall id :: id in next.db.outbox && id !in h.db.outbox ==>
          next.db.outbox[id].book == book && next.db.outbox[id].publishedAt.None?)
    && (forall id, p ::
          id in next.db.outbox && id !in h.db.outbox && p in h.db.outbox && h.db.outbox[p].book == book ==>
          h.db.outbox[p].sequence < next.db.outbox[id].sequence)
    && (forall id, q ::
          id in next.db.outbox && id !in h.db.outbox && q in next.db.outbox && q !in h.db.outbox && id != q ==>
          next.db.outbox[id].sequence != next.db.outbox[q].sequence)
  }

  /** One book's rows give way to its final row, and its epoch to the next. */
  predicate Purges(h: History, next: History, book: Id, final: EventId) {
    && next.db.books.Keys == h.db.books.Keys && book in h.db.books
    && (forall b :: b in h.db.books && b != book ==> Epoch(next, b) == Epoch(h, b))
    && Epoch(h, book) == 0 && Epoch(next, book) == 1
    && final.FinalDeletion? && final.book == book && final !in h.db.outbox
    && final in next.db.outbox && next.db.outbox[final].book == book && next.db.outbox[final].publishedAt.None?
    && (forall id :: id in next.db.outbox && id != final ==>
          id in h.db.outbox && h.db.outbox[id].book != book && next.db.outbox[id] == h.db.outbox[id])
    && (forall id :: id in h.db.outbox && h.db.outbox[id].book != book ==> id in next.db.outbox)
  }

  /** Nothing but perhaps the fields of one row of `books` changed. */
  predicate Rests(h: History, next: History) {
    && next.db.outbox == h.db.outbox && next.db.books.Keys == h.db.books.Keys
    && forall b :: b in h.db.books ==> Epoch(next, b) == Epoch(h, b)
  }

  ghost predicate TableMoves(h: History, s: Step, next: History) {
    || Rests(h, next)
    || (Gains(h, next, BookOf(s)) && forall id :: id in next.db.outbox && id !in h.db.outbox ==> id in GeneratedKeys(s))
    || exists final :: Purges(h, next, BookOf(s), final)
  }

  lemma UploadGains(h: History, s: Step)
    requires Inv(h) && s.Upload? && TxOf(h.db, s).Committed?
    ensures TableMoves(h, s, Next(h, s))
  {
    hide Next, TxOf, Inv, Gains, InsertAll;
    UploadEffect(h, s);
    InTables(h);
    var row := UploadedRow(s.content, s.now);
    PairGains(h, Next(h, s), s.book, row, s.uploadedId,
        FreshRow(s.book, 0, Uploaded(row.content, row.lifecycle), s.now),
              s.statusId, FreshRow(s.book, 1, StatusChanged(StatusOf(s.statusId, s.book, row)), s.now));
  }

  lemma PairGains(h: History, next: History, book: Id, row: Row, k: EventId, r: OutboxRow, k': EventId, r': OutboxRow)
    requires TablesOk(h) && book !in h.db.books && !row.status.Deleted?
    requires k !in h.db.outbox && k' !in h.db.outbox && r.book == r'.book == book && r.publishedAt.None?
        && r'.publishedAt.None?
    requires r.sequence != r'.sequence
    requires next.db.books == h.db.books[book := row] && next.db.outbox == h.db.outbox[k := r][k' := r']
    ensures Gains(h, next, book)
  {
  }

  lemma ReportMoves(h: History, s: Step)
    requires Inv(h) && s.Report? && Possible(h, s)
    ensures TableMoves(h, s, Next(h, s))
  {
    hide Inv, Next, Judge, RowOk, CommandsOk, LedgerOk, OutboxOk;
    var e := s.event;
    if TxOf(h.db, s).Committed? && Screened(h.db, e).None? {
      ReportEffect(h, s);
      InLedger(h, e.book);
      if Judge(h.db.books[e.book], e.fact).Accepted? {
        AcceptedOk(h.db.books[e.book], e, s.eventStatusId);
        assert Gains(h, Next(h, s), e.book);
      }
    } else {
      Lifecycle.Refused(h, s);
    }
  }

  lemma DirectMoves(h: History, s: Step)
    requires Inv(h) && s.Direct? && Possible(h, s)
    ensures TableMoves(h, s, Next(h, s))
  {
    hide Inv, Next, RowOk, CommandsOk, LedgerOk, OutboxOk;
    DirectEffect(h, s);
    var next, c := Next(h, s), s.command;
    if next != h {
      var row :| Accepts(h, c, row, next);
      InLedger(h, c.book);
      CommandedOk(h.db.books[c.book], c, c.statusId);
      hide Commanded;
      assert Gains(h, next, c.book);
    }
  }

  /** The third flag is set: the book is purged. */
  lemma LastAckPurges(h: History, next: History, book: Id, marked: Row, now: Time)
    requires Inv(h) && Erases(h, next, book, marked, now)
    ensures exists final :: Purges(h, next, book, final)
  {
    hide Inv, AllGone, CommandsOk, StatusOf;
    var row := Tombstone(marked, now);
    var final := FinalId(book, row);
    InTables(h);
    NoFinalRow(h, book, final);
    StatusNames(final, book, row);
    assert final !in WithoutBook(h.db.outbox, book);
    assert Purges(h, next, book, final);
  }

  /** Not yet: only the row of the book changes. */
  lemma EarlierAckRests(h: History, next: History, book: Id, marked: Row)
    requires Quiet(h, next, book, marked)
    ensures Rests(h, next)
  {
    hide RowOk;
  }

  lemma AckMoves(h: History, s: Step)
    requires Inv(h) && (s.OriginalGone? || s.AckArrives?)
    ensures TableMoves(h, s, Next(h, s))
  {
    hide Inv, Next, Marked, Erases, Quiet, AllGone, Purges, Gains, Unheeded, Counts;
    if s.OriginalGone? { OriginalEffect(h, s); } else { ArrivalEffect(h, s); }
    var next := Next(h, s);
    if next != h {
      var book := BookOf(s);
      var marked := Marked(h.db.books[book], s);
      if h.db.books[book].status.Deleting? && AllGone(marked) {
        LastAckPurges(h, next, book, marked, AckTime(s));
      } else {
        EarlierAckRests(h, next, book, marked);
      }
    }
  }

  lemma TransactionMoves(h: History, s: Step)
    requires Inv(h) && !s.Deliver? && Possible(h, s)
    ensures TableMoves(h, s, Next(h, s))
  {
    hide Inv, Next, TableMoves;
    match s
    case Upload(_, _, _, _, _) =>
      if TxOf(h.db, s).Committed? { UploadGains(h, s); } else { Unmoved(h, s); }
    case Report(_, _, _) => ReportMoves(h, s);
    case Direct(_) => DirectMoves(h, s);
    case OriginalGone(_, _, _, _) => AckMoves(h, s);
    case AckArrives(_, _) => AckMoves(h, s);
  }

  lemma Unmoved(h: History, s: Step)
    requires TxOf(h.db, s).RolledBack?
    ensures TableMoves(h, s, Next(h, s))
  {
    assert Rests(h, Next(h, s));
  }

  // ---------------------------------------------------------------------
  // Preservation

  lemma TransactTracked(h: History, s: Step, next: History, issued: map<EventId, Issue>)
    requires TableTracked(h, issued) && TablesOk(h) && TableMoves(h, s, next) && GeneratedKeys(s) !! issued.Keys
        && Possible(h, s)
    ensures TableTracked(next, issued + Newly(next, h.db.outbox))
    ensures Newly(next, h.db.outbox).Keys !! issued.Keys
  {
    hide TableTracked, TablesOk, Gains, Purges, Rests;
    if Rests(h, next) {
      RestTracked(h, next, issued);
    } else if Gains(h, next, BookOf(s))
        && forall id :: id in next.db.outbox && id !in h.db.outbox ==> id in GeneratedKeys(s) {
      GainTracked(h, next, BookOf(s), issued);
    } else {
      var final :| Purges(h, next, BookOf(s), final);
      PurgeTracked(h, next, BookOf(s), final, issued);
    }
  }

  lemma RestTracked(h: History, next: History, issued: map<EventId, Issue>)
    requires TableTracked(h, issued) && Rests(h, next) && TablesOk(h)
    ensures TableTracked(next, issued + Newly(next, h.db.outbox)) && Newly(next, h.db.outbox).Keys !! issued.Keys
  {
    assert Newly(next, h.db.outbox) == map[];
    assert issued + Newly(next, h.db.outbox) == issued;
    assert forall id :: RowIssued(h, issued, id) ==> RowIssued(next, issued, id);
  }

  lemma GainTracked(h: History, next: History, book: Id, issued: map<EventId, Issue>)
    requires TableTracked(h, issued) && Gains(h, next, book) && TablesOk(h)
    requires forall id :: id in next.db.outbox && id !in h.db.outbox ==> id.Generated? && id !in issued
    ensures TableTracked(next, issued + Newly(next, h.db.outbox)) && Newly(next, h.db.outbox).Keys !! issued.Keys
  {
    var grown := issued + Newly(next, h.db.outbox);
    forall id | id in next.db.outbox ensures RowIssued(next, grown, id) {
      if id in h.db.outbox {
        assert RowIssued(h, issued, id);
      }
    }
  }

  lemma PurgeTracked(h: History, next: History, book: Id, final: EventId, issued: map<EventId, Issue>)
    requires TableTracked(h, issued) && Purges(h, next, book, final)
    ensures TableTracked(next, issued + Newly(next, h.db.outbox)) && Newly(next, h.db.outbox).Keys !! issued.Keys
  {
    var grown := issued + Newly(next, h.db.outbox);
    assert final !in issued;
    forall id | id in next.db.outbox ensures RowIssued(next, grown, id) {
      if id != final {
        assert RowIssued(h, issued, id);
      }
    }
    forall id | id in issued && issued[id].epoch == Epoch(next, issued[id].book) ensures id in next.db.outbox {
      assert issued[id].book != book;
      assert RowIssued(h, issued, id);
    }
  }

  /** New rows stand behind everything of their epoch, so they precede nothing
      that is claimed or confirmed. */
  lemma NewPrecedeNone(h: History, s: Step, next: History, issued: map<EventId, Issue>, q: EventId, id: EventId)
    requires TableTracked(h, issued) && TableMoves(h, s, next) && TablesOk(h)
    requires q in next.db.outbox && q !in h.db.outbox && id in issued
    ensures !Precedes(Newly(next, h.db.outbox)[q], issued[id])
    ensures var issue := Newly(next, h.db.outbox)[q];
            !(issue.book == issued[id].book && issue.epoch == issued[id].epoch && issue.sequence == issued[id].sequence)
  {
    var book := BookOf(s);
    if issued[id].book == book && issued[id].epoch == Epoch(h, book) {
      assert RowIssued(h, issued, id);
    }
    if !Gains(h, next, book) {
      var final :| Purges(h, next, book, final);
      assert q == final;
    }
  }

  lemma TransactLed(h: History, s: Step, next: History, issued: map<EventId, Issue>, id: EventId, done: seq<EventId>)
    requires TableTracked(h, issued) && TableMoves(h, s, next) && TablesOk(h)
        && Newly(next, h.db.outbox).Keys !! issued.Keys
    requires Led(issued, id, done)
    ensures Led(issued + Newly(next, h.db.outbox), id, done)
  {
    hide TableTracked, TableMoves, TablesOk;
    var grown := issued + Newly(next, h.db.outbox);
    forall p | p in grown && Precedes(grown[p], grown[id]) ensures p in done {
      if p !in issued {
        NewPrecedeNone(h, s, next, issued, p, id);
      }
    }
  }

  lemma TransactUnique(h: History, s: Step, next: History, issued: map<EventId, Issue>)
    requires TableTracked(h, issued) && TableMoves(h, s, next) && TablesOk(h)
        && Newly(next, h.db.outbox).Keys !! issued.Keys
    requires SequencesUnique(issued)
    ensures SequencesUnique(issued + Newly(next, h.db.outbox))
  {
    hide TableTracked, TablesOk, Purges;
    var added := Newly(next, h.db.outbox);
    forall q, id | q in added && id in issued
      ensures !(added[q].book == issued[id].book && added[q].epoch == issued[id].epoch
          && added[q].sequence == issued[id].sequence)
    {
      NewPrecedeNone(h, s, next, issued, q, id);
    }
    forall q, r | q in added && r in added && added[q].sequence == added[r].sequence ensures q == r {
      NewDistinct(h, s, next, q, r);
    }
  }

  lemma NewDistinct(h: History, s: Step, next: History, q: EventId, r: EventId)
    requires TableMoves(h, s, next)
    requires q in next.db.outbox && q !in h.db.outbox && r in next.db.outbox && r !in h.db.outbox
    requires next.db.outbox[q].sequence == next.db.outbox[r].sequence
    ensures q == r
  {
    if !Gains(h, next, BookOf(s)) {
      var final :| Purges(h, next, BookOf(s), final);
    }
  }

  lemma TransactMarks(h: History, s: Step, next: History, confirmed: seq<EventId>)
    requires MarksEarned(h.db.outbox, confirmed) && TableMoves(h, s, next)
    ensures MarksEarned(next.db.outbox, confirmed)
  {
    forall id | id in next.db.outbox && next.db.outbox[id].publishedAt.Some? ensures id in confirmed {
      assert id in h.db.outbox && next.db.outbox[id] == h.db.outbox[id];
    }
  }

  lemma TransactSound(w: World, s: Step)
    requires Sound(w) && Enabled(w, Transact(s))
    ensures Sound(Perform(w, Transact(s)))
  {
    hide Inv, TableMoves, TableTracked, Led, MarksEarned, Lifecycle.Next;
    var next := Lifecycle.Next(w.h, s);
    TransactionMoves(w.h, s);
    StepKeeps(w.h, s);
    InTables(w.h);
    TransactTracked(w.h, s, next, w.issued);
    TransactMarks(w.h, s, next, w.confirmed);
    TransactUnique(w.h, s, next, w.issued);
    hide SequencesUnique;
    forall id, done | Led(w.issued, id, done) ensures Led(w.issued + Newly(next, w.h.db.outbox), id, done) {
      TransactLed(w.h, s, next, w.issued, id, done);
    }
  }

  /** Any change to lease columns keeps the history and the tracking. */
  lemma LeasesSound(h: History, issued: map<EventId, Issue>, outbox: map<EventId, OutboxRow>)
    requires Inv(h) && TableTracked(h, issued) && SameRows(h.db.outbox, outbox)
    ensures Inv(WithOutbox(h, outbox)) && TableTracked(WithOutbox(h, outbox), issued)
  {
    hide Inv;
    DeliverKeeps(h, outbox);
    Delivers(h, outbox);
    assert forall id :: RowIssued(h, issued, id) ==> RowIssued(WithOutbox(h, outbox), issued, id);
  }

  /** A claimable row is led: whatever precedes it was published, hence confirmed. */
  lemma ClaimedIsLed(w: World, now: Time, id: EventId)
    requires TableTracked(w.h, w.issued) && MarksEarned(w.h.db.outbox, w.confirmed) && Claimable(w.h.db.outbox, id, now)
    ensures Led(w.issued, id, w.confirmed)
  {
    assert RowIssued(w.h, w.issued, id);
    forall p | p in w.issued && Precedes(w.issued[p], w.issued[id]) ensures p in w.confirmed {
      assert RowIssued(w.h, w.issued, p);
    }
  }

  lemma ClaimSound(w: World, m: Move)
    requires Sound(w) && m.Claim? && Enabled(w, m)
    ensures Sound(Perform(w, m))
  {
    hide Inv, TableTracked, Led, Claimable;
    var outbox := Leased(w.h.db.outbox, (set id | id in m.batch), m.now + m.lease);
    assert SameRows(w.h.db.outbox, outbox) && MarksEarned(outbox, w.confirmed);
    LeasesSound(w.h, w.issued, outbox);
    forall i | 0 <= i < |m.batch| ensures Led(w.issued, m.batch[i], w.confirmed) {
      ClaimedIsLed(w, m.now, m.batch[i]);
    }
  }

  lemma LedOn(issued: map<EventId, Issue>, id: EventId, done: seq<EventId>, more: seq<EventId>)
    requires Led(issued, id, done)
    ensures Led(issued, id, done + more)
  {
  }

  lemma PublishSound(w: World, m: Move)
    requires Sound(w) && m.Publish? && Enabled(w, m)
    ensures Sound(Perform(w, m))
  {
    hide Inv, TableTracked, Led;
    var next := Perform(w, m);
    var id := w.workers[m.publisher].batch[0];
    forall k, i | k in w.workers && 0 <= i < |w.workers[k].batch| ensures Led(w.issued, w.workers[k].batch[i],
        w.confirmed + [id]) {
      LedOn(w.issued, w.workers[k].batch[i], w.confirmed, [id]);
    }
    forall i | 0 <= i < |next.confirmed| ensures Led(w.issued, next.confirmed[i], next.confirmed[..i]) {
      if i < |w.confirmed| {
        assert next.confirmed[..i] == w.confirmed[..i];
      } else {
        assert next.confirmed[..i] == w.confirmed;
      }
    }
  }

  lemma SettleSound(w: World, m: Move)
    requires Sound(w) && (m.Mark? || m.Retry? || m.Abandon?) && Enabled(w, m)
    ensures Sound(Perform(w, m))
  {
    hide Inv, TableTracked, Led;
    match m {
      case Mark(worker, now, marked) =>
        var id := w.workers[worker].batch[0];
        LeasesSound(w.h, w.issued, Catalog.Published(w.h.db.outbox, id, now));
        assert MarksEarned(Catalog.Published(w.h.db.outbox, id, now), w.confirmed);
      case Retry(worker, at, retried) =>
        var id := w.workers[worker].batch[0];
        LeasesSound(w.h, w.issued, Retried(w.h.db.outbox, id, at));
        assert MarksEarned(Retried(w.h.db.outbox, id, at), w.confirmed);
      case Abandon(worker) =>
    }
  }

  lemma MoveSound(w: World, m: Move)
    requires Sound(w) && Enabled(w, m)
    ensures Sound(Perform(w, m))
  {
    hide Sound, Perform, Enabled;
    match m
    case Transact(s) => TransactSound(w, s);
    case Claim(_, _, _, _) => ClaimSound(w, m);
    case Publish(_, _, _) => PublishSound(w, m);
    case Mark(_, _, _) => SettleSound(w, m);
    case Retry(_, _, _) => SettleSound(w, m);
    case Abandon(_) => SettleSound(w, m);
  }

  lemma {:induction false} PathSound(w: World, moves: seq<Move>)
    requires Sound(w) && Path(w, moves)
    ensures Sound(Arrive(w, moves))
    decreases |moves|
  {
    hide Sound, Perform, Enabled;
    if moves != [] {
      MoveSound(w, moves[0]);
      PathSound(Perform(w, moves[0]), moves[1..]);
    }
  }

  lemma StartSound()
    ensures Sound(START)
  {
    BlankOk();
  }

  // ---------------------------------------------------------------------
  // The theorems

  /** Over every run of any number of workers, through crashes, expired leases,
      double claims, failed publications and failed marks: no event of a book is
      confirmed before every earlier event of the same book has been, up to the
      purge that starts the book's final epoch. */
  lemma ConfirmedInOrder(moves: seq<Move>, i: nat, earlier: EventId)
    requires Path(START, moves)
    requires i < |Arrive(START, moves).confirmed| && earlier in Arrive(START, moves).issued
    requires var w := Arrive(START, moves);
             w.confirmed[i] in w.issued ==> Precedes(w.issued[earlier], w.issued[w.confirmed[i]])
    ensures exists j :: 0 <= j < i && Arrive(START, moves).confirmed[j] == earlier
  {
    StartSound();
    PathSound(START, moves);
    var w := Arrive(START, moves);
    hide Inv, TableTracked, Path, Arrive;
    assert Led(w.issued, w.confirmed[i], w.confirmed[..i]);
    assert earlier in w.confirmed[..i];
  }

  /** Every event ever committed is confirmed, or still in the table, unpublished
      and as it was written, or was purged with its deleted book. */
  lemma NothingIsLost(moves: seq<Move>, id: EventId)
    requires Path(START, moves) && id in Arrive(START, moves).issued
    ensures var w := Arrive(START, moves);
            var issue := w.issued[id];
            || id in w.confirmed
            || (id in w.h.db.outbox && w.h.db.outbox[id].publishedAt.None? && w.h.db.outbox[id].payload == issue.payload
                && w.h.db.outbox[id].book == issue.book && w.h.db.outbox[id].sequence == issue.sequence)
            || (issue.epoch == 0 && issue.book in w.h.db.books && w.h.db.books[issue.book].status.Deleted?)
  {
    StartSound();
    PathSound(START, moves);
    var w := Arrive(START, moves);
    hide Inv, Path, Arrive, BatchesLed, LogLed;
    if id in w.h.db.outbox {
      assert RowIssued(w.h, w.issued, id);
    }
  }

  // ---------------------------------------------------------------------
  // Across the purge

  /** The event went out of the table with its deleted book. */
  predicate Purged(w: World, id: EventId) {
    id in w.issued && w.issued[id].epoch < Epoch(w.h, w.issued[id].book)
  }

  /** The worker claimed the event, and has not published it in this batch. */
  predicate AboutToPublish(w: World, worker: Id, id: EventId) {
    worker in w.workers && w.workers[worker].batch != [] &&
    var left := if w.workers[worker].phase.Ready? then w.workers[worker].batch else w.workers[worker].batch[1..];
    id in left
  }

  ghost predicate CanBeConfirmed(w: World, id: EventId) {
    exists moves :: Path(w, moves) && ConfirmedOn(w, moves, id)
  }

  /** A publication of the event is confirmed on the way. */
  ghost predicate ConfirmedOn(w: World, moves: seq<Move>, id: EventId)
    requires Path(w, moves)
    decreases |moves|
  {
    moves != [] &&
    (Confirms(w, moves[0], id) || ConfirmedOn(Perform(w, moves[0]), moves[1..], id))
  }

  predicate Confirms(w: World, m: Move, id: EventId) {
    m.Publish? && m.accepted && Busy(w, m.publisher, Ready) && w.workers[m.publisher].batch[0] == id
  }

  /** A purged book stays so. */
  lemma EpochStays(h: History, s: Step, next: History, book: Id)
    requires TableMoves(h, s, next) && Epoch(h, book) == 1
    ensures Epoch(next, book) == 1
  {
    if !Rests(h, next) && !Gains(h, next, BookOf(s)) {
      var final :| Purges(h, next, BookOf(s), final);
    }
  }

  /** Only transactions touch the books and what is issued. */
  lemma WorkersTouchNoBook(w: World, m: Move)
    requires Enabled(w, m) && !m.Transact?
    ensures Perform(w, m).h.db.books == w.h.db.books && Perform(w, m).issued == w.issued
  {
    hide ValidClaim, Mandatory, Delivered;
  }

  lemma PurgedStays(w: World, m: Move, id: EventId)
    requires Sound(w) && Enabled(w, m) && Purged(w, id)
    ensures Purged(Perform(w, m), id)
  {
    hide Sound, Inv, TableTracked, Lifecycle.Next, Newly, TableMoves, Possible, ValidClaim;
    IssuedStays(w, m);
    if m.Transact? {
      SoundHistory(w);
      TransactionMoves(w.h, m.step);
      EpochStays(w.h, m.step, Lifecycle.Next(w.h, m.step), w.issued[id].book);
    } else {
      WorkersTouchNoBook(w, m);
    }
  }

  lemma SoundHistory(w: World)
    requires Sound(w)
    ensures Inv(w.h) && TableTracked(w.h, w.issued)
  {
  }

  lemma PurgedIsOut(w: World, id: EventId)
    requires TableTracked(w.h, w.issued) && Purged(w, id)
    ensures id !in w.h.db.outbox
  {
    assert id in w.h.db.outbox ==> RowIssued(w.h, w.issued, id);
  }

  /** What a worker has before it, it claimed just now or had before. */
  lemma HoldingShrinks(w: World, m: Move, worker: Id, id: EventId)
    requires Enabled(w, m) && AboutToPublish(Perform(w, m), worker, id)
    ensures AboutToPublish(w, worker, id) || (m.Claim? && id in m.batch)
  {
    hide ValidClaim, Mandatory, Delivered, Lifecycle.Next, Newly, Possible;
  }

  lemma ClaimsAreRows(w: World, m: Move, id: EventId)
    requires Enabled(w, m) && m.Claim? && id in m.batch
    ensures id in w.h.db.outbox
  {
    var i :| 0 <= i < |m.batch| && m.batch[i] == id;
    assert Claimable(w.h.db.outbox, m.batch[i], m.now);
  }

  /** Nobody claims it any more. */
  lemma NoLateClaims(w: World, m: Move, worker: Id, id: EventId)
    requires Sound(w) && Enabled(w, m) && Purged(w, id) && AboutToPublish(Perform(w, m), worker, id)
    ensures AboutToPublish(w, worker, id)
  {
    hide Sound, Inv, TableTracked, Purged, Perform, AboutToPublish, Enabled;
    SoundHistory(w);
    PurgedIsOut(w, id);
    HoldingShrinks(w, m, worker, id);
    if m.Claim? && id in m.batch {
      ClaimsAreRows(w, m, id);
    }
  }

  /** Along every run after the purge, only those who held the event then can have it. */
  lemma {:induction false} HeldSincePurge(w: World, moves: seq<Move>, worker: Id, id: EventId)
    requires Sound(w) && Path(w, moves) && Purged(w, id) && AboutToPublish(Arrive(w, moves), worker, id)
    ensures AboutToPublish(w, worker, id)
    decreases |moves|
  {
    hide Sound, Enabled, Perform, AboutToPublish, Purged;
    if moves != [] {
      MoveSound(w, moves[0]);
      PurgedStays(w, moves[0], id);
      HeldSincePurge(Perform(w, moves[0]), moves[1..], worker, id);
      NoLateClaims(w, moves[0], worker, id);
    }
  }

  lemma {:induction false} ConfirmedIsHeld(w: World, moves: seq<Move>, id: EventId) returns (worker: Id)
    requires Sound(w) && Path(w, moves) && Purged(w, id) && ConfirmedOn(w, moves, id)
    ensures AboutToPublish(w, worker, id)
    decreases |moves|
  {
    hide Sound, Enabled, Perform, Purged;
    var m := moves[0];
    if Confirms(w, m, id) {
      worker := m.publisher;
    } else {
      MoveSound(w, m);
      PurgedStays(w, m, id);
      worker := ConfirmedIsHeld(Perform(w, m), moves[1..], id);
      NoLateClaims(w, m, worker, id);
    }
  }

  /** Puts the head of the batch behind it, unless that is the one to publish. */
  function Skip(w: World, worker: Id): Move
    requires worker in w.workers && w.workers[worker].batch != []
  {
    match w.workers[worker].phase
    case Ready => Publish(worker, false, Publication(Mandatory(w.issued, w.workers[worker].batch[0]), false, false))
    case Confirmed => Mark(worker, 0, false)
    case Refused => Retry(worker, 0, false)
  }

  lemma SkipLeaves(w: World, worker: Id)
    requires worker in w.workers && w.workers[worker].batch != []
    ensures Enabled(w, Skip(w, worker))
    ensures var next := Perform(w, Skip(w, worker));
            && next.issued == w.issued && worker in next.workers
            && next.workers[worker] == if w.workers[worker].phase.Ready? then Worker(w.workers[worker].batch, Refused)
                                       else Worker(w.workers[worker].batch[1..], Ready)
  {
  }

  lemma {:induction false} HolderCanConfirm(w: World, worker: Id, id: EventId) returns (moves: seq<Move>)
    requires AboutToPublish(w, worker, id)
    ensures Path(w, moves) && ConfirmedOn(w, moves, id)
    decreases |w.workers[worker].batch|, w.workers[worker].phase.Ready?
  {
    hide Perform, Enabled;
    var held := w.workers[worker];
    if held.phase.Ready? && held.batch[0] == id {
      var m := Publish(worker, true, Publication(Mandatory(w.issued, id), true, true));
      assert Enabled(w, m) && Confirms(w, m, id) by { ReadyCanPublish(w, worker); }
      moves := [m];
      assert moves[1..] == [];
      assert Path(Perform(w, m), []);
    } else {
      var m := Skip(w, worker);
      SkipLeaves(w, worker);
      assert held.phase.Ready? ==> id in held.batch[1..];
      var rest := HolderCanConfirm(Perform(w, m), worker, id);
      moves := [m] + rest;
      assert moves[1..] == rest;
    }
  }

  lemma ReadyCanPublish(w: World, worker: Id)
    requires Busy(w, worker, Ready)
    ensures Enabled(w, Publish(worker, true, Publication(Mandatory(w.issued, w.workers[worker].batch[0]), true, true)))
  {
  }

  /** The order of ConfirmedInOrder ends at the purge: from any state after it, an
      event that was purged can still be confirmed, and so after the deleted event of
      its book, exactly if a worker that claimed it before has yet to publish it. */
  lemma LateExactly(w: World, id: EventId)
    requires Sound(w) && Purged(w, id)
    ensures CanBeConfirmed(w, id) <==> exists worker :: AboutToPublish(w, worker, id)
  {
    hide Sound, Path, ConfirmedOn, Purged, AboutToPublish;
    if CanBeConfirmed(w, id) {
      var moves :| Path(w, moves) && ConfirmedOn(w, moves, id);
      var worker := ConfirmedIsHeld(w, moves, id);
    }
    if worker :| AboutToPublish(w, worker, id) {
      var moves := HolderCanConfirm(w, worker, id);
    }
  }

  // ---------------------------------------------------------------------
  // Confirmed and routed

  /** Whatever was confirmed and had to be routed was. */
  predicate RoutedOk(w: World) {
    forall id :: id in w.confirmed && Mandatory(w.issued, id) ==> id in w.routed
  }

  /** What was issued stays as it was issued. */
  predicate Extends(issued: map<EventId, Issue>, later: map<EventId, Issue>) {
    forall id :: id in issued ==> id in later && later[id] == issued[id]
  }

  lemma IssuedStays(w: World, m: Move)
    requires Sound(w) && Enabled(w, m)
    ensures Extends(w.issued, Perform(w, m).issued)
  {
    if m.Transact? {
      hide Inv, TableMoves, TableTracked, Led, MarksEarned, Lifecycle.Next, Newly;
      var next := Lifecycle.Next(w.h, m.step);
      TransactionMoves(w.h, m.step);
      InTables(w.h);
      TransactTracked(w.h, m.step, next, w.issued);
    } else {
      hide Inv, TableTracked, Led, MarksEarned, ValidClaim, Possible;
    }
  }

  lemma MoveRouted(w: World, m: Move)
    requires Sound(w) && RoutedOk(w) && Enabled(w, m)
    ensures RoutedOk(Perform(w, m))
  {
    hide Sound, Enabled, Perform, PublicationRoute;
    IssuedStays(w, m);
    ConfirmedIssued(w);
    MoveConfirms(w, m);
  }

  /** Only a publication adds to what is confirmed, and it adds an event that is
      routed if it has to be. */
  lemma MoveConfirms(w: World, m: Move)
    requires Enabled(w, m)
    ensures var next := Perform(w, m);
            && w.routed <= next.routed
            && forall id :: id in next.confirmed && id !in w.confirmed
                 ==> (Mandatory(w.issued, id) ==> id in next.routed) && next.issued == w.issued
  {
    hide Lifecycle.Next, Newly, Mandatory, ValidClaim, Possible;
  }

  lemma ConfirmedIssued(w: World)
    requires Sound(w)
    ensures forall id :: id in w.confirmed ==> id in w.issued
  {
    hide Inv, TableTracked, SequencesUnique, MarksEarned, BatchesLed;
    forall id | id in w.confirmed ensures id in w.issued {
      var i :| 0 <= i < |w.confirmed| && w.confirmed[i] == id;
      assert Led(w.issued, w.confirmed[i], w.confirmed[..i]);
    }
  }

  lemma {:induction false} PathRouted(w: World, moves: seq<Move>)
    requires Sound(w) && RoutedOk(w) && Path(w, moves)
    ensures RoutedOk(Arrive(w, moves))
    decreases |moves|
  {
    hide Sound, Perform, Enabled, RoutedOk;
    if moves != [] {
      MoveSound(w, moves[0]);
      MoveRouted(w, moves[0]);
      PathRouted(Perform(w, moves[0]), moves[1..]);
    }
  }

  /** An upload, or a request to reindex or to delete, that was ever committed has
      reached a queue, or is still in the table as it was written, or was purged
      with its deleted book. */
  lemma RequestsReachQueues(moves: seq<Move>, id: EventId)
    requires Path(START, moves) && Mandatory(Arrive(START, moves).issued, id)
    ensures var w := Arrive(START, moves);
            var issue := w.issued[id];
            || id in w.routed
            || (id in w.h.db.outbox && w.h.db.outbox[id].publishedAt.None?
                 && w.h.db.outbox[id].payload == issue.payload)
            || (issue.epoch == 0 && issue.book in w.h.db.books && w.h.db.books[issue.book].status.Deleted?)
    ensures var payload := Arrive(START, moves).issued[id].payload;
            !payload.StatusChanged? && PublicationRoute(payload).exchange == EventsExchange
  {
    hide Path, Arrive, Sound;
    StartSound();
    PathRouted(START, moves);
    NothingIsLost(moves, id);
  }

  /** Over every run, what was confirmed and reached no queue is a status event, on
      its way to Edge. */
  lemma OnlyStatusEventsVanish(moves: seq<Move>, id: EventId)
    requires Path(START, moves) && id in Arrive(START, moves).confirmed && id !in Arrive(START, moves).routed
    ensures var w := Arrive(START, moves);
            && id in w.issued && w.issued[id].payload.StatusChanged?
            && PublicationRoute(w.issued[id].payload).exchange == EdgeStatusExchange
  {
    hide Path, Arrive, Sound;
    StartSound();
    PathSound(START, moves);
    PathRouted(START, moves);
    ConfirmedIssued(Arrive(START, moves));
  }

  /** A worker that is about to publish can have a success without a queue exactly
      when the event at hand is a status event: those are not mandatory. */
  lemma SuccessWithoutQueue(w: World, me: Id)
    requires Busy(w, me, Ready)
    ensures (exists sent :: Enabled(w, Publish(me, true, sent)) && !sent.routed)
        <==> !Mandatory(w.issued, w.workers[me].batch[0])
    ensures !Mandatory(w.issued, w.workers[me].batch[0]) ==>
              var lost := Publish(me, true, Publication(false, false, true));
              Enabled(w, lost) && Perform(w, lost).confirmed == w.confirmed + [w.workers[me].batch[0]]
                  && Perform(w, lost).routed == w.routed
  {
    if !Mandatory(w.issued, w.workers[me].batch[0]) {
      var lost := Publication(false, false, true);
      assert Enabled(w, Publish(me, true, lost)) && !lost.routed;
    }
  }

  /** Two rows that are claimable together belong to different books. */
  lemma ClaimsTakeOnePerBook(moves: seq<Move>, now: Time, a: EventId, b: EventId)
    requires Path(START, moves)
    requires var outbox := Arrive(START, moves).h.db.outbox;
             Claimable(outbox, a, now) && Claimable(outbox, b, now) && outbox[a].book == outbox[b].book
    ensures a == b
  {
    hide Inv, Path, Arrive, BatchesLed, LogLed;
    StartSound();
    PathSound(START, moves);
    var w := Arrive(START, moves);
    assert RowIssued(w.h, w.issued, a) && RowIssued(w.h, w.issued, b);
  }

  /** No book is stuck: the first of its unpublished rows can be claimed once its
      retry time has come and its lease has run out, whoever held it. */
  lemma HeadBecomesClaimable(outbox: map<EventId, OutboxRow>, book: Id, now: Time)
    requires exists id :: id in outbox && outbox[id].book == book && outbox[id].publishedAt.None?
    requires forall id :: id in outbox && outbox[id].book == book && outbox[id].publishedAt.None? ==>
               outbox[id].nextAttemptAt <= now && (outbox[id].leasedUntil.Some? ==> outbox[id].leasedUntil.value <= now)
    ensures exists id :: Claimable(outbox, id, now) && outbox[id].book == book
  {
    var open := set id | id in outbox && outbox[id].book == book && outbox[id].publishedAt.None?;
    var id :| id in outbox && outbox[id].book == book && outbox[id].publishedAt.None?;
    assert id in open;
    var first := LeastSequence(outbox, open);
    assert Claimable(outbox, first, now);
  }

  lemma LeastSequence(outbox: map<EventId, OutboxRow>, ids: set<EventId>) returns (first: EventId)
    requires ids != {} && forall id :: id in ids ==> id in outbox
    ensures first in ids && forall id :: id in ids ==> outbox[first].sequence <= outbox[id].sequence
    decreases |ids|
  {
    var some :| some in ids;
    if ids == {some} {
      first := some;
    } else {
      first := LeastSequence(outbox, ids - {some});
      if outbox[some].sequence < outbox[first].sequence {
        first := some;
      }
    }
  }

  // ---------------------------------------------------------------------
  // The worker

  ghost predicate Leads(w: World, w': World) {
    exists moves :: Path(w, moves) && Arrive(w, moves) == w'
  }

  lemma {:induction false} PathsJoin(w: World, a: seq<Move>, b: seq<Move>)
    requires Path(w, a) && Path(Arrive(w, a), b)
    ensures Path(w, a + b) && Arrive(w, a + b) == Arrive(Arrive(w, a), b)
    decreases |a|
  {
    hide Perform, Enabled;
    if a == [] {
      assert a + b == b;
    } else {
      assert (a + b)[1..] == a[1..] + b;
      PathsJoin(Perform(w, a[0]), a[1..], b);
    }
  }

  lemma LeadsOn(w: World, w': World, w'': World)
    requires Leads(w, w') && Leads(w', w'')
    ensures Leads(w, w'')
  {
    hide Path, Arrive;
    var a :| Path(w, a) && Arrive(w, a) == w';
    var b :| Path(w', b) && Arrive(w', b) == w'';
    PathsJoin(w, a, b);
  }

  lemma LeadsByOne(w: World, w': World, m: Move)
    requires Leads(w, w') && Enabled(w', m)
    ensures Leads(w, Perform(w', m))
  {
    hide Enabled, Perform;
    assert [m][1..] == [];
    assert Path(Perform(w', m), []) && Arrive(Perform(w', m), []) == Perform(w', m);
    assert Path(w', [m]) && Arrive(w', [m]) == Perform(w', m);
    LeadsOn(w, w', Perform(w', m));
  }

  lemma LeadsNowhere(w: World)
    ensures Leads(w, w)
  {
    assert Path(w, []) && Arrive(w, []) == w;
  }

  lemma {:induction false} PathExtends(w: World, moves: seq<Move>)
    requires Sound(w) && Path(w, moves)
    ensures Sound(Arrive(w, moves)) && Extends(w.issued, Arrive(w, moves).issued)
    decreases |moves|
  {
    hide Sound, Perform, Enabled;
    if moves != [] {
      MoveSound(w, moves[0]);
      IssuedStays(w, moves[0]);
      PathExtends(Perform(w, moves[0]), moves[1..]);
    }
  }

  lemma LeadsSoundly(w: World, w': World)
    requires Sound(w) && Leads(w, w')
    ensures Sound(w') && Extends(w.issued, w'.issued)
  {
    hide Sound, Path, Arrive;
    var moves :| Path(w, moves) && Arrive(w, moves) == w';
    PathExtends(w, moves);
  }

  /** A claimed event, as the claim returns it. */
  datatype Claimed = Claimed(id: EventId, payload: Payload)

  function Ids(events: seq<Claimed>): (ids: seq<EventId>)
    ensures |ids| == |events| && forall i :: 0 <= i < |ids| ==> ids[i] == events[i].id
  {
    if events == [] then [] else [events[0].id] + Ids(events[1..])
  }

  /** The payloads are those of the rows, and so of what was issued. */
  predicate Read(w: World, events: seq<Claimed>) {
    forall i :: 0 <= i < |events|
        ==> events[i].id in w.h.db.outbox && w.h.db.outbox[events[i].id].payload == events[i].payload
  }

  predicate Genuine(issued: map<EventId, Issue>, events: seq<Claimed>) {
    forall i :: 0 <= i < |events| ==> events[i].id in issued && issued[events[i].id].payload == events[i].payload
  }

  lemma ReadIsGenuine(w: World, events: seq<Claimed>)
    requires Sound(w) && Read(w, events)
    ensures Genuine(w.issued, events)
  {
    hide Inv, SequencesUnique, MarksEarned, BatchesLed, LogLed;
    forall i | 0 <= i < |events| ensures events[i].id in w.issued
        && w.issued[events[i].id].payload == events[i].payload {
      assert RowIssued(w.h, w.issued, events[i].id);
    }
  }

  /** What a worker did about one event: it published, then marked or put off. */
  datatype Disposal = Disposal(sent: Publication, accepted: bool, recorded: bool, retryAt: Time)

  function MovesOf(me: Id, now: Time, done: seq<Disposal>): seq<Move> {
    if done == [] then []
    else
      var d := done[|done| - 1];
      MovesOf(me, now, done[..|done| - 1])
      + [Publish(me, d.accepted, d.sent), if d.accepted then Mark(me, now, d.recorded)
          else Retry(me, d.retryAt, d.recorded)]
  }

  /** The store, the broker and all other workers, as one worker sees them. Each
      method's contract is everything the worker may rely on. */
  class Deployment {
    ghost var world: World
    ghost var mine: seq<Move>

    constructor ()
      ensures world == START && mine == [] && Sound(world)
    {
      world, mine := START, [];
      StartSound();
    }

    /** Any moves of others. */
    method Interleave(me: Id)
      modifies this`world
      ensures Leads(old(world), world)
      ensures (me in world.workers) == (me in old(world).workers)
      ensures me in world.workers ==> world.workers[me] == old(world).workers[me]
    {
      LeadsNowhere(world);
    }

    method ClaimOutbox(me: Id, now: Time, lease: Time) returns (failed: bool, events: seq<Claimed>)
      requires BatchOf(world, me) == []
      modifies this
      ensures failed ==> world == old(world) && mine == old(mine)
      ensures !failed ==> Read(old(world), events) && Enabled(old(world), Claim(me, now, lease, Ids(events)))
      ensures !failed ==> world == Perform(old(world), Claim(me, now, lease, Ids(events)))
      ensures !failed ==> mine == old(mine) + [Claim(me, now, lease, Ids(events))]
    {
      failed, events := *, [];
      if !failed {
        world := Perform(world, Claim(me, now, lease, []));
        mine := mine + [Claim(me, now, lease, [])];
      }
    }

    /** The publisher says what became of the message (see RabbitPublisher). */
    method PublishWithContext(me: Id, publisher: ReconnectingPublisher, mandatory: bool)
        returns (accepted: bool, ghost sent: Publication)
      requires Busy(world, me, Ready) && mandatory == Mandatory(world.issued, world.workers[me].batch[0])
          && publisher.Valid()
      modifies this, publisher, publisher.publisher
      ensures publisher.Valid()
      ensures publisher.publisher == null || publisher.publisher == old(publisher.publisher)
          || fresh(publisher.publisher)
      ensures Enabled(old(world), Publish(me, accepted, sent))
      ensures world == Perform(old(world), Publish(me, accepted, sent))
          && mine == old(mine) + [Publish(me, accepted, sent)]
    {
      var routed, acked := *, *;
      var p := Publication(mandatory, routed, acked);
      var result := publisher.PublishWithContext(p);
      accepted, sent := result == Success, p;
      world := Perform(world, Publish(me, accepted, sent));
      mine := mine + [Publish(me, accepted, sent)];
    }

    method MarkPublished(me: Id, now: Time) returns (marked: bool)
      requires Busy(world, me, Confirmed)
      modifies this
      ensures world == Perform(old(world), Mark(me, now, marked)) && mine == old(mine) + [Mark(me, now, marked)]
    {
      marked := *;
      world := Perform(world, Mark(me, now, marked));
      mine := mine + [Mark(me, now, marked)];
    }

    /** The store computes the time of the retry (see CatalogRepository). */
    method RetryOutbox(me: Id) returns (retried: bool, at: Time)
      requires Busy(world, me, Refused)
      modifies this
      ensures world == Perform(old(world), Retry(me, at, retried)) && mine == old(mine) + [Retry(me, at, retried)]
    {
      retried, at := *, *;
      world := Perform(world, Retry(me, at, retried));
      mine := mine + [Retry(me, at, retried)];
    }

    method Stop(me: Id)
      requires me in world.workers
      modifies this
      ensures world == Perform(old(world), Abandon(me)) && mine == old(mine) + [Abandon(me)]
    {
      world := Perform(world, Abandon(me));
      mine := mine + [Abandon(me)];
    }

    /** One pass of a worker: it claims, then publishes the events of its batch in
        turn, each followed by its mark or its retry, until the batch or the budget
        is spent. Whatever others do in between and whichever calls fail, the pass
        is a run of the protocol and leaves no claimed event undisposed. */
    method PublishPending(me: Id, publisher: ReconnectingPublisher, now: Time, lease: Time)
      returns (more: bool, ghost claimed: bool, ghost batch: seq<EventId>, ghost done: seq<Disposal>)
      requires BatchOf(world, me) == [] && Sound(world) && publisher.Valid()
      modifies this, publisher, publisher.publisher
      ensures publisher.Valid()
      ensures Leads(old(world), world) && Sound(world) && BatchOf(world, me) == []
      ensures !claimed ==> !more && mine == old(mine)
      ensures claimed && (more || batch == []) ==>
                mine == old(mine) + [Claim(me, now, lease, batch)] + MovesOf(me, now, done) && |done| == |batch|
      ensures claimed && !more && batch != [] ==>
                mine == old(mine) + [Claim(me, now, lease, batch)] + MovesOf(me, now, done) + [Abandon(me)]
                    && |done| < |batch|
      ensures more ==> batch != []
    {
      hide Enabled, Perform, Path, Arrive, Sound, Genuine, Read, Leads, Extends;
      ghost var begun := world;
      Interleave(me);
      LeadsSoundly(begun, world);
      ghost var before := world;
      var failed, events := ClaimOutbox(me, now, lease);
      claimed, batch, done := !failed, Ids(events), [];
      if failed {
        more := false;
        return;
      }
      ReadIsGenuine(before, events);
      ClaimIssued(before, me, now, lease, events);
      LeadsByOne(begun, before, Claim(me, now, lease, batch));
      LeadsSoundly(begun, world);
      Claiming(before, me, now, lease, batch);
      if |events| == 0 {
        more := false;
        return;
      }
      ghost var opening := mine;
      for i := 0 to |events|
        invariant Leads(begun, world) && Sound(world) && Genuine(world.issued, events) && publisher.Valid()
        invariant publisher.publisher == null || publisher.publisher == old(publisher.publisher)
            || fresh(publisher.publisher)
        invariant me in world.workers && world.workers[me] == Worker(batch[i..], Ready)
        invariant |done| == i && mine == opening + MovesOf(me, now, done)
      {
        var expired := *;
        if expired {
          StopOn(me, begun);
          LeadsSoundly(begun, world);
          more := false;
          return;
        }
        ghost var issued := world.issued;
        OneGenuine(issued, events, i);
        ghost var d := PublishOne(me, publisher, now, events[i], begun);
        GenuineLater(issued, world.issued, events);
        assert batch[i..][1..] == batch[i + 1..];
        assert (done + [d])[..i] == done;
        done := done + [d];
      }
      more := true;
    }

    method StopOn(me: Id, ghost begun: World)
      requires Leads(begun, world) && me in world.workers
      modifies this
      ensures Leads(begun, world) && BatchOf(world, me) == [] && mine == old(mine) + [Abandon(me)]
    {
      hide Path, Arrive;
      LeadsByOne(begun, world, Abandon(me));
      Stop(me);
    }

    /** Publishes the head of the batch by its route, then marks it or schedules its retry. */
    method PublishOne(me: Id, publisher: ReconnectingPublisher, now: Time, event: Claimed, ghost begun: World)
        returns (ghost d: Disposal)
      requires Leads(begun, world) && Sound(world) && Busy(world, me, Ready) && publisher.Valid()
      requires event.id == world.workers[me].batch[0] && Genuine(world.issued, [event])
      modifies this, publisher, publisher.publisher
      ensures publisher.Valid()
      ensures publisher.publisher == null || publisher.publisher == old(publisher.publisher)
          || fresh(publisher.publisher)
      ensures Leads(begun, world) && Sound(world) && Extends(old(world).issued, world.issued)
      ensures me in world.workers && world.workers[me] == Worker(old(world).workers[me].batch[1..], Ready)
      ensures mine == old(mine) + MovesOf(me, now, [d])
    {
      hide Path, Arrive, Leads, Sound;
      ghost var start := world;
      Interleave(me);
      Onwards(begun, start, world);
      ghost var before := world;
      GenuineLater(start.issued, before.issued, [event]);
      GenuineRoute(before.issued, event);
      var accepted, sent := PublishWithContext(me, publisher, PublicationRoute(event.payload).mandatory);
      OneMove(begun, before, Publish(me, accepted, sent));
      ghost var published := world;
      Interleave(me);
      Onwards(begun, published, world);
      d := Settle(me, now, accepted, sent, begun);
      ghost var settling := if accepted then Mark(me, now, d.recorded) else Retry(me, d.retryAt, d.recorded);
      assert [d][..0] == [] && MovesOf(me, now, [d]) == [Publish(me, accepted, sent), settling];
    }

    /** Marks what was accepted, and schedules a retry for what was not. */
    method Settle(me: Id, now: Time, accepted: bool, ghost sent: Publication, ghost begun: World)
        returns (ghost d: Disposal)
      requires Leads(begun, world) && Sound(world) && Busy(world, me, if accepted then Confirmed else Refused)
      modifies this
      ensures d.accepted == accepted && d.sent == sent
      ensures Leads(begun, world) && Sound(world) && Extends(old(world).issued, world.issued)
      ensures me in world.workers && world.workers[me] == Worker(old(world).workers[me].batch[1..], Ready)
      ensures mine == old(mine) + [if accepted then Mark(me, now, d.recorded) else Retry(me, d.retryAt, d.recorded)]
    {
      hide Path, Arrive, Leads, Sound;
      ghost var before := world;
      if !accepted {
        var retried, at := RetryOutbox(me);
        d := Disposal(sent, false, retried, at);
        OneMove(begun, before, Retry(me, at, retried));
      } else {
        var marked := MarkPublished(me, now);
        d := Disposal(sent, true, marked, now);
        OneMove(begun, before, Mark(me, now, marked));
      }
    }
  }

  lemma Onwards(begun: World, w: World, w': World)
    requires Leads(begun, w) && Leads(w, w') && Sound(w)
    ensures Leads(begun, w') && Sound(w') && Extends(w.issued, w'.issued)
  {
    hide Leads, Sound, Extends;
    LeadsOn(begun, w, w');
    LeadsSoundly(w, w');
  }

  lemma OneMove(begun: World, w: World, m: Move)
    requires Leads(begun, w) && Sound(w) && Enabled(w, m)
    ensures Leads(begun, Perform(w, m)) && Sound(Perform(w, m)) && Extends(w.issued, Perform(w, m).issued)
  {
    hide Leads, Sound, Extends, Enabled, Perform;
    LeadsByOne(begun, w, m);
    MoveSound(w, m);
    IssuedStays(w, m);
  }

  lemma ClaimIssued(w: World, me: Id, now: Time, lease: Time, events: seq<Claimed>)
    requires Enabled(w, Claim(me, now, lease, Ids(events))) && Genuine(w.issued, events)
    ensures Genuine(Perform(w, Claim(me, now, lease, Ids(events))).issued, events)
  {
  }

  lemma OneGenuine(issued: map<EventId, Issue>, events: seq<Claimed>, i: nat)
    requires Genuine(issued, events) && i < |events|
    ensures Genuine(issued, [events[i]])
  {
  }

  lemma GenuineRoute(issued: map<EventId, Issue>, event: Claimed)
    requires Genuine(issued, [event])
    ensures Mandatory(issued, event.id) == PublicationRoute(event.payload).mandatory
  {
    assert [event][0] == event;
  }

  lemma GenuineLater(issued: map<EventId, Issue>, later: map<EventId, Issue>, events: seq<Claimed>)
    requires Genuine(issued, events) && Extends(issued, later)
    ensures Genuine(later, events)
  {
  }

  lemma Claiming(w: World, me: Id, now: Time, lease: Time, batch: seq<EventId>)
    requires Enabled(w, Claim(me, now, lease, batch))
    ensures var next := Perform(w, Claim(me, now, lease, batch));
            me in next.workers && next.workers[me] == Worker(batch, Ready)
  {
  }
}
