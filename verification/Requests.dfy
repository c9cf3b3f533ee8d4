/**
 What commands leave behind, over all histories of Catalog: one request for each that
 was accepted, one acceptance for each, and manifests that are whole
 (services/catalog-service/repository/postgres_book_repository.go).
 */
module Requests {
  import opened Prelude
  import opened Domain
  import opened Catalog
  import opened Lifecycle
  import opened CatalogRuns

  // ---------------------------------------------------------------------
  // Every request has its command, and every command its request

  predicate Asks(row: OutboxRow, c: Id, kind: CommandKind, lifecycle: nat) {
    match row.payload
    case ReindexRequested(command, l, _, _) => kind.ReindexCommand? && command == c && l == lifecycle
    case DeletionRequested(command, l) => kind.DeleteCommand? && command == c && l == lifecycle
    case _ => false
  }

  predicate Request(row: OutboxRow) {
    row.payload.ReindexRequested? || row.payload.DeletionRequested?
  }

  /** The row asks for what an accepted command of its book said, or announces the
      upload of the content that the book has. */
  predicate RowTold(db: Db, id: EventId)
    requires id in db.outbox
  {
    var row := db.outbox[id];
    && (Request(row) ==>
          exists c :: c in db.commands && db.commands[c].book == row.book
                      && Asks(row, c, db.commands[c].kind, db.commands[c].lifecycle))
    && (row.payload.Uploaded? ==>
          row.payload.lifecycle == 1 && row.book in db.books && row.payload.content == db.books[row.book].content)
  }

  predicate AsksFor(db: Db, id: EventId, c: Id) {
    id in db.outbox && c in db.commands && db.outbox[id].book == db.commands[c].book
    && Asks(db.outbox[id], c, db.commands[c].kind, db.commands[c].lifecycle)
  }

  /** Unless its book is deleted, the command has one request, and only one. */
  ghost predicate CommandTold(db: Db, c: Id)
    requires c in db.commands
  {
    && db.commands[c].book in db.books
    && (!db.books[db.commands[c].book].status.Deleted? ==> exists id :: AsksFor(db, id, c))
    && (forall id, id' :: AsksFor(db, id, c) && AsksFor(db, id', c) ==> id == id')
  }

  predicate ManifestWhole(r: Row) {
    r.manifestRef == 0 ==> r.manifestDigest == 0
  }

  ghost predicate Told(db: Db) {
    && (forall id :: id in db.outbox ==> RowTold(db, id))
    && (forall c :: c in db.commands ==> CommandTold(db, c))
    && (forall b :: b in db.books ==> ManifestWhole(db.books[b]))
  }

  lemma UploadTold(h: History, s: Step)
    requires Inv(h) && Told(h.db) && s.Upload? && TxOf(h.db, s).Committed?
    ensures Told(Next(h, s).db)
  {
    hide Inv, Next, TxOf;
    UploadEffect(h, s);
    var db, db' := h.db, Next(h, s).db;
    forall id | id in db'.outbox ensures RowTold(db', id) {
      if id in db.outbox {
        assert RowTold(db, id);
      }
    }
    forall c | c in db'.commands ensures CommandTold(db', c) {
      SameRequests(db, db', c);
    }
  }

  /** New rows that do not ask for a command, and rows of other books that go, leave
      its requests as they were. */
  lemma SameRequests(db: Db, db': Db, c: Id)
    requires c in db.commands && c in db'.commands && SameCommand(db.commands[c], db'.commands[c])
    requires CommandTold(db, c)
    requires db.commands[c].book in db'.books
    requires db.books[db.commands[c].book].status.Deleted? ==> db'.books[db.commands[c].book].status.Deleted?
    requires forall id :: id in db.outbox && db.outbox[id].book == db.commands[c].book ==>
               id in db'.outbox && db'.outbox[id] == db.outbox[id]
    requires forall id :: AsksFor(db', id, c) ==> id in db.outbox && db'.outbox[id] == db.outbox[id]
    ensures CommandTold(db', c)
  {
    forall id ensures AsksFor(db', id, c) <==> AsksFor(db, id, c) {
    }
  }

  lemma ReportTold(h: History, s: Step)
    requires Inv(h) && Told(h.db) && s.Report? && TxOf(h.db, s).Committed? && Screened(h.db, s.event).None?
    ensures Told(Next(h, s).db)
  {
    hide Inv, Next, TxOf, Judge, NextSequence, RowOk, CommandsOk, OutboxOk, LedgerOk, StatusOf, ManifestWhole;
    ReportEffect(h, s);
    FactKeepsManifest(h, s);
    var db, db' := h.db, Next(h, s).db;
    if Judge(h.db.books[s.event.book], s.event.fact).Accepted? {
      FactsKeepContent(h.db.books[s.event.book], s.event.fact);
      InLedger(h, s.event.book);
      AcceptedOk(h.db.books[s.event.book], s.event, s.eventStatusId);
    }
    forall id | id in db'.outbox ensures RowTold(db', id) {
      if id in db.outbox {
        assert RowTold(db, id);
      }
    }
    forall c | c in db'.commands ensures CommandTold(db', c) {
      SameRequests(db, db', c);
    }
  }

  /** An empty reference is never stored with a digest. */
  lemma FactKeepsManifest(h: History, s: Step)
    requires s.Report? && TxOf(h.db, s).Committed? && Screened(h.db, s.event).None?
    requires s.event.book in h.db.books && ManifestWhole(h.db.books[s.event.book])
    ensures var books := Next(h, s).db.books; s.event.book in books && ManifestWhole(books[s.event.book])
  {
    hide Judge, NextSequence, StatusOf;
  }

  lemma DirectTold(h: History, s: Step)
    requires Inv(h) && Told(h.db) && s.Direct?
    ensures Told(Next(h, s).db)
  {
    hide Inv, Next, Commanded, NextSequence, StatusOf, Told;
    DirectEffect(h, s);
    if Next(h, s) != h {
      var row :| Accepts(h, s.command, row, Next(h, s));
      AcceptTold(h, s.command, row, Next(h, s));
    }
  }

  lemma CommandedRow(b: Row, c: Command)
    requires Commanded(b, c).Ok?
    ensures var row := Commanded(b, c).value;
            && !c.kind.OtherCommand? && row.content == b.content
            && row.manifestRef == b.manifestRef && row.manifestDigest == b.manifestDigest
            && row.lifecycle == b.lifecycle + 1 && row.status != Deleted
  {
  }

  lemma AcceptTold(h: History, c: Command, row: Row, next: History)
    requires Told(h.db) && Accepts(h, c, row, next)
    ensures Told(next.db)
  {
    hide Commanded, NextSequence, StatusOf, Asks;
    CommandedRow(h.db.books[c.book], c);
    RequestAsks(c, row);
    var db, db' := h.db, next.db;
    forall id | id in db'.outbox ensures RowTold(db', id) {
      if id in db.outbox {
        assert RowTold(db, id);
        OldRequest(db, db', id);
      } else if id == c.requestId {
        assert Asks(db'.outbox[id], c.id, db'.commands[c.id].kind, db'.commands[c.id].lifecycle);
        assert RowTold(db', id);
      } else {
        assert RowTold(db', id);
      }
    }
    forall k | k in db'.commands ensures CommandTold(db', k) {
      hide Told;
      if k == c.id {
        OwnRequest(h, c, row, next);
      } else {
        OtherRequests(h, c, row, next, k);
      }
    }
  }

  lemma AsksOnce(row: OutboxRow, c: Id, k: Id, kind: CommandKind, lifecycle: nat, kind': CommandKind, lifecycle': nat)
    requires Asks(row, c, kind, lifecycle) && Asks(row, k, kind', lifecycle')
    ensures c == k && Request(row)
  {
  }

  lemma OwnRequest(h: History, c: Command, row: Row, next: History)
    requires Told(h.db) && Accepts(h, c, row, next)
    ensures CommandTold(next.db, c.id)
  {
    hide Commanded, NextSequence, StatusOf, Asks;
    CommandedRow(h.db.books[c.book], c);
    RequestAsks(c, row);
    var db, db' := h.db, next.db;
    assert AsksFor(db', c.requestId, c.id);
    forall id | AsksFor(db', id, c.id) ensures id == c.requestId {
      if id in db.outbox {
        AsksIsRequest(db'.outbox[id], c.id, db'.commands[c.id].kind, db'.commands[c.id].lifecycle);
        assert RowTold(db, id);
        var k :| k in db.commands && Asks(db.outbox[id], k, db.commands[k].kind, db.commands[k].lifecycle);
        AsksOnce(db.outbox[id], c.id, k, db'.commands[c.id].kind, db'.commands[c.id].lifecycle,
                 db.commands[k].kind, db.commands[k].lifecycle);
      }
    }
  }

  lemma AsksIsRequest(row: OutboxRow, c: Id, kind: CommandKind, lifecycle: nat)
    requires Asks(row, c, kind, lifecycle)
    ensures Request(row)
  {
  }

  lemma OtherRequests(h: History, c: Command, row: Row, next: History, k: Id)
    requires Told(h.db) && Accepts(h, c, row, next) && k in h.db.commands
    ensures CommandTold(next.db, k)
  {
    hide Commanded, NextSequence, StatusOf, Asks;
    CommandedRow(h.db.books[c.book], c);
    RequestAsks(c, row);
    SameRequests(h.db, next.db, k);
  }

  lemma RequestAsks(c: Command, row: Row)
    requires !c.kind.OtherCommand?
    ensures forall n, at :: Asks(FreshRow(c.book, n, RequestOf(c, row), at), c.id, c.kind, row.lifecycle)
    ensures forall n, at, k, kind, l :: Asks(FreshRow(c.book, n, RequestOf(c, row), at), k, kind, l) ==> k == c.id
    ensures forall n, at, e, k, kind, l :: !Asks(FreshRow(c.book, n, StatusChanged(e), at), k, kind, l)
    ensures RequestOf(c, row).ReindexRequested? || RequestOf(c, row).DeletionRequested?
  {
  }

  lemma OldRequest(db: Db, db': Db, id: EventId)
    requires id in db.outbox && id in db'.outbox && db'.outbox[id] == db.outbox[id] && RowTold(db, id)
    requires forall k :: k in db.commands ==> k in db'.commands && SameCommand(db.commands[k], db'.commands[k])
    requires db.outbox[id].payload.Uploaded? && db.outbox[id].book in db.books ==>
               db.outbox[id].book in db'.books
               && db'.books[db.outbox[id].book].content == db.books[db.outbox[id].book].content
    ensures RowTold(db', id)
  {
    hide Asks;
    if Request(db.outbox[id]) {
      var c :| c in db.commands && db.commands[c].book == db.outbox[id].book
               && Asks(db.outbox[id], c, db.commands[c].kind, db.commands[c].lifecycle);
      assert c in db'.commands;
    }
  }

  lemma AckTold(h: History, s: Step)
    requires Inv(h) && Told(h.db) && (s.OriginalGone? || s.AckArrives?)
    ensures Told(Next(h, s).db)
  {
    hide Inv, Next, Quiet, Erases, AllGone, Unheeded, Told, Counts;
    if s.OriginalGone? { OriginalEffect(h, s); } else { ArrivalEffect(h, s); }
    if AckLeaves(h, s, Next(h, s)) {
      var b := h.db.books[BookOf(s)];
      if b.status.Deleting? && AllGone(Marked(b, s)) {
        EraseTold(h, Next(h, s), BookOf(s), Marked(b, s), AckTime(s));
      } else {
        QuietTold(h, Next(h, s), BookOf(s), Marked(b, s));
      }
    }
  }

  lemma QuietTold(h: History, next: History, book: Id, marked: Row)
    requires Told(h.db) && Quiet(h, next, book, marked)
    requires book in h.db.books && marked.content == h.db.books[book].content
        && marked.manifestRef == h.db.books[book].manifestRef
             && marked.manifestDigest == h.db.books[book].manifestDigest
    ensures Told(next.db)
  {
    hide Asks, RowOk;
    var db, db' := h.db, next.db;
    forall id | id in db'.outbox ensures RowTold(db', id) {
      assert RowTold(db, id);
      OldRequest(db, db', id);
    }
    forall c | c in db'.commands ensures CommandTold(db', c) {
      SameRequests(db, db', c);
    }
  }

  lemma EraseTold(h: History, next: History, book: Id, marked: Row, now: Time)
    requires Inv(h) && Told(h.db) && Erases(h, next, book, marked, now)
    ensures Told(next.db)
  {
    hide Inv, Asks, AllGone, StatusOf;
    var db, db' := h.db, next.db;
    var row := Tombstone(marked, now);
    NoFinal(h, book, row);
    forall id | id in db'.outbox ensures RowTold(db', id) {
      if id in db.outbox && db.outbox[id].book != book {
        assert RowTold(db, id);
        OldRequest(db, db', id);
      }
    }
    forall c | c in db'.commands ensures CommandTold(db', c) {
      ErasedTold(db, db', book, row, now, c);
    }
  }

  lemma NoFinal(h: History, book: Id, row: Row)
    requires Inv(h) && book in h.db.books && !h.db.books[book].status.Deleted?
    ensures FinalId(book, row) !in h.db.outbox
    ensures StatusOf(FinalId(book, row), book, row).id == FinalId(book, row)
  {
    hide Inv;
    InTables(h);
    NoFinalRow(h, book, FinalId(book, row));
  }

  lemma ErasedTold(db: Db, db': Db, book: Id, row: Row, now: Time, c: Id)
    requires book in db.books && row.status.Deleted? && c in db.commands && CommandTold(db, c)
    requires db'.books == db.books[book := row] && db'.commands == WithoutActors(db.commands, book)
    requires var id := FinalId(book, row);
             id !in db.outbox && db'.outbox == WithoutBook(db.outbox,
                 book)[id := FreshRow(book, 0, StatusChanged(StatusOf(id, book, row)), now)]
    ensures CommandTold(db', c)
  {
    hide StatusOf;
    if db.commands[c].book != book {
      SameRequests(db, db', c);
    }
  }

  lemma StepTold(h: History, s: Step)
    requires Inv(h) && Told(h.db) && Possible(h, s)
    ensures Told(Next(h, s).db)
  {
    hide Inv, Next, Told, TxOf, Judge;
    match s {
      case Upload(_, _, _, _, _) =>
        if TxOf(h.db, s).Committed? { UploadTold(h, s); } else { Refused(h, s); }
      case Report(e, _, _) =>
        if TxOf(h.db, s).Committed? && Screened(h.db, e).None? { ReportTold(h, s); } else { Refused(h, s); }
      case Direct(_) => DirectTold(h, s);
      case OriginalGone(_, _, _, _) => AckTold(h, s);
      case AckArrives(_, _) => AckTold(h, s);
      case Deliver(outbox) => DeliverTold(h, outbox);
    }
  }

  lemma DeliverTold(h: History, outbox: map<EventId, OutboxRow>)
    requires Told(h.db) && SameRows(h.db.outbox, outbox)
    ensures Told(Next(h, Deliver(outbox)).db)
  {
    Delivers(h, outbox);
    var db, db' := h.db, h.db.(outbox := outbox);
    forall id | id in db'.outbox ensures RowTold(db', id) {
      assert RowTold(db, id) && SameRow(db.outbox[id], outbox[id]);
    }
    forall c | c in db'.commands ensures CommandTold(db', c) {
      assert CommandTold(db, c);
      forall id ensures AsksFor(db', id, c) <==> AsksFor(db, id, c) {
      }
    }
  }

  /** In every reachable state: each request in the table asks for what an accepted
      command of its book said; each accepted command of a book that is not deleted has
      exactly one request; each upload announces the content of its book; and no book
      has the digest of a manifest without the reference. */
  lemma {:induction false} RequestsAreTold(steps: seq<Step>)
    requires Run(BLANK, steps)
    ensures Told(After(BLANK, steps).db)
  {
    hide Told, Inv;
    assert Told(BLANK.db) by { NothingTold(); }
    BlankOk();
    RunTold(BLANK, steps);
  }

  lemma NothingTold()
    ensures Told(BLANK.db)
  {
  }

  lemma {:induction false} RunTold(h: History, steps: seq<Step>)
    requires Inv(h) && Told(h.db) && Run(h, steps)
    ensures Told(After(h, steps).db)
    decreases |steps|
  {
    hide Inv, Told, Next, Possible;
    if steps != [] {
      StepTold(h, steps[0]);
      StepKeeps(h, steps[0]);
      RunTold(Next(h, steps[0]), steps[1..]);
    }
  }

  // ---------------------------------------------------------------------
  // A command is accepted once

  /** An accepted command raises both versions of its book by one and asks, behind all
      rows of the book, for the manifest that the book has; the status follows it. */
  lemma AcceptedCommands(h: History, s: Step)
    requires s.Direct? && Next(h, s) != h
    ensures var c, db, db' := s.command, h.db, Next(h, s).db;
            && c.book in db.books && c.book in db'.books && c.id !in db.commands && c.id in db'.commands
            && c.requestId in db'.outbox && c.statusId in db'.outbox
            && var b, b' := db.books[c.book], db'.books[c.book];
            && b'.lifecycle == b.lifecycle + 1 && b'.version == b.version + 1 && b'.commandId == c.id
            && db'.outbox[c.statusId].sequence == db'.outbox[c.requestId].sequence + 1
            && (forall id :: id in db.outbox && db.outbox[id].book == c.book ==>
                  db.outbox[id].sequence < db'.outbox[c.requestId].sequence)
            && (c.kind.ReindexCommand? ==>
                  && b'.status == Reindexing
                  && db'.outbox[c.requestId].payload ==
                     ReindexRequested(c.id, b.lifecycle + 1, b.manifestRef, b.manifestDigest))
            && (c.kind.DeleteCommand? ==>
                  b'.status == Deleting && db'.outbox[c.requestId].payload == DeletionRequested(c.id, b.lifecycle + 1))
            && !c.kind.OtherCommand?
  {
    hide Next, NextSequence, StatusOf, CanReindex;
    DirectEffect(h, s);
    var row :| Accepts(h, s.command, row, Next(h, s));
  }

  /** What a command that is known is answered: nothing changes, and it is a success
      while no later command moved its book, a conflict then, and refused if it
      names another book or kind than it did. */
  lemma CommandsStayInert(h: History, first: Step, steps: seq<Step>, again: Step)
    requires Inv(h) && Possible(h, first) && first.Direct? && Next(h, first) != h
    requires Run(Next(h, first), steps)
    requires again.Direct? && again.command.id == first.command.id
    ensures Next(After(Next(h, first), steps), again) == After(Next(h, first), steps)
    ensures var book, accepted, db := first.command.book, Next(h, first).db, After(Next(h, first), steps).db;
            && book in accepted.books && book in db.books
            && TxOf(db, again) ==
               if again.command.book !in db.books then RolledBack(NotFound)
               else if again.command.book != book || again.command.kind != first.command.kind
               then RolledBack(InvalidCommand)
               else if db.books[book].lifecycle != accepted.books[book].lifecycle then RolledBack(EventConflict)
               else Committed(db, false)
  {
    hide *;
    AcceptedRow(h, first);
    StepKeeps(h, first);
    StillKnown(Next(h, first), steps, first.command.id, first.command.book);
    KnownCommandIsInert(After(Next(h, first), steps), again);
  }

  lemma StillKnown(h: History, steps: seq<Step>, c: Id, book: Id)
    requires Inv(h) && Run(h, steps) && c in h.db.commands && book in h.db.books
    ensures var db := After(h, steps).db;
            && book in db.books && c in db.commands
            && var row, row' := h.db.commands[c], db.commands[c];
               row'.book == row.book && row'.kind == row.kind && row'.lifecycle == row.lifecycle
  {
    hide Inv, Run, After;
    RunRemembers(h, steps);
  }

  lemma AcceptedRow(h: History, s: Step)
    requires s.Direct? && Next(h, s) != h
    ensures var c, db := s.command, Next(h, s).db;
            && c.book in db.books && c.id in db.commands
            && var row := db.commands[c.id];
               row.book == c.book && row.kind == c.kind && row.lifecycle == db.books[c.book].lifecycle
  {
    hide Next, Commanded, NextSequence, StatusOf;
    DirectEffect(h, s);
    var row :| Accepts(h, s.command, row, Next(h, s));
  }

  lemma KnownCommandIsInert(h: History, s: Step)
    requires s.Direct? && s.command.id in h.db.commands
    ensures Next(h, s) == h
    ensures var c, db := s.command, h.db;
            TxOf(db, s) ==
            if c.book !in db.books then RolledBack(NotFound)
            else if db.commands[c.id].book != c.book || db.commands[c.id].kind != c.kind then RolledBack(InvalidCommand)
            else if db.commands[c.id].lifecycle != db.books[c.book].lifecycle then RolledBack(EventConflict)
            else Committed(db, false)
  {
  }

  /** A new command is accepted exactly if its book can be deleted, not being under
      deletion yet, or can be reindexed. No unique index ever refuses one. */
  lemma CommandsAcceptedExactly(h: History, s: Step)
    requires Inv(h) && s.Direct? && s.command.id !in h.db.commands
    requires var c := s.command;
             c.requestId !in h.db.outbox && c.statusId !in h.db.outbox && c.requestId != c.statusId
    ensures var c := s.command;
            TxOf(h.db, s).Committed? <==>
            && c.book in h.db.books
            && var b := h.db.books[c.book];
               || (c.kind.DeleteCommand? && b.status !in {Deleting, Deleted})
               || (c.kind.ReindexCommand? && CanReindex(b))
  {
    hide Inv, NextSequence, StatusOf, GenerationTaken, CanReindex, RequestOf;
    var c := s.command;
    if c.book in h.db.books {
      var b := h.db.books[c.book];
      CommandedExactly(b, c);
      if Commanded(b, c).Ok? {
        GenerationIsFree(h, c);
      }
      hide Commanded;
    }
  }

  lemma CommandedExactly(b: Row, c: Command)
    ensures Commanded(b, c).Ok? <==>
            || (c.kind.DeleteCommand? && b.status !in {Deleting, Deleted})
            || (c.kind.ReindexCommand? && CanReindex(b))
    ensures b.status.Deleted? ==> Commanded(b, c).Err?
  {
  }

  // ---------------------------------------------------------------------
  // A report that the original is gone is absorbed when repeated

  lemma OriginalStaysGone(h: History, first: Step, steps: seq<Step>, again: Step)
    requires Inv(h) && Possible(h, first) && first.OriginalGone? && TxOf(h.db, first).Committed?
    requires Run(Next(h, first), steps)
    requires again.OriginalGone? && again.gone == first.gone && again.cause == first.cause
    requires again.generation == first.generation
    ensures Next(After(Next(h, first), steps), again) == After(Next(h, first), steps)
    ensures TxOf(After(Next(h, first), steps).db, again) == Committed(After(Next(h, first), steps).db, false)
  {
    hide Inv, Run, Next, After, Possible, Finalize;
    var book := first.gone;
    InLedger(h, book);
    DeletionStep(h, first, book);
    StepKeeps(h, first);
    assert Gone(Next(h, first).db.books[book], Originals);
    DeletionConverges(Next(h, first), steps, book);
    assert Gone(After(Next(h, first), steps).db.books[book], Originals);
    AlreadyGone(After(Next(h, first), steps), again);
  }

  lemma AlreadyGone(h: History, s: Step)
    requires s.OriginalGone? && s.gone in h.db.books && h.db.books[s.gone].originalDeleted
    requires AcceptsAck(h.db.books[s.gone], s.cause, s.generation)
    ensures TxOf(h.db, s) == Committed(h.db, false) && Next(h, s) == h
  {
  }
}
