/**
 When the status events of a book tell whether it can be reindexed
 (can_reindex in services/catalog-service/repository/postgres_book_repository.go).

 Every event shows it as it is when the event is written. One kind of step moves
 it without an event: an absorbed ChunksReady, which still overwrites the manifest.
 */
module Reindexability {
  import opened Prelude
  import opened Domain
  import opened Catalog
  import opened Lifecycle

  predicate Present(ref: Id, digest: nat) {
    ref != 0 && digest != 0
  }

  /** An absorbed ChunksReady gives a manifest to a book that could be reindexed but
      for its manifest, or takes it away. All of it can be told before the step. */
  predicate Silent(h: History, s: Step) {
    s.Report? && Screened(h.db, s.event).None? && s.event.book in h.db.books &&
    var e, b := s.event, h.db.books[s.event.book];
    && e.fact.kind.ChunksReadyFact? && e.manifestRef != 0 && Judge(b, e.fact).Absorbed?
    && Present(e.manifestRef, e.manifestDigest) != Present(b.manifestRef, b.manifestDigest)
    && (b.status.Indexed? || (b.status.Failed? && ReindexableFailure(b.failure)))
  }

  predicate SilentFor(h: History, s: Step, book: Id) {
    Silent(h, s) && s.event.book == book
  }

  /** The newest event of the book shows whether it can be reindexed. */
  predicate Current(h: History, book: Id) {
    book in h.db.books && book in h.ledger && h.ledger[book] != [] &&
    h.ledger[book][|h.ledger[book]| - 1].event.canReindex == CanReindex(h.db.books[book])
  }

  /** The step spoke of the book. */
  predicate Spoke(h: History, next: History, book: Id) {
    book in next.ledger && (book !in h.ledger || next.ledger[book] != h.ledger[book])
  }

  /** A step that speaks of the book tells the truth; one that does not leaves the
      book as reindexable as it was unless it is silent. */
  predicate Told(h: History, s: Step, next: History, book: Id) {
    && book in h.db.books && book in next.db.books && book in h.ledger && book in next.ledger
    && if Spoke(h, next, book) then Current(next, book)
       else CanReindex(next.db.books[book]) != CanReindex(h.db.books[book]) <==> SilentFor(h, s, book)
  }

  lemma ToldUnchanged(h: History, s: Step, next: History, book: Id)
    requires book in h.db.books && book in next.db.books && book in h.ledger && book in next.ledger
    requires next.db.books[book] == h.db.books[book] && next.ledger[book] == h.ledger[book] && !SilentFor(h, s, book)
    ensures Told(h, s, next, book)
  {
  }

  lemma ReportTold(h: History, s: Step, book: Id)
    requires Inv(h) && s.Report? && book in h.db.books
    ensures Told(h, s, Next(h, s), book)
  {
    hide Judge, Inv, CanReindex;
    InLedger(h, book);
    var e := s.event;
    if Screened(h.db, e).None? && TxOf(h.db, s).Committed? {
      ReportEffect(h, s);
      AbsorbedBooks(h, s);
      if e.book == book {
        ReportedBook(h, s, Next(h, s));
      }
    } else {
      Lifecycle.Refused(h, s);
    }
  }

  /** What an absorbed report leaves of the books. */
  lemma AbsorbedBooks(h: History, s: Step)
    requires s.Report? && Screened(h.db, s.event).None? && TxOf(h.db, s).Committed?
    ensures var e := s.event;
            e.book in h.db.books &&
            (Judge(h.db.books[e.book], e.fact).Absorbed? ==>
               if e.fact.kind.ChunksReadyFact?
               then e.manifestRef != 0 && Next(h,
                   s).db.books == h.db.books[e.book := WithManifest(h.db.books[e.book], e)]
               else Next(h, s).db.books == h.db.books)
  {
    hide Judge;
  }

  lemma ReportedBook(h: History, s: Step, next: History)
    requires s.Report? && Screened(h.db, s.event).None? && s.event.book in h.db.books && s.event.book in h.ledger
    requires var e := s.event;
             var b := h.db.books[e.book];
             match Judge(b, e.fact)
             case Rejected(_) => false
             case Absorbed =>
               && next.ledger == h.ledger
               && if e.fact.kind.ChunksReadyFact?
                  then e.manifestRef != 0 && next.db.books == h.db.books[e.book := WithManifest(b, e)]
                  else next.db.books == h.db.books
             case Accepted(row) =>
               && next.db.books == h.db.books[e.book := StoredManifest(WithManifest(row, e))]
               && exists entry: Entry ::
                    entry.event == StatusOf(s.eventStatusId, e.book, WithManifest(row, e))
                    && next.ledger == h.ledger[e.book := h.ledger[e.book] + [entry]]
    ensures Told(h, s, next, s.event.book)
  {
    hide Judge, ReindexableFailure;
  }

  lemma AcceptedTold(h: History, s: Step, row: Row, next: History, book: Id)
    requires s.Direct? && Accepts(h, s.command, row, next) && book in h.db.books && book in h.ledger
        && h.ledger[book] != []
    ensures Told(h, s, next, book) && next.db.books.Keys == h.db.books.Keys
  {
    hide Commanded, CanReindex, NextSequence, RequestOf, FreshRow;
    var entry := Entry(StatusOf(s.command.statusId, s.command.book, row),
        NextSequence(h.db.outbox, s.command.book) + 1);
    if s.command.book == book {
      assert next.ledger[book] == h.ledger[book] + [entry];
    }
  }

  lemma DirectTold(h: History, s: Step, book: Id)
    requires Inv(h) && s.Direct? && book in h.db.books
    ensures Told(h, s, Next(h, s), book) && Next(h, s).db.books.Keys == h.db.books.Keys
  {
    hide Inv, Next, Accepts, Told, BookOk;
    LedgerIsThere(h, book);
    DirectEffect(h, s);
    var next := Next(h, s);
    if next == h {
      ToldUnchanged(h, s, h, book);
    } else {
      var row :| Accepts(h, s.command, row, next);
      AcceptedTold(h, s, row, next, book);
    }
  }

  lemma LedgerIsThere(h: History, book: Id)
    requires Inv(h) && book in h.db.books
    ensures book in h.ledger && h.ledger[book] != [] && RowOk(h.db.books[book])
  {
    hide Inv, RowOk, OutboxOk, CommandsOk;
    InLedger(h, book);
  }

  lemma AckedTold(h: History, s: Step, next: History, book: Id)
    requires (s.OriginalGone? || s.AckArrives?) && AckLeaves(h, s, next) && book in h.db.books && book in h.ledger
        && h.ledger[book] != []
    ensures Told(h, s, next, book) && next.db.books.Keys == h.db.books.Keys
  {
    hide Marked, Counts, RowOk, AllGone, ReindexableFailure, WithoutBook, WithoutActors, FinalId;
  }

  lemma AckTold(h: History, s: Step, book: Id)
    requires Inv(h) && (s.OriginalGone? || s.AckArrives?) && book in h.db.books
    ensures Told(h, s, Next(h, s), book) && Next(h, s).db.books.Keys == h.db.books.Keys
  {
    hide Inv, Next, Unheeded, AckLeaves, Told, RowOk;
    LedgerIsThere(h, book);
    if s.OriginalGone? {
      OriginalEffect(h, s);
    } else {
      ArrivalEffect(h, s);
    }
    var next := Next(h, s);
    if next == h {
      ToldUnchanged(h, s, h, book);
    } else {
      AckedTold(h, s, next, book);
    }
  }

  lemma UploadTold(h: History, s: Step, book: Id)
    requires Inv(h) && s.Upload?
    ensures book in h.db.books ==> Told(h, s, Next(h, s), book)
    ensures book !in h.db.books && book in Next(h, s).db.books
        ==> Current(Next(h, s), book) && Spoke(h, Next(h, s), book)
  {
    InTables(h);
    if TxOf(h.db, s).Committed? {
      UploadEffect(h, s);
    } else {
      Lifecycle.Refused(h, s);
    }
    hide Inv, Next, TxOf;
    if book in h.db.books {
      ToldUnchanged(h, s, Next(h, s), book);
    }
  }

  /** The exact condition, for every step in every reachable state: a step makes a
      book reindexable, or takes that away, without a status event exactly if it is
      silent. And every event that is written is current. */
  lemma StepTold(h: History, s: Step, book: Id)
    requires Inv(h) && Possible(h, s) && book in h.db.books
    ensures Told(h, s, Next(h, s), book)
  {
    hide Inv, Next, Told;
    match s
    case Upload(_, _, _, _, _) => UploadTold(h, s, book);
    case Report(_, _, _) => ReportTold(h, s, book);
    case Direct(_) => DirectTold(h, s, book);
    case OriginalGone(_, _, _, _) => AckTold(h, s, book);
    case AckArrives(_, _) => AckTold(h, s, book);
    case Deliver(outbox) =>
      Delivers(h, outbox);
      InLedger(h, book);
      ToldUnchanged(h, s, Next(h, s), book);
  }

  lemma SilentIsQuiet(h: History, s: Step)
    requires Inv(h) && Silent(h, s)
    ensures Next(h, s).ledger == h.ledger
  {
    hide Judge, Inv;
    ReportEffect(h, s);
  }

  /** In every reachable state, whatever the step: it changes whether a book can be
      reindexed without a status event of the book exactly if it is silent for it. */
  lemma SilentExactly(steps: seq<Step>, s: Step, book: Id)
    requires Run(BLANK, steps) && Possible(After(BLANK, steps), s) && book in After(BLANK, steps).db.books
    ensures var h := After(BLANK, steps);
            var next := Next(h, s);
            && book in next.db.books
            && (CanReindex(next.db.books[book]) != CanReindex(h.db.books[book]) && !Spoke(h, next, book) <==>
                 SilentFor(h, s, book))
  {
    hide Inv, Next, Possible, Run, Silent, CanReindex;
    BlankOk();
    RunKeeps(BLANK, steps);
    var h := After(BLANK, steps);
    StepTold(h, s, book);
    LedgerIsThere(h, book);
    if SilentFor(h, s, book) {
      SilentIsQuiet(h, s);
    }
  }

  /** Only an upload brings a book, and speaks of it. */
  lemma NewBookTold(h: History, s: Step, book: Id)
    requires Inv(h) && Possible(h, s) && book !in h.db.books && book in Next(h, s).db.books
    ensures Current(Next(h, s), book) && Spoke(h, Next(h, s), book)
  {
    hide Inv, Next, Told, Current, Spoke, Possible;
    if s.Upload? {
      UploadTold(h, s, book);
    } else if s.Deliver? {
      Delivers(h, s.outbox);
    } else if BookOf(s) in h.db.books {
      KeysStay(h, s);
    } else {
      Unanswered(h, s);
    }
  }

  lemma KeysStay(h: History, s: Step)
    requires Inv(h) && !s.Upload? && !s.Deliver? && BookOf(s) in h.db.books
    ensures Next(h, s).db.books.Keys == h.db.books.Keys
  {
    hide Inv, Next, Told;
    match s
    case Report(_, _, _) => ReportKeys(h, s);
    case Direct(_) => DirectTold(h, s, BookOf(s));
    case OriginalGone(_, _, _, _) => AckTold(h, s, BookOf(s));
    case AckArrives(_, _) => AckTold(h, s, BookOf(s));
  }

  lemma ReportKeys(h: History, s: Step)
    requires Inv(h) && s.Report?
    ensures Next(h, s).db.books.Keys == h.db.books.Keys
  {
    hide Judge, Inv;
    if Screened(h.db, s.event).None? && TxOf(h.db, s).Committed? {
      ReportEffect(h, s);
    } else {
      Lifecycle.Refused(h, s);
    }
  }

  /** What names no book leaves the books as they are. */
  lemma Unanswered(h: History, s: Step)
    requires Inv(h) && !s.Upload? && !s.Deliver? && BookOf(s) !in h.db.books
    ensures Next(h, s).db.books == h.db.books
  {
    hide Inv;
    match s
    case Report(_, _, _) => Lifecycle.Refused(h, s);
    case Direct(_) => DirectEffect(h, s); hide Next;
    case OriginalGone(_, _, _, _) => OriginalEffect(h, s); hide Next, Unheeded;
    case AckArrives(_, _) => ArrivalEffect(h, s); hide Next, Unheeded;
  }

  /** The silent steps that a book has seen since the last event that spoke of it. */
  ghost function SilentSteps(h: History, steps: seq<Step>, book: Id, before: nat): nat
    decreases |steps|
  {
    if steps == [] then before
    else
      var next := Next(h, steps[0]);
      var now := if Spoke(h, next, book) then 0 else before + if SilentFor(h, steps[0], book) then 1 else 0;
      SilentSteps(next, steps[1..], book, now)
  }

  /** The newest event of a book is current exactly when their number is even. */
  lemma {:induction false} CurrentIfEven(h: History, steps: seq<Step>, book: Id, before: nat)
    requires Inv(h) && Run(h, steps)
    requires book in h.db.books ==> (Current(h, book) <==> before % 2 == 0)
    ensures book in After(h, steps).db.books
        ==> (Current(After(h, steps), book) <==> SilentSteps(h, steps, book, before) % 2 == 0)
    decreases |steps|
  {
    hide Inv, Next, Possible, Spoke, SilentFor, Current, Told;
    if steps != [] {
      var s := steps[0];
      var next := Next(h, s);
      StepKeeps(h, s);
      var now := if Spoke(h, next, book) then 0 else before + if SilentFor(h, s, book) then 1 else 0;
      assert book in next.db.books ==> (Current(next, book) <==> now % 2 == 0) by {
        if book in h.db.books {
          StepTold(h, s, book);
          InLedger(h, book);
          StillCurrent(h, s, next, book, before);
        } else if book in next.db.books {
          NewBookTold(h, s, book);
        }
      }
      CurrentIfEven(next, steps[1..], book, now);
    }
  }

  lemma StillCurrent(h: History, s: Step, next: History, book: Id, before: nat)
    requires Told(h, s, next, book) && h.ledger[book] != [] && (Current(h, book) <==> before % 2 == 0)
    ensures Current(next, book) <==>
            (if Spoke(h, next, book) then 0 else before + if SilentFor(h, s, book) then 1 else 0) % 2 == 0
  {
    hide SilentFor, CanReindex;
  }
}
