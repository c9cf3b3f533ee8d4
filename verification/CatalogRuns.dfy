/**
 What holds of every history that Catalog's transactions can produce, from an
 empty database, under any order, duplication and interleaving of inputs.
 */
module CatalogRuns {
  import opened Prelude
  import opened Domain
  import opened Catalog
  import opened Lifecycle
  import opened Reindexability
  import EdgeStatus

  lemma Reachable(steps: seq<Step>)
    requires Run(BLANK, steps)
    ensures Inv(After(BLANK, steps))
  {
    BlankOk();
    RunKeeps(BLANK, steps);
  }

  // ---------------------------------------------------------------------
  // Exactly once, and fenced

  /** One event identifier changes a book at most once, however often and in
      whatever company it is delivered. */
  lemma EventsChangeOnce(steps: seq<Step>, i: nat, j: nat)
    requires Run(BLANK, steps)
    requires i < j < |After(BLANK, steps).changes|
    ensures After(BLANK, steps).changes[i].event != After(BLANK, steps).changes[j].event
  {
    Reachable(steps);
  }

  /** A known event identifier is answered without touching anything. */
  lemma KnownEventIsInert(h: History, s: Step)
    requires s.Report? && s.event.id in h.db.inbox
    ensures Next(h, s) == h
  {
  }

  /** So is an event of any other lifecycle version than the book's. */
  lemma ForeignEventIsInert(h: History, s: Step)
    requires s.Report? && s.event.book in h.db.books && s.event.lifecycle != h.db.books[s.event.book].lifecycle
    ensures Next(h, s) == h
  {
  }

  /** And of one that was made from other content, or from none that is left. */
  lemma OtherContentIsInert(h: History, s: Step)
    requires s.Report? && s.event.book in h.db.books
    requires h.db.books[s.event.book].content.Some? ==>
               h.db.books[s.event.book].content.value.checksum != s.event.source
    ensures Next(h, s) == h
  {
  }

  predicate SameCommand(a: CommandRow, b: CommandRow) {
    a.book == b.book && a.kind == b.kind && a.lifecycle == b.lifecycle
  }

  /** Nothing a book or the inbox has learned is unlearned by a step. */
  ghost predicate Remembers(h: History, next: History) {
    && (forall e :: e in h.db.inbox ==> e in next.db.inbox && next.db.inbox[e] == h.db.inbox[e])
    && (forall a :: a in h.db.acks ==> a in next.db.acks && next.db.acks[a] == h.db.acks[a])
    && (forall c :: c in h.db.commands ==> c in next.db.commands && SameCommand(h.db.commands[c], next.db.commands[c]))
    && forall b :: b in h.db.books ==>
         && b in next.db.books && h.db.books[b].lifecycle <= next.db.books[b].lifecycle
         && next.db.books[b].content in {h.db.books[b].content, None}
  }

  lemma FactsKeepContent(b: Row, f: Fact)
    requires Judge(b, f).Accepted?
    ensures Judge(b, f).row.content == b.content
  {
  }

  lemma UploadRemembers(h: History, s: Step)
    requires Inv(h) && s.Upload? && TxOf(h.db, s).Committed?
    ensures Remembers(h, Next(h, s))
  {
    hide Inv, Next, InsertAll;
    UploadEffect(h, s);
  }

  lemma ReportRemembers(h: History, s: Step)
    requires Inv(h) && s.Report? && TxOf(h.db, s).Committed? && Screened(h.db, s.event).None?
    ensures Remembers(h, Next(h, s))
  {
    hide Inv, Next, Judge, NextSequence, CommandsOk, OutboxOk, LedgerOk, RowOk, Appends;
    ReportEffect(h, s);
    InLedger(h, s.event.book);
    if Judge(h.db.books[s.event.book], s.event.fact).Accepted? {
      AcceptedOk(h.db.books[s.event.book], s.event, s.eventStatusId);
      FactsKeepContent(h.db.books[s.event.book], s.event.fact);
    }
  }

  lemma DirectRemembers(h: History, s: Step)
    requires Inv(h) && s.Direct?
    ensures Remembers(h, Next(h, s))
  {
    hide Inv, Next, NextSequence, CommandsOk, OutboxOk, LedgerOk, RowOk;
    DirectEffect(h, s);
    if Next(h, s) != h {
      var row :| Accepts(h, s.command, row, Next(h, s));
      InLedger(h, s.command.book);
      CommandedOk(h.db.books[s.command.book], s.command, s.command.statusId);
    }
  }

  lemma AckRemembers(h: History, s: Step)
    requires Inv(h) && (s.OriginalGone? || s.AckArrives?)
    ensures Remembers(h, Next(h, s))
  {
    hide Inv, Next, CommandsOk, OutboxOk, LedgerOk, RowOk, StatusOf, WithoutBook;
    if s.OriginalGone? { OriginalEffect(h, s); } else { ArrivalEffect(h, s); }
    AcksGrow(h, s);
  }

  lemma StepRemembers(h: History, s: Step)
    requires Inv(h) && Possible(h, s)
    ensures Remembers(h, Next(h, s))
  {
    hide Inv, Next, TxOf, Remembers;
    assert Remembers(h, h) by { RemembersItself(h); }
    match s {
      case Upload(_, _, _, _, _) =>
        if TxOf(h.db, s).Committed? { UploadRemembers(h, s); } else { Refused(h, s); }
      case Report(e, _, _) =>
        if TxOf(h.db, s).Committed? && Screened(h.db, e).None? { ReportRemembers(h, s); } else { Refused(h, s); }
      case Direct(_) => DirectRemembers(h, s);
      case OriginalGone(_, _, _, _) => AckRemembers(h, s);
      case AckArrives(_, _) => AckRemembers(h, s);
      case Deliver(outbox) =>
        Delivers(h, outbox);
        RemembersOutbox(h, outbox);
    }
  }

  lemma RemembersItself(h: History)
    ensures Remembers(h, h)
  {
  }

  lemma RemembersOutbox(h: History, outbox: map<EventId, OutboxRow>)
    ensures Remembers(h, h.(db := h.db.(outbox := outbox)))
  {
  }

  lemma AcksGrow(h: History, s: Step)
    requires s.AckArrives? || s.OriginalGone?
    ensures forall a :: a in h.db.acks ==> a in Next(h, s).db.acks && Next(h, s).db.acks[a] == h.db.acks[a]
  {
    hide StatusOf, Tombstone, WithoutActors, WithoutBook;
  }

  lemma {:induction false} RunRemembers(h: History, steps: seq<Step>)
    requires Inv(h) && Run(h, steps)
    ensures Remembers(h, After(h, steps))
    decreases |steps|
  {
    hide Inv, Next, Possible;
    if steps != [] {
      StepRemembers(h, steps[0]);
      StepKeeps(h, steps[0]);
      RunRemembers(Next(h, steps[0]), steps[1..]);
    }
  }

  /** The fence is permanent: once a command has moved a book past the version
      an event was issued under, no later delivery of it has any effect. */
  lemma StaleEventsStayFenced(h: History, steps: seq<Step>, s: Step)
    requires Inv(h) && Run(h, steps)
    requires s.Report? && s.event.book in h.db.books && s.event.lifecycle < h.db.books[s.event.book].lifecycle
    ensures Next(After(h, steps), s) == After(h, steps)
  {
    RunRemembers(h, steps);
    ForeignEventIsInert(After(h, steps), s);
  }

  /** The content of a book never changes: an event that was made from other content
      has no effect, whenever it comes. */
  lemma OtherContentStaysOut(h: History, steps: seq<Step>, s: Step)
    requires Inv(h) && Run(h, steps)
    requires s.Report? && s.event.book in h.db.books
    requires h.db.books[s.event.book].content.Some? ==>
               h.db.books[s.event.book].content.value.checksum != s.event.source
    ensures Next(After(h, steps), s) == After(h, steps)
  {
    hide Inv, Run, After, Next;
    RunRemembers(h, steps);
    OtherContentIsInert(After(h, steps), s);
  }

  /** A committed event is inert in every continuation, and answered as it was
      received: with success if its type and digest are the same, else as a conflict. */
  lemma RedeliveriesStayInert(h: History, first: Step, steps: seq<Step>, again: Step)
    requires Inv(h) && Possible(h, first) && first.Report? && TxOf(h.db, first).Committed?
    requires Run(Next(h, first), steps)
    requires again.Report? && again.event.id == first.event.id
    ensures Next(After(Next(h, first), steps), again) == After(Next(h, first), steps)
    ensures var db := After(Next(h, first), steps).db;
            TxOf(db, again) ==
            if again.event.eventType == first.event.eventType && again.event.digest == first.event.digest
            then Committed(db, false) else RolledBack(EventConflict)
  {
    hide Inv, Run, Next, Possible;
    StepKeeps(h, first);
    Received(h, first);
    RunRemembers(Next(h, first), steps);
    hide After;
    KnownEventIsInert(After(Next(h, first), steps), again);
  }

  lemma Received(h: History, first: Step)
    requires Inv(h) && first.Report? && TxOf(h.db, first).Committed?
    ensures var inbox := Next(h, first).db.inbox;
            && first.event.id in inbox
            && inbox[first.event.id] == Receipt(first.event.eventType, first.event.digest)
  {
    hide Inv, Next, Judge, NextSequence;
    if Screened(h.db, first.event).None? {
      ReportEffect(h, first);
    } else {
      Refused(h, first);
    }
  }

  /** So is an acknowledgement of a deletion. */
  lemma AcksStayInert(h: History, first: Step, steps: seq<Step>, again: Step)
    requires Inv(h) && Possible(h, first) && first.AckArrives? && TxOf(h.db, first).Committed?
    requires Run(Next(h, first), steps)
    requires again.AckArrives? && again.ack.id == first.ack.id
    ensures Next(After(Next(h, first), steps), again) == After(Next(h, first), steps)
    ensures var db := After(Next(h, first), steps).db;
            TxOf(db, again) ==
            if again.ack.ackType == first.ack.ackType && again.ack.digest == first.ack.digest
            then Committed(db, false) else RolledBack(EventConflict)
  {
    hide Inv, Run, Next, Possible;
    StepKeeps(h, first);
    AckReceived(h, first);
    RunRemembers(Next(h, first), steps);
    hide After;
    KnownAckIsInert(After(Next(h, first), steps), again);
  }

  lemma KnownAckIsInert(h: History, s: Step)
    requires s.AckArrives? && s.ack.id in h.db.acks
    ensures Next(h, s) == h
  {
  }

  lemma AckReceived(h: History, first: Step)
    requires first.AckArrives? && TxOf(h.db, first).Committed?
    ensures var acks := Next(h, first).db.acks;
            first.ack.id in acks && acks[first.ack.id] == Receipt(first.ack.ackType, first.ack.digest)
  {
    hide StatusOf, Tombstone, WithoutActors, WithoutBook;
  }

  // ---------------------------------------------------------------------
  // Status events

  predicate StatusRow(outbox: map<EventId, OutboxRow>, book: Id, id: EventId) {
    id in outbox && outbox[id].book == book && outbox[id].payload.StatusChanged?
  }

  ghost predicate HasVersion(outbox: map<EventId, OutboxRow>, book: Id, v: nat) {
    exists id :: StatusRow(outbox, book, id) && outbox[id].payload.event.version == v
  }

  /** The rows carry the versions 1, 2, ... `version`, each once, in sequence order. */
  ghost predicate Consecutive(outbox: map<EventId, OutboxRow>, book: Id, version: nat) {
    && (forall v :: 1 <= v <= version ==> HasVersion(outbox, book, v))
    && (forall id :: StatusRow(outbox, book, id) ==> 1 <= outbox[id].payload.event.version <= version)
    && (forall a, b :: StatusRow(outbox, book, a) && StatusRow(outbox, book, b) ==>
          (outbox[a].payload.event.version < outbox[b].payload.event.version <==>
              outbox[a].sequence < outbox[b].sequence))
  }

  predicate NewestRow(outbox: map<EventId, OutboxRow>, book: Id, r: Row, id: EventId) {
    StatusRow(outbox, book, id) && outbox[id].payload.event.version == r.version
  }

  /** The status events of a live book are numbered without a gap in the order
      in which the outbox hands them out, and the newest shows the book as it is,
      and whether it can be reindexed exactly if an even number of silent steps
      have come since. */
  lemma VersionsAreConsecutive(steps: seq<Step>, book: Id)
    requires Run(BLANK, steps)
    requires book in After(BLANK, steps).db.books && !After(BLANK, steps).db.books[book].status.Deleted?
    ensures var h := After(BLANK, steps);
            var outbox, r := h.db.outbox, h.db.books[book];
            && Consecutive(outbox, book, r.version)
            && (forall id :: NewestRow(outbox, book, r, id) ==>
                  && Projects(outbox[id].payload.event, r)
                  && (outbox[id].payload.event.canReindex == CanReindex(r) <==>
                       SilentSteps(BLANK, steps, book, 0) % 2 == 0))
  {
    hide Inv, Run, After, RowOk, CommandsOk, LedgerOk, OutboxOk, Consecutive, SilentSteps, CanReindex;
    Reachable(steps);
    var h := After(BLANK, steps);
    InLedger(h, book);
    LedgerInOrder(book, h.db.books[book], h.ledger[book], h.db.outbox);
    BlankOk();
    CurrentIfEven(BLANK, steps, book, 0);
  }

  lemma LedgerInOrder(book: Id, r: Row, ledger: seq<Entry>, outbox: map<EventId, OutboxRow>)
    requires LedgerOk(book, r, ledger) && OutboxOk(book, r, ledger, outbox) && !r.status.Deleted?
    ensures Consecutive(outbox, book, r.version)
    ensures ledger != []
    ensures forall id :: NewestRow(outbox, book, r, id) ==>
              outbox[id].payload.event == ledger[|ledger| - 1].event && Projects(outbox[id].payload.event, r)
  {
    hide Shape;
    forall v | 1 <= v <= r.version ensures HasVersion(outbox, book, v) {
      assert Stored(outbox, book, ledger[v - 1]);
      assert StatusRow(outbox, book, ledger[v - 1].event.id);
    }
    forall a | StatusRow(outbox, book, a)
      ensures var v := outbox[a].payload.event.version;
              1 <= v <= |ledger| && outbox[a].sequence == ledger[v - 1].sequence
                  && outbox[a].payload.event == ledger[v - 1].event
    {
      assert Stored(outbox, book, ledger[outbox[a].payload.event.version - 1]);
    }
  }

  // ---------------------------------------------------------------------
  // Deletion

  datatype Party = Originals | Artifacts | Index

  predicate Gone(r: Row, p: Party) {
    match p
    case Originals => r.originalDeleted
    case Artifacts => r.artifactsDeleted
    case Index => r.indexDeleted
  }

  predicate Speaks(s: Step, p: Party) {
    match p
    case Originals => s.OriginalGone?
    case Artifacts => s.AckArrives? && s.ack.ackType.ArtifactsDeletedV1?
    case Index => s.AckArrives? && s.ack.ackType.IndexDeletedV1?
  }

  /** In every reachable state a book is deleted exactly when all three parties
      have acknowledged, and its ledger holds one deleted event, the last, or none. */
  lemma DeletedIffAllGone(steps: seq<Step>, book: Id)
    requires Run(BLANK, steps) && book in After(BLANK, steps).db.books
    ensures var h := After(BLANK, steps);
            && book in h.ledger
            && (h.db.books[book].status.Deleted? <==> forall p :: Gone(h.db.books[book], p))
            && forall i :: 0 <= i < |h.ledger[book]| ==>
                 (h.ledger[book][i].event.status.Deleted? <==>
                     h.db.books[book].status.Deleted? && i == |h.ledger[book]| - 1)
  {
    hide Inv, Run, After, RowOk, CommandsOk, LedgerOk, OutboxOk;
    Reachable(steps);
    var h := After(BLANK, steps);
    InLedger(h, book);
    EndsDeleted(book, h.db.books[book], h.ledger[book]);
  }

  lemma EndsDeleted(book: Id, r: Row, ledger: seq<Entry>)
    requires RowOk(r) && LedgerOk(book, r, ledger)
    ensures r.status.Deleted? <==> forall p :: Gone(r, p)
    ensures forall i :: 0 <= i < |ledger| ==> (ledger[i].event.status.Deleted?
        <==> r.status.Deleted? && i == |ledger| - 1)
  {
    hide Shape;
    assert Gone(r, Originals) && Gone(r, Artifacts) && Gone(r, Index) <==> AllGone(r);
  }

  /** The party is heard at some point of the run: its acknowledgement of this
      deletion arrives, not as a redelivery. */
  ghost predicate Heard(h: History, steps: seq<Step>, book: Id, command: Id, lifecycle: nat, p: Party)
    decreases |steps|
  {
    steps != [] &&
    ((Speaks(steps[0], p) && Counts(h, steps[0], book, command, lifecycle))
     || Heard(Next(h, steps[0]), steps[1..], book, command, lifecycle, p))
  }

  /** How a book under deletion may have moved: flags, an overwritten manifest,
      and at the end the one tombstone with its one event. */
  ghost predicate Descends(book: Id, r: Row, ledger: seq<Entry>, r': Row, ledger': seq<Entry>) {
    && (r.status.Deleting? || r.status.Deleted?) && r'.commandId == r.commandId && r'.lifecycle == r.lifecycle
    && (r'.status.Deleting? ==>
          && r.status.Deleting? && ledger' == ledger
          && r' == r.(originalDeleted := r'.originalDeleted, artifactsDeleted := r'.artifactsDeleted,
               indexDeleted := r'.indexDeleted,
                      manifestRef := r'.manifestRef, manifestDigest := r'.manifestDigest))
    && (r'.status.Deleting? || r'.status.Deleted?)
    && (r'.status.Deleted? && r.status.Deleted? ==> r' == r && ledger' == ledger)
    && (r'.status.Deleted? && r.status.Deleting? ==>
          && r' == Tombstone(r.(originalDeleted := true, artifactsDeleted := true, indexDeleted := true), r'.updatedAt)
          && ledger' == ledger + [Entry(StatusOf(FinalId(book, r'), book, r'), 0)])
  }

  lemma DescendsOn(book: Id, r: Row, l: seq<Entry>, r': Row, l': seq<Entry>, r'': Row, l'': seq<Entry>)
    requires Descends(book, r, l, r', l') && Descends(book, r', l', r'', l'')
    ensures Descends(book, r, l, r'', l'')
  {
    hide StatusOf, FinalId;
  }

  /** One step of any kind, seen by a book under deletion. */
  lemma DeletionStep(h: History, s: Step, book: Id)
    requires Inv(h) && Possible(h, s) && book in h.db.books && book in h.ledger
    requires h.db.books[book].status.Deleting? || h.db.books[book].status.Deleted?
    ensures var r := h.db.books[book];
            var next := Next(h, s);
            && book in next.db.books && book in next.ledger
            && Descends(book, r, h.ledger[book], next.db.books[book], next.ledger[book])
            && forall p :: Gone(next.db.books[book], p)
                 <==> Gone(r, p) || (Speaks(s, p) && Counts(h, s, book, r.commandId, r.lifecycle))
  {
    hide Inv, Next, Judge, NextSequence, CommandsOk, OutboxOk, LedgerOk, Appends, InsertAll;
    var next, r := Next(h, s), h.db.books[book];
    InLedger(h, book);
    match s {
      case Upload(_, _, _, _, _) =>
        if TxOf(h.db, s).Committed? { UploadEffect(h, s); } else { Refused(h, s); }
      case Report(e, _, _) => DeletingReport(h, s, book);
      case Direct(c) =>
        DirectEffect(h, s);
        if next != h {
          var row :| Accepts(h, c, row, next);
          assert c.book != book;
        }
      case OriginalGone(_, _, _, _) =>
        OriginalEffect(h, s);
        DeletionAck(h, s, next, book);
      case AckArrives(_, _) =>
        ArrivalEffect(h, s);
        DeletionAck(h, s, next, book);
      case Deliver(outbox) => Delivers(h, outbox);
    }
  }

  lemma DeletingReport(h: History, s: Step, book: Id)
    requires Inv(h) && s.Report? && book in h.db.books && book in h.ledger
    requires h.db.books[book].status.Deleting? || h.db.books[book].status.Deleted?
    ensures var next := Next(h, s);
            && book in next.db.books && book in next.ledger && next.ledger[book] == h.ledger[book]
            && var r := h.db.books[book];
               next.db.books[book] == r.(manifestRef := next.db.books[book].manifestRef,
                   manifestDigest := next.db.books[book].manifestDigest)
               && (r.status.Deleted? ==> next.db.books[book] == r)
  {
    hide Inv, Next, NextSequence, CommandsOk, OutboxOk, LedgerOk, Appends, Judge;
    if TxOf(h.db, s).Committed? && Screened(h.db, s.event).None? {
      ReportEffect(h, s);
      InLedger(h, s.event.book);
      AcceptedRow(h.db.books[s.event.book], s.event.fact);
    } else {
      Refused(h, s);
    }
  }

  lemma DeletionAck(h: History, s: Step, next: History, book: Id)
    requires (s.OriginalGone? || s.AckArrives?) && book in h.db.books && book in h.ledger && RowOk(h.db.books[book])
    requires h.db.books[book].status.Deleting? || h.db.books[book].status.Deleted?
    requires (next == h && Unheeded(h, s)) || AckLeaves(h, s, next)
    ensures && book in next.db.books && book in next.ledger
            && var r := h.db.books[book];
               && Descends(book, r, h.ledger[book], next.db.books[book], next.ledger[book])
               && forall p :: Gone(next.db.books[book], p)
                    <==> Gone(r, p) || (Speaks(s, p) && Counts(h, s, book, r.commandId, r.lifecycle))
  {
    hide StatusOf, FinalId, RowOk;
    var r := h.db.books[book];
    if BookOf(s) == book {
      MarkedOk(r, s);
      if next == h {
        UnheededFlags(h, s, book);
      } else {
        MarkedFlags(r, s);
      }
    }
  }

  lemma MarkedFlags(r: Row, s: Step)
    requires s.OriginalGone? || s.AckArrives?
    requires s.AckArrives? ==> !s.ack.ackType.OtherAck?
    ensures forall p :: Gone(Marked(r, s), p) <==> Gone(r, p) || Speaks(s, p)
  {
  }

  lemma UnheededFlags(h: History, s: Step, book: Id)
    requires (s.OriginalGone? || s.AckArrives?) && book in h.db.books && BookOf(s) == book && Unheeded(h, s)
    requires h.db.books[book].status.Deleting? || h.db.books[book].status.Deleted?
    ensures var r := h.db.books[book];
            forall p :: Speaks(s, p) && Counts(h, s, book, r.commandId, r.lifecycle) ==> Gone(r, p)
  {
    var r := h.db.books[book];
    if Counts(h, s, book, r.commandId, r.lifecycle) {
      MarkedFlags(r, s);
    }
  }

  /** Confluence of deletion. Whatever else happens, in whatever order, with
      whatever repetition, the book is described by which parties were heard:
      short of all three it is the deleting row with those flags, and with all
      three it is the one tombstone of that row, announced once. Nothing else
      moves it, ever. Only the time of the last acknowledgement is not fixed. */
  lemma {:induction false} DeletionConverges(h: History, steps: seq<Step>, book: Id)
    requires Inv(h) && Run(h, steps) && book in h.db.books && book in h.ledger
    requires h.db.books[book].status.Deleting? || h.db.books[book].status.Deleted?
    ensures var r := h.db.books[book];
            var end := After(h, steps);
            && book in end.db.books && book in end.ledger
            && Descends(book, r, h.ledger[book], end.db.books[book], end.ledger[book])
            && forall p :: Gone(end.db.books[book], p)
                 <==> Gone(r, p) || Heard(h, steps, book, r.commandId, r.lifecycle, p)
    decreases |steps|
  {
    hide Inv, Next, Possible, Gone, Speaks, Counts, StatusOf, FinalId;
    var r := h.db.books[book];
    if steps == [] {
      DescendsFromItself(h, book);
    } else {
      var next := Next(h, steps[0]);
      DeletionStep(h, steps[0], book);
      StepKeeps(h, steps[0]);
      DeletionConverges(next, steps[1..], book);
      var end := After(h, steps);
      DescendsOn(book, r, h.ledger[book], next.db.books[book], next.ledger[book], end.db.books[book], end.ledger[book]);
    }
  }

  lemma DescendsFromItself(h: History, book: Id)
    requires Inv(h) && book in h.db.books && book in h.ledger
    requires h.db.books[book].status.Deleting? || h.db.books[book].status.Deleted?
    ensures Descends(book, h.db.books[book], h.ledger[book], h.db.books[book], h.ledger[book])
  {
  }

  // ---------------------------------------------------------------------
  // What Edge makes of the events

  /** Edge accepts every status event Catalog ever commits, except exactly those
      of a reindexed book that still carries a failure detail. */
  lemma EdgeAcceptsAllButLeftovers(steps: seq<Step>, book: Id, i: nat)
    requires Run(BLANK, steps)
    requires book in After(BLANK, steps).ledger && i < |After(BLANK, steps).ledger[book]|
    ensures var e := After(BLANK, steps).ledger[book][i].event;
            EdgeStatus.Accepts(e) <==>
            !((e.status.Reindexing? || e.status.Deleting?) && e.stage.ChunksReadyStage? && e.detail != "")
  {
    Reachable(steps);
    var h := After(BLANK, steps);
    assert BookOk(h, book);
    var e := h.ledger[book][i].event;
    assert Shape(e.status, e.stage, e.failure, e.detail) && 1 <= e.version;
    hide Inv, Run, BookOk, Next;
    EdgeStatus.ShapeIsValidUnlessLeftover(e.version, e.lifecycle, e);
  }

  // ---------------------------------------------------------------------
  // How a leftover arises

  const SAMPLE_CONTENT: Content := Content(Metadata("t", "a", 2000, []), 5, 7, 1, "application/pdf", 3)

  function SampleReport(id: Id, eventType: EventType, manifest: nat, fact: Fact): ProcessingEvent {
    ProcessingEvent(id, eventType, 1, 7, id, 1, manifest, manifest, fact)
  }

  const SAMPLE_UPLOAD: Step := Upload(1, SAMPLE_CONTENT, Generated(1), Generated(2), 10)
  const SAMPLE_FAILURE: Step :=
    Report(SampleReport(1, ProcessingFailedV1, 0, Fact(FailedFact, ResourceLimitExceeded, "pages", 11)),
        Generated(3), 11)
  const SAMPLE_CHUNKS: Step :=
      Report(SampleReport(2, ChunksReadyV1, 9, Fact(ChunksReadyFact, NoFailure, "", 12)), Generated(4), 12)
  const SAMPLE_REINDEX: Step := Direct(Command(ReindexCommand, 1, 20, 3, Generated(5), Generated(6), 13))

  /** Extraction fails on a resource limit, with a detail; its chunks arrive after
      all, which overwrites only the manifest; the librarian reindexes. */
  const LEFTOVER_RUN: seq<Step> := [SAMPLE_UPLOAD] + ([SAMPLE_FAILURE] + ([SAMPLE_CHUNKS] + ([SAMPLE_REINDEX] + [])))

  /** What the sample run reaches, step by step. */
  ghost predicate Sampled(h: History, row: Row, inbox: set<Id>, keys: set<EventId>, events: nat) {
    && Inv(h) && 1 in h.db.books && h.db.books[1] == row && h.db.inbox.Keys == inbox && h.db.commands == map[]
    && h.db.outbox.Keys == keys && 1 in h.ledger && |h.ledger[1]| == events
  }

  const SAMPLE_ROW: Row := UploadedRow(SAMPLE_CONTENT, 10)
  const SAMPLE_FAILED: Row := SAMPLE_ROW.(status := Failed, stage := FailedStage, failure := ResourceLimitExceeded,
                                        detail := "pages", version := 2, updatedAt := 11)
  const SAMPLE_READY: Row := SAMPLE_FAILED.(manifestRef := 9, manifestDigest := 9)

  /** The failing half of EdgeAcceptsAllButLeftovers is reachable: Edge refuses
      the event that announces this reindexing. */
  lemma EdgeRefusesLeftover()
    ensures Run(BLANK, LEFTOVER_RUN)
    ensures var h := After(BLANK, LEFTOVER_RUN);
            && 1 in h.ledger && |h.ledger[1]| == 3
            && h.ledger[1][2].event.status.Reindexing? && h.ledger[1][2].event.detail == "pages"
            && !EdgeStatus.Accepts(h.ledger[1][2].event)
  {
    hide Next, Sampled;
    var h1 := Next(BLANK, SAMPLE_UPLOAD);
    var h2 := Next(h1, SAMPLE_FAILURE);
    var h3 := Next(h2, SAMPLE_CHUNKS);
    AfterUpload(h1);
    AfterFailure(h1, h2);
    AfterLateChunks(h2, h3);
    AfterReindex(h3, Next(h3, SAMPLE_REINDEX));
    RunFrom(h3, SAMPLE_REINDEX, []);
    RunFrom(h2, SAMPLE_CHUNKS, [SAMPLE_REINDEX] + []);
    RunFrom(h1, SAMPLE_FAILURE, [SAMPLE_CHUNKS] + ([SAMPLE_REINDEX] + []));
    RunFrom(BLANK, SAMPLE_UPLOAD, [SAMPLE_FAILURE] + ([SAMPLE_CHUNKS] + ([SAMPLE_REINDEX] + [])));
  }

  /** The first three steps of that run: the late chunks make the failed book
      reindexable, and its newest event still says that it is not. */
  lemma ManifestMovesSilently()
    ensures var steps := [SAMPLE_UPLOAD] + ([SAMPLE_FAILURE] + ([SAMPLE_CHUNKS] + []));
            var h := After(BLANK, steps);
            && Run(BLANK, steps)
            && 1 in h.db.books && CanReindex(h.db.books[1])
            && 1 in h.ledger && |h.ledger[1]| == 2 && !h.ledger[1][1].event.canReindex
            && Silent(After(BLANK, [SAMPLE_UPLOAD] + ([SAMPLE_FAILURE] + [])), SAMPLE_CHUNKS)
  {
    hide Next, Sampled, Silent, Possible;
    var h1 := Next(BLANK, SAMPLE_UPLOAD);
    var h2 := Next(h1, SAMPLE_FAILURE);
    AfterUpload(h1);
    AfterFailure(h1, h2);
    FailedEvent(h1, h2);
    LateChunks(h2);
    SamplesPossible(h1, h2);
    RunFrom(h2, SAMPLE_CHUNKS, []);
    RunFrom(h1, SAMPLE_FAILURE, [SAMPLE_CHUNKS] + []);
    RunFrom(BLANK, SAMPLE_UPLOAD, [SAMPLE_FAILURE] + ([SAMPLE_CHUNKS] + []));
    RunFrom(h1, SAMPLE_FAILURE, []);
    RunFrom(BLANK, SAMPLE_UPLOAD, [SAMPLE_FAILURE] + []);
  }

  lemma SamplesPossible(h1: History, h2: History)
    ensures Possible(BLANK, SAMPLE_UPLOAD) && Possible(h1, SAMPLE_FAILURE) && Possible(h2, SAMPLE_CHUNKS)
  {
  }

  lemma FailedEvent(h1: History, h2: History)
    requires Sampled(h1, SAMPLE_ROW, {}, {Generated(1), Generated(2)}, 1) && h2 == Next(h1, SAMPLE_FAILURE)
    ensures 1 in h2.ledger && |h2.ledger[1]| == 2 && !h2.ledger[1][1].event.canReindex
  {
    hide Inv, NextSequence, TxOf, Next;
    assert Judge(SAMPLE_ROW, SAMPLE_FAILURE.event.fact) == Accepted(SAMPLE_FAILED);
    AcceptedCommits(h1, SAMPLE_FAILURE, SAMPLE_FAILED);
    ReportEffect(h1, SAMPLE_FAILURE);
  }

  lemma LateChunks(h2: History)
    requires Sampled(h2, SAMPLE_FAILED, {1}, {Generated(1), Generated(2), Generated(3)}, 2)
    ensures Silent(h2, SAMPLE_CHUNKS)
    ensures var h3 := Next(h2, SAMPLE_CHUNKS); 1 in h3.db.books && CanReindex(h3.db.books[1]) && h3.ledger == h2.ledger
  {
    hide Inv, NextSequence, TxOf, Next;
    assert Judge(SAMPLE_FAILED, SAMPLE_CHUNKS.event.fact) == Absorbed;
    AbsorbedChunks(h2, SAMPLE_CHUNKS);
  }

  lemma RunFrom(h: History, s: Step, rest: seq<Step>)
    requires Possible(h, s) && Run(Next(h, s), rest)
    ensures Run(h, [s] + rest) && After(h, [s] + rest) == After(Next(h, s), rest)
  {
    hide Next, Possible;
    assert ([s] + rest)[1..] == rest;
  }

  lemma AfterUpload(h: History)
    requires h == Next(BLANK, SAMPLE_UPLOAD)
    ensures Sampled(h, SAMPLE_ROW, {}, {Generated(1), Generated(2)}, 1)
  {
    BlankOk();
    UploadCommits();
    hide TxOf, Next;
    UploadEffect(BLANK, SAMPLE_UPLOAD);
    UploadKeeps(BLANK, SAMPLE_UPLOAD);
    hide Inv;
  }

  lemma UploadCommits()
    ensures TxOf(BLANK.db, SAMPLE_UPLOAD).Committed?
  {
    var events := UploadEvents(1, SAMPLE_ROW, Generated(1), Generated(2), 10);
    var none: map<EventId, OutboxRow> := map[];
    var first := none[Generated(1) := FreshRow(1, 0, events[0].payload, 10)];
    var second := first[Generated(2) := FreshRow(1, 1, events[1].payload, 10)];
    assert events[1..][1..] == [];
    assert SequencesOf(none, 1) == {};
    assert 1 !in SequencesOf(first, 1);
    assert InsertAll(second, 1, []) == Some(second);
    assert InsertAll(first, 1, events[1..]) == Some(second);
    assert InsertAll(none, 1, events) == Some(second);
  }

  lemma AcceptedCommits(h: History, s: Step, row: Row)
    requires s.Report? && Screened(h.db, s.event).None?
        && Judge(h.db.books[s.event.book], s.event.fact) == Accepted(row)
    requires s.eventStatusId !in h.db.outbox
    ensures TxOf(h.db, s).Committed?
  {
    hide Judge, NextSequence;
  }

  lemma AbsorbedChunks(h: History, s: Step)
    requires s.Report? && Screened(h.db, s.event).None? && Judge(h.db.books[s.event.book], s.event.fact) == Absorbed
    requires s.event.fact.kind.ChunksReadyFact? && s.event.manifestRef != 0
    ensures var e := s.event;
            Next(h, s) == h.(db := h.db.(inbox := h.db.inbox[e.id := Receipt(e.eventType, e.digest)],
                                          books := h.db.books[e.book := WithManifest(h.db.books[e.book], e)]))
  {
    hide Judge, NextSequence;
  }

  lemma CommandCommits(h: History, s: Step, row: Row)
    requires Inv(h) && s.Direct? && s.command.book in h.db.books && s.command.id !in h.db.commands
    requires !h.db.books[s.command.book].status.Deleted? && Commanded(h.db.books[s.command.book], s.command) == Ok(row)
    requires s.command.requestId !in h.db.outbox && s.command.statusId !in h.db.outbox
        && s.command.requestId != s.command.statusId
    ensures Accepts(h, s.command, row, Next(h, s))
  {
    hide Inv, NextSequence, Commanded, GenerationTaken;
    GenerationIsFree(h, s.command);
  }

  lemma AfterFailure(h1: History, h: History)
    requires Sampled(h1, SAMPLE_ROW, {}, {Generated(1), Generated(2)}, 1) && h == Next(h1, SAMPLE_FAILURE)
    ensures Sampled(h, SAMPLE_FAILED, {1}, {Generated(1), Generated(2), Generated(3)}, 2)
  {
    hide Inv, NextSequence, TxOf, Next;
    assert Judge(SAMPLE_ROW, SAMPLE_FAILURE.event.fact) == Accepted(SAMPLE_FAILED);
    AcceptedCommits(h1, SAMPLE_FAILURE, SAMPLE_FAILED);
    ReportEffect(h1, SAMPLE_FAILURE);
    ReportKeeps(h1, SAMPLE_FAILURE);
  }

  lemma AfterLateChunks(h2: History, h: History)
    requires Sampled(h2, SAMPLE_FAILED, {1}, {Generated(1), Generated(2), Generated(3)}, 2)
        && h == Next(h2, SAMPLE_CHUNKS)
    ensures Sampled(h, SAMPLE_READY, {1, 2}, {Generated(1), Generated(2), Generated(3)}, 2)
  {
    hide Inv, NextSequence, TxOf, Next;
    assert Judge(SAMPLE_FAILED, SAMPLE_CHUNKS.event.fact) == Absorbed;
    AbsorbedChunks(h2, SAMPLE_CHUNKS);
    ReportKeeps(h2, SAMPLE_CHUNKS);
  }

  lemma AfterReindex(h3: History, h: History)
    requires Sampled(h3, SAMPLE_READY, {1, 2}, {Generated(1), Generated(2), Generated(3)}, 2)
        && h == Next(h3, SAMPLE_REINDEX)
    ensures 1 in h.ledger && |h.ledger[1]| == 3
    ensures var e := h.ledger[1][2].event;
            e.status.Reindexing? && e.stage.ChunksReadyStage? && e.detail == "pages"
  {
    hide Inv, NextSequence, TxOf, Next;
    var row := SAMPLE_READY.(lifecycle := 2, version := 3, updatedAt := 13, commandId := 20,
                            status := Reindexing, stage := ChunksReadyStage, failure := NoFailure);
    assert Commanded(SAMPLE_READY, SAMPLE_REINDEX.command) == Ok(row);
    CommandCommits(h3, SAMPLE_REINDEX, row);
  }
}
