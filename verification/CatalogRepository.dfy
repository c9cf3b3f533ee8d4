/**
 The transactions of Catalog as methods over mutable tables, proved to do what
 the functions of module Catalog say
 (services/catalog-service/repository/postgres_book_repository.go).

 Uncommitted work lives in local copies of the tables; a return before the
 final assignments is the deferred rollback.
 */
module CatalogRepository {
  import opened Prelude
  import opened Domain
  import opened Catalog
  import RetryDelay

  class Repository {
    var books: map<Id, Row>
    var inbox: map<Id, Receipt<EventType>>
    var acks: map<Id, Receipt<AckType>>
    var commands: map<Id, CommandRow>
    var outbox: map<EventId, OutboxRow>
    const retryBase: nat
    const retryMaximum: nat

    constructor (retryBase: nat, retryMaximum: nat)
      requires 0 < retryBase <= retryMaximum < RetryDelay.LIMIT
      ensures Snapshot() == Db(map[], map[], map[], map[], map[])
      ensures this.retryBase == retryBase && this.retryMaximum == retryMaximum
    {
      books, inbox, acks, commands, outbox := map[], map[], map[], map[], map[];
      this.retryBase, this.retryMaximum := retryBase, retryMaximum;
    }

    function Snapshot(): Db
      reads this
    {
      Db(books, inbox, acks, commands, outbox)
    }

    /** The reply and the tables agree with the transaction's specification. */
    ghost predicate Settles(before: Db, tx: Tx, changed: bool, error: Option<CatalogError>)
      reads this
    {
      match tx
      case Committed(after, did) => Snapshot() == after && changed == did && error == None
      case RolledBack(e) => Snapshot() == before && !changed && error == Some(e)
    }

    method Create(book: Id, row: Row, events: seq<NewEvent>) returns (changed: bool, error: Option<CatalogError>)
      modifies this
      ensures Settles(old(Snapshot()), Catalog.Create(old(Snapshot()), book, row, events), changed, error)
    {
      if |events| == 0 {
        return false, Some(NoEvents);
      }
      if book in books {
        return false, Some(DatabaseError);
      }
      var tx := outbox;
      for i := 0 to |events|
        invariant InsertAll(outbox, book, events) == InsertAll(tx, book, events[i..])
      {
        var e := events[i];
        assert events[i..][1..] == events[i + 1..];
        if e.id in tx || e.sequence in SequencesOf(tx, book) {
          return false, Some(DatabaseError);
        }
        tx := tx[e.id := FreshRow(book, e.sequence, e.payload, e.occurredAt)];
      }
      books, outbox := books[book := row], tx;
      return true, None;
    }

    /** SELECT COALESCE(MAX(sequence), -1) + 1 */
    method AllocateSequence(book: Id) returns (n: nat)
      ensures n == NextSequence(outbox, book)
    {
      n := 0;
      var unread := outbox.Keys;
      while unread != {}
        invariant unread <= outbox.Keys
        invariant forall id :: id in outbox && id !in unread && outbox[id].book == book ==> outbox[id].sequence < n
        invariant n == 0 || exists id :: id in outbox && outbox[id].book == book && outbox[id].sequence == n - 1
        decreases |unread|
      {
        var id :| id in unread;
        unread := unread - {id};
        if outbox[id].book == book && n <= outbox[id].sequence {
          n := outbox[id].sequence + 1;
        }
      }
    }

    method ApplyProcessingEvent(e: ProcessingEvent, statusId: EventId, now: Time)
      returns (changed: bool, error: Option<CatalogError>)
      modifies this
      ensures Settles(old(Snapshot()), ApplyEvent(old(Snapshot()), e, statusId, now), changed, error)
    {
      if e.id in inbox {
        if inbox[e.id].kind != e.eventType || inbox[e.id].digest != e.digest {
          return false, Some(EventConflict);
        }
        return false, None;
      }
      if e.book !in books || books[e.book].status == Deleted {
        return false, Some(NotFound);
      }
      if books[e.book].content.None? {
        return false, Some(DatabaseError);
      }
      if books[e.book].content.value.checksum != e.source {
        return false, Some(EventConflict);
      }
      if e.lifecycle != books[e.book].lifecycle {
        return false, Some(EventConflict);
      }
      changed, error := ApplyToBook(e, statusId, now);
    }

    method ApplyToBook(e: ProcessingEvent, statusId: EventId, now: Time)
      returns (changed: bool, error: Option<CatalogError>)
      requires e.book in books
      modifies this
      ensures Settles(old(Snapshot()), ApplyScreened(old(Snapshot()), e, statusId, now), changed, error)
    {
      hide Judge;
      var book := new Book(books[e.book]);
      var failed;
      changed, failed := book.ApplyProcessingFact(e.fact);
      if failed.Some? {
        return false, Some(DomainFailure(failed.value));
      }
      if e.fact.kind == ChunksReadyFact {
        book.manifestRef, book.manifestDigest := e.manifestRef, e.manifestDigest;
      }
      var row := book.State();
      var txBooks, txOutbox := books, outbox;
      if changed {
        if statusId in outbox {
          return false, Some(DatabaseError);
        }
        txBooks := books[e.book := StoredManifest(row)];
        var sequence := AllocateSequence(e.book);
        txOutbox := outbox[statusId := FreshRow(e.book, sequence, StatusChanged(StatusOf(statusId, e.book, row)), now)];
      } else if e.fact.kind == ChunksReadyFact {
        if row.manifestRef == 0 {
          return false, Some(DatabaseError);
        }
        txBooks := books[e.book := books[e.book].(manifestRef := row.manifestRef,
            manifestDigest := row.manifestDigest)];
      }
      inbox := inbox[e.id := Receipt(e.eventType, e.digest)];
      books, outbox := txBooks, txOutbox;
      return changed, None;
    }

    method ApplyLifecycleCommand(c: Command) returns (changed: bool, error: Option<CatalogError>)
      modifies this
      ensures Settles(old(Snapshot()), ApplyCommand(old(Snapshot()), c), changed, error)
    {
      if c.book !in books {
        return false, Some(NotFound);
      }
      if c.id in commands {
        var existing := commands[c.id];
        if existing.book != c.book || existing.kind != c.kind {
          return false, Some(InvalidCommand);
        }
        if books[c.book].lifecycle != existing.lifecycle {
          return false, Some(EventConflict);
        }
        return false, None;
      }
      if books[c.book].status == Deleted {
        return false, Some(NotFound);
      }
      var book := new Book(books[c.book]);
      error := Direct(book, c);
      if error.Some? {
        return false, error;
      }
      var row := book.State();
      if GenerationTaken(commands, c.book, row.lifecycle) {
        return false, Some(DatabaseError);
      }
      if c.requestId in outbox || c.statusId in outbox || c.requestId == c.statusId {
        return false, Some(DatabaseError);
      }
      var sequence := AllocateSequence(c.book);
      books := books[c.book := row];
      commands := commands[c.id := CommandRow(c.book, c.kind, row.lifecycle, Some(c.actor))];
      outbox := outbox[c.requestId := FreshRow(c.book, sequence, RequestOf(c, row), c.occurredAt)]
                      [c.statusId := FreshRow(c.book, sequence + 1, StatusChanged(StatusOf(c.statusId, c.book, row)),
                          c.occurredAt)];
      return true, None;
    }

    /** Moves the aggregate as the command asks. */
    static method Direct(book: Book, c: Command) returns (error: Option<CatalogError>)
      modifies book
      ensures var r := Commanded(old(book.State()), c);
              if r.Ok? then book.State() == r.value && error == None else error == Some(r.error)
    {
      hide ReindexableFailure, ValidTransition, CanReindex;
      match c.kind {
        case ReindexCommand =>
          if !CanReindex(book.State()) {
            return Some(DomainFailure(InvalidTransition));
          }
          book.status := Reindexing;
          book.stage := ChunksReadyStage;
          book.failure := NoFailure;
        case DeleteCommand =>
          var moved := book.TransitionTo(Deleting);
          if !moved {
            return Some(DomainFailure(InvalidTransition));
          }
          book.originalDeleted := false;
          book.artifactsDeleted := false;
          book.indexDeleted := false;
        case OtherCommand =>
          return Some(InvalidCommand);
      }
      OpenGeneration(book, c);
      return None;
    }

    static method OpenGeneration(book: Book, c: Command)
      modifies book
      ensures var b := old(book.State());
              book.State() == b.(lifecycle := b.lifecycle + 1, version := b.version + 1, updatedAt := c.occurredAt,
                  commandId := c.id)
    {
      book.lifecycle := book.lifecycle + 1;
      book.version := book.version + 1;
      book.updatedAt := c.occurredAt;
      book.commandId := c.id;
    }

    static method Erase(book: Book, now: Time)
      modifies book
      ensures book.State() == Tombstone(old(book.State()), now)
    {
      book.status := Deleted;
      book.version := book.version + 1;
      book.updatedAt := now;
      book.content := None;
      book.stage := NoStage;
      book.failure := NoFailure;
      book.detail := "";
      book.manifestRef, book.manifestDigest := 0, 0;
    }

    /** Commits the tombstone, or reports the error that rolls the caller back. */
    method FinalizeDeletion(id: Id, book: Book, now: Time) returns (error: Option<CatalogError>)
      modifies this, book
      ensures var tx := Finalize(old(Snapshot()), id, old(book.State()), now);
              if tx.Committed? then Snapshot() == tx.db && error == None
              else Snapshot() == old(Snapshot()) && error == Some(tx.error)
    {
      if book.commandId !in commands {
        return Some(DatabaseError);
      }
      Erase(book, now);
      var row := book.State();
      var eventId := FinalId(id, row);
      var kept := WithoutBook(outbox, id);
      if eventId in kept {
        return Some(DatabaseError);
      }
      books := books[id := row];
      commands := WithoutActors(commands, id);
      outbox := kept[eventId := FreshRow(id, 0, StatusChanged(StatusOf(eventId, id, row)), now)];
      return None;
    }

    method MarkOriginalDeleted(id: Id, command: Id, lifecycle: nat, now: Time)
      returns (changed: bool, error: Option<CatalogError>)
      modifies this
      ensures Settles(old(Snapshot()), MarkOriginal(old(Snapshot()), id, command, lifecycle, now), changed, error)
    {
      if id !in books {
        return false, Some(DatabaseError);
      }
      var book := new Book(books[id]);
      if book.commandId != command || book.lifecycle != lifecycle
          || (book.status != Deleting && book.status != Deleted) {
        return false, Some(EventConflict);
      }
      if book.originalDeleted {
        return false, None;
      }
      book.originalDeleted := true;
      if book.artifactsDeleted && book.indexDeleted {
        error := FinalizeDeletion(id, book, now);
        return error.None?, error;
      }
      books := books[id := book.State()];
      return true, None;
    }

    method ApplyLifecycleAck(a: Ack, now: Time) returns (changed: bool, error: Option<CatalogError>)
      modifies this
      ensures Settles(old(Snapshot()), ApplyAck(old(Snapshot()), a, now), changed, error)
    {
      if a.id in acks {
        if acks[a.id].kind != a.ackType || acks[a.id].digest != a.digest {
          return false, Some(EventConflict);
        }
        return false, None;
      }
      if a.ackType == OtherAck || a.book !in books {
        return false, Some(DatabaseError);
      }
      var book := new Book(books[a.book]);
      if book.commandId != a.command || book.lifecycle != a.lifecycle
          || (book.status != Deleting && book.status != Deleted) {
        return false, Some(EventConflict);
      }
      changed := false;
      if a.ackType == ArtifactsDeletedV1 {
        if !book.artifactsDeleted {
          book.artifactsDeleted := true;
          changed := true;
        }
      } else if !book.indexDeleted {
        book.indexDeleted := true;
        changed := true;
      }
      var rollback := acks;
      acks := acks[a.id := Receipt(a.ackType, a.digest)];
      if changed && book.originalDeleted && book.artifactsDeleted && book.indexDeleted {
        error := FinalizeDeletion(a.book, book, now);
        if error.Some? {
          acks := rollback;
          return false, error;
        }
      } else if changed {
        books := books[a.book := book.State()];
      }
      return changed, None;
    }

    // -------------------------------------------------------------------
    // Leases

    method EarliestOf(ids: set<EventId>) returns (first: EventId)
      requires ids != {} && ids <= outbox.Keys
      ensures first in ids
      ensures forall id :: id in ids ==> !ClaimedBefore(outbox[id], outbox[first])
    {
      first :| first in ids;
      var unread := ids;
      while unread != {}
        invariant unread <= ids && first in ids
        invariant forall id :: id in ids && id !in unread ==> !ClaimedBefore(outbox[id], outbox[first])
        decreases |unread|
      {
        var id :| id in unread;
        unread := unread - {id};
        if ClaimedBefore(outbox[id], outbox[first]) {
          first := id;
        }
      }
    }

    /** The first rows of `candidates` in claim order. */
    method FirstBatch(candidates: set<EventId>) returns (claimed: seq<EventId>)
      requires candidates <= outbox.Keys
      ensures |claimed| <= BATCH && Distinct(claimed)
      ensures forall i :: 0 <= i < |claimed| ==> claimed[i] in candidates
      ensures forall id :: id in candidates && id !in claimed ==>
                |claimed| == BATCH && forall i :: 0 <= i < |claimed| ==> !ClaimedBefore(outbox[id], outbox[claimed[i]])
    {
      claimed := [];
      var waiting := candidates;
      while |claimed| < BATCH && waiting != {}
        invariant |claimed| <= BATCH && Distinct(claimed)
        invariant waiting <= candidates
        invariant forall i :: 0 <= i < |claimed| ==> claimed[i] in candidates && claimed[i] !in waiting
        invariant forall id :: id in candidates ==> id in waiting || id in claimed
        invariant forall id, i :: id in waiting && 0 <= i < |claimed| ==> !ClaimedBefore(outbox[id], outbox[claimed[i]])
        decreases |waiting|
      {
        var first := EarliestOf(waiting);
        waiting := waiting - {first};
        claimed := claimed + [first];
      }
    }

    /** `locked` are the rows that SKIP LOCKED passes over. */
    method ClaimOutbox(now: Time, lease: Time, locked: set<EventId>) returns (claimed: seq<EventId>)
      modifies this`outbox
      ensures ValidClaim(old(outbox), now, claimed)
      ensures forall i :: 0 <= i < |claimed| ==> claimed[i] !in locked
      ensures outbox == Leased(old(outbox), (set id | id in claimed), now + lease)
      ensures forall id :: Claimable(old(outbox), id, now) && id !in locked && id !in claimed ==> |claimed| == BATCH
      ensures forall id, i ::
                Claimable(old(outbox), id, now) && id !in locked && id !in claimed && 0 <= i < |claimed| ==>
                var earlier, later := old(outbox)[claimed[i]], old(outbox)[id];
                && earlier.nextAttemptAt <= later.nextAttemptAt
                && (earlier.nextAttemptAt == later.nextAttemptAt ==>
                      && earlier.occurredAt <= later.occurredAt
                      && (earlier.occurredAt == later.occurredAt ==> earlier.sequence <= later.sequence))
    {
      hide Claimable;
      var candidates := set id | id in outbox && id !in locked && Claimable(outbox, id, now);
      claimed := FirstBatch(candidates);
      var rows := outbox;
      outbox := map id | id in rows :: if id in claimed then rows[id].(leasedUntil := Some(now + lease)) else rows[id];
    }

    method MarkPublished(id: EventId, now: Time)
      modifies this`outbox
      ensures outbox == Catalog.Published(old(outbox), id, now)
    {
      if id in outbox {
        outbox := outbox[id := outbox[id].(publishedAt := Some(now), leasedUntil := None)];
      }
    }

    method RetryOutbox(id: EventId, now: Time, attempt: int)
      requires 0 < retryBase <= retryMaximum < RetryDelay.LIMIT
      modifies this`outbox
      ensures outbox == Retried(old(outbox), id, now + RetryDelay.CappedExponential(retryBase, retryMaximum, attempt))
    {
      var delay := RetryDelay.CappedExponential(retryBase, retryMaximum, attempt);
      if id in outbox {
        outbox := outbox[id := outbox[id].(attempts := outbox[id].attempts + 1, nextAttemptAt := now + delay,
            leasedUntil := None)];
      }
    }
  }
}
