/**
 What leases, retry times and marks mean to the workers of the outbox, over every
 run of the protocol (services/catalog-service/outbox/worker.go and the lease queries
 of services/catalog-service/repository/postgres_book_repository.go).
 */
module Leases {
  import opened Prelude
  import opened Domain
  import opened Catalog
  import opened Lifecycle
  import opened Outbox

  // ---------------------------------------------------------------------
  // One row along a run

  ghost function At(moves: seq<Move>, i: nat): World
    requires Path(START, moves) && i <= |moves|
  {
    PathAt(START, moves, i);
    Arrive(START, moves[..i])
  }

  lemma {:induction false} PathAt(w: World, moves: seq<Move>, i: nat)
    requires Path(w, moves) && i <= |moves|
    ensures Path(w, moves[..i])
    ensures i < |moves| ==>
              var there := Arrive(w, moves[..i]);
              && Enabled(there, moves[i])
              && Path(w, moves[..i + 1]) && Arrive(w, moves[..i + 1]) == Perform(there, moves[i])
    decreases |moves|
  {
    hide Enabled, Perform;
    if i > 0 {
      assert moves[..i][1..] == moves[1..][..i - 1];
      PathAt(Perform(w, moves[0]), moves[1..], i - 1);
      if i < |moves| {
        assert moves[..i + 1][1..] == moves[1..][..i];
      }
    } else if moves != [] {
      assert moves[..1][1..] == [];
    }
  }

  lemma SoundAt(moves: seq<Move>, i: nat)
    requires Path(START, moves) && i <= |moves|
    ensures Sound(At(moves, i))
    ensures i < |moves| ==> Enabled(At(moves, i), moves[i]) && At(moves, i + 1) == Perform(At(moves, i), moves[i])
  {
    hide Path, Arrive, Sound, Enabled, Perform;
    PathAt(START, moves, i);
    StartSound();
    PathSound(START, moves[..i]);
  }

  /** The worker takes the event. */
  predicate Takes(m: Move, id: EventId) {
    m.Claim? && id in m.batch
  }

  /** The worker marks the event as published, and the mark is recorded. */
  predicate Marks(w: World, m: Move, id: EventId) {
    m.Mark? && m.marked && Busy(w, m.marker, Confirmed) && w.workers[m.marker].batch[0] == id
  }

  /** The worker puts the event off, and that is recorded. */
  predicate PutsOff(w: World, m: Move, id: EventId) {
    m.Retry? && m.retried && Busy(w, m.retrier, Refused) && w.workers[m.retrier].batch[0] == id
  }

  /** All that a run can do to a row that was issued, other than purge it. */
  predicate RowFollows(w: World, m: Move, w': World, id: EventId) {
    && id in w'.issued
    && (id in w'.h.db.outbox ==>
          && id in w.h.db.outbox
          && w'.h.db.outbox[id] ==
             var row := w.h.db.outbox[id];
             if Marks(w, m, id) then row.(publishedAt := Some(m.markedAt), leasedUntil := None)
             else if PutsOff(w, m, id) then
               row.(attempts := row.attempts + 1, nextAttemptAt := m.retryAt, leasedUntil := None)
             else if Takes(m, id) then row.(leasedUntil := Some(m.now + m.lease))
             else row)
  }

  /** A transaction changes no row that stays. */
  lemma TransactionKeepsRows(h: History, s: Step, next: History)
    requires TableMoves(h, s, next)
    ensures forall id :: id in next.db.outbox && id in h.db.outbox ==> next.db.outbox[id] == h.db.outbox[id]
  {
    if !Rests(h, next) && !Gains(h, next, BookOf(s)) {
      var final :| Purges(h, next, BookOf(s), final);
    }
  }

  lemma RowStep(w: World, m: Move, id: EventId)
    requires Sound(w) && Enabled(w, m) && id in w.issued
    ensures RowFollows(w, m, Perform(w, m), id)
  {
    hide Sound, Lifecycle.Next, Newly, TableMoves, Possible, ValidClaim, Inv;
    IssuedStays(w, m);
    if m.Transact? {
      SoundHistory(w);
      TransactionMoves(w.h, m.step);
      TransactionKeepsRows(w.h, m.step, Lifecycle.Next(w.h, m.step));
      if id !in w.h.db.outbox {
        OutStays(w, m, id);
      }
    }
  }

  /** An issued event that is not in the table was purged, and stays so. */
  lemma OutStays(w: World, m: Move, id: EventId)
    requires Sound(w) && Enabled(w, m) && id in w.issued && id !in w.h.db.outbox
    ensures id !in Perform(w, m).h.db.outbox
  {
    hide Sound, Perform, Enabled, Inv;
    SoundHistory(w);
    assert Purged(w, id);
    PurgedStays(w, m, id);
    MoveSound(w, m);
    SoundHistory(Perform(w, m));
    PurgedIsOut(Perform(w, m), id);
  }

  /** What a claim returns is unpublished, and due, and nobody's lease on it runs. */
  lemma ClaimFinds(w: World, m: Move, id: EventId)
    requires Enabled(w, m) && Takes(m, id)
    ensures id in w.h.db.outbox
    ensures var row := w.h.db.outbox[id];
            && row.publishedAt.None? && row.nextAttemptAt <= m.now
            && (row.leasedUntil.Some? ==> row.leasedUntil.value <= m.now)
  {
    var i :| 0 <= i < |m.batch| && m.batch[i] == id;
    assert Claimable(w.h.db.outbox, m.batch[i], m.now);
  }

  // ---------------------------------------------------------------------
  // A lease excludes everybody else

  /** The row is gone, or leased until then or later. */
  predicate LeasedPast(w: World, id: EventId, until: Time) {
    && id in w.issued
    && (id in w.h.db.outbox ==>
          w.h.db.outbox[id].leasedUntil.Some? && until <= w.h.db.outbox[id].leasedUntil.value)
  }

  /** Between the two moves nobody marks the event or puts it off, and no lease is
      taken on it that is over before it begins. */
  ghost predicate Untouched(moves: seq<Move>, from: nat, to: nat, id: EventId)
    requires Path(START, moves) && to <= |moves|
  {
    forall k :: from <= k < to ==>
      && !Marks(At(moves, k), moves[k], id) && !PutsOff(At(moves, k), moves[k], id)
      && (Takes(moves[k], id) ==> 0 <= moves[k].lease)
  }

  lemma LeaseLasts(w: World, m: Move, id: EventId, until: Time)
    requires Sound(w) && Enabled(w, m) && LeasedPast(w, id, until)
    requires !Marks(w, m, id) && !PutsOff(w, m, id) && (Takes(m, id) ==> 0 <= m.lease)
    ensures LeasedPast(Perform(w, m), id, until)
  {
    hide Sound, Perform, Enabled, Marks, PutsOff;
    RowStep(w, m, id);
    if Takes(m, id) {
      ClaimFinds(w, m, id);
    }
  }

  lemma ClaimLeases(w: World, m: Move, id: EventId)
    requires Sound(w) && Enabled(w, m) && Takes(m, id)
    ensures LeasedPast(Perform(w, m), id, m.now + m.lease)
  {
    hide Sound, Perform, Enabled, TableTracked, Inv;
    ClaimFinds(w, m, id);
    SoundHistory(w);
    IssuedRow(w, id);
    RowStep(w, m, id);
  }

  lemma {:induction false} LeasedUntilThen(moves: seq<Move>, i: nat, j: nat, id: EventId)
    requires Path(START, moves) && i < j <= |moves| && Takes(moves[i], id)
    requires Untouched(moves, i + 1, j, id)
    ensures LeasedPast(At(moves, j), id, moves[i].now + moves[i].lease)
    decreases j
  {
    hide Path, Sound, Perform, Enabled, At, LeasedPast, Marks, PutsOff;
    SoundAt(moves, j - 1);
    if j == i + 1 {
      ClaimLeases(At(moves, i), moves[i], id);
    } else {
      LeasedUntilThen(moves, i, j - 1, id);
      LeaseLasts(At(moves, j - 1), moves[j - 1], id, moves[i].now + moves[i].lease);
    }
  }

  /** Over every run: a worker that takes a row before anybody has marked it or put it
      off takes it when all earlier leases on it have run out. So two leases of one
      row never overlap unless the first worker is done with it. */
  lemma LeasesExclude(moves: seq<Move>, i: nat, j: nat, id: EventId)
    requires Path(START, moves) && i < j < |moves| && Takes(moves[i], id) && Takes(moves[j], id)
    requires Untouched(moves, i + 1, j, id)
    ensures moves[i].now + moves[i].lease <= moves[j].now
  {
    hide Path, Sound, Perform, Enabled, At, Untouched;
    LeasedUntilThen(moves, i, j, id);
    SoundAt(moves, j);
    ClaimFinds(At(moves, j), moves[j], id);
  }

  // ---------------------------------------------------------------------
  // What is put off waits, what is marked is done

  predicate DueAt(w: World, id: EventId, at: Time) {
    id in w.issued && (id in w.h.db.outbox ==> w.h.db.outbox[id].nextAttemptAt == at)
  }

  /** Whatever a worker still has of its batch was issued. */
  lemma BatchIsIssued(w: World, worker: Id, i: nat)
    requires Sound(w) && worker in w.workers && i < |w.workers[worker].batch|
    ensures w.workers[worker].batch[i] in w.issued
  {
    hide Inv, TableTracked, SequencesUnique, MarksEarned, LogLed;
    assert Led(w.issued, w.workers[worker].batch[i], w.confirmed);
  }

  lemma {:induction false} StaysPutOff(moves: seq<Move>, i: nat, j: nat, id: EventId)
    requires Path(START, moves) && i < j <= |moves| && PutsOff(At(moves, i), moves[i], id)
    requires forall k :: i < k < j ==> !PutsOff(At(moves, k), moves[k], id)
    ensures DueAt(At(moves, j), id, moves[i].retryAt)
    decreases j
  {
    hide Path, Sound, Perform, Enabled, At;
    SoundAt(moves, j - 1);
    if j == i + 1 {
      BatchIsIssued(At(moves, i), moves[i].retrier, 0);
    } else {
      StaysPutOff(moves, i, j - 1, id);
    }
    RowStep(At(moves, j - 1), moves[j - 1], id);
  }

  /** Over every run: a row that was put off is not claimed before the time that it
      was last put off to. */
  lemma PutOffWaits(moves: seq<Move>, i: nat, j: nat, id: EventId)
    requires Path(START, moves) && i < j < |moves| && PutsOff(At(moves, i), moves[i], id) && Takes(moves[j], id)
    requires forall k :: i < k < j ==> !PutsOff(At(moves, k), moves[k], id)
    ensures moves[i].retryAt <= moves[j].now
  {
    hide Path, Sound, Perform, Enabled, At, PutsOff;
    StaysPutOff(moves, i, j, id);
    SoundAt(moves, j);
    ClaimFinds(At(moves, j), moves[j], id);
  }

  predicate MarkedOrGone(w: World, id: EventId) {
    id in w.issued && (id in w.h.db.outbox ==> w.h.db.outbox[id].publishedAt.Some?)
  }

  lemma {:induction false} StaysMarked(moves: seq<Move>, i: nat, j: nat, id: EventId)
    requires Path(START, moves) && i < j <= |moves| && Marks(At(moves, i), moves[i], id)
    ensures MarkedOrGone(At(moves, j), id)
    decreases j
  {
    hide Path, Sound, Perform, Enabled, At, PutsOff;
    SoundAt(moves, j - 1);
    if j == i + 1 {
      BatchIsIssued(At(moves, i), moves[i].marker, 0);
    } else {
      StaysMarked(moves, i, j - 1, id);
    }
    RowStep(At(moves, j - 1), moves[j - 1], id);
  }

  /** Over every run: a row that was marked is never claimed again. */
  lemma MarkedIsDone(moves: seq<Move>, i: nat, j: nat, id: EventId)
    requires Path(START, moves) && i < j < |moves| && Marks(At(moves, i), moves[i], id)
    ensures !Takes(moves[j], id)
  {
    hide Path, Sound, Perform, Enabled, At, Marks;
    StaysMarked(moves, i, j, id);
    SoundAt(moves, j);
    if Takes(moves[j], id) {
      ClaimFinds(At(moves, j), moves[j], id);
    }
  }

  // ---------------------------------------------------------------------
  // Attempts are counted

  ghost function TimesPutOff(moves: seq<Move>, n: nat, id: EventId): nat
    requires Path(START, moves) && n <= |moves|
  {
    if n == 0 then 0
    else TimesPutOff(moves, n - 1, id) + if PutsOff(At(moves, n - 1), moves[n - 1], id) then 1 else 0
  }

  predicate Counted(w: World, id: EventId, times: nat) {
    if id in w.issued then id in w.h.db.outbox ==> w.h.db.outbox[id].attempts == times
    else times == 0
  }

  /** Over every run: a row's attempts, which set its next delay, are the times that
      it was put off. */
  lemma {:induction false} AttemptsAreCounted(moves: seq<Move>, n: nat, id: EventId)
    requires Path(START, moves) && n <= |moves|
    ensures Counted(At(moves, n), id, TimesPutOff(moves, n, id))
    decreases n
  {
    hide Path, Sound, Perform, Enabled, At;
    if n == 0 {
      NothingYet(moves, id);
    } else {
      AttemptsAreCounted(moves, n - 1, id);
      SoundAt(moves, n - 1);
      var w, m := At(moves, n - 1), moves[n - 1];
      if id in w.issued {
        RowStep(w, m, id);
      } else {
        NewRow(w, m, id);
        if PutsOff(w, m, id) {
          PutOffIsIssued(w, m, id);
        }
      }
    }
  }

  lemma NothingYet(moves: seq<Move>, id: EventId)
    requires Path(START, moves)
    ensures id !in At(moves, 0).issued
  {
  }

  lemma PutOffIsIssued(w: World, m: Move, id: EventId)
    requires Sound(w) && PutsOff(w, m, id)
    ensures id in w.issued
  {
    hide Sound;
    BatchIsIssued(w, m.retrier, 0);
  }

  // A row is inserted with no attempts and no lease

  predicate Fresh(row: OutboxRow) {
    row.attempts == 0 && row.leasedUntil.None? && row.publishedAt.None? && row.nextAttemptAt == row.occurredAt
  }

  predicate AddsFresh(before: map<EventId, OutboxRow>, after: map<EventId, OutboxRow>) {
    forall id :: id in after && id !in before ==> Fresh(after[id])
  }

  lemma {:induction false} InsertsFresh(before: map<EventId, OutboxRow>, outbox: map<EventId, OutboxRow>, book: Id,
      events: seq<NewEvent>)
    requires AddsFresh(before, outbox) && InsertAll(outbox, book, events).Some?
    ensures AddsFresh(before, InsertAll(outbox, book, events).value)
    decreases |events|
  {
    hide SequencesOf;
    if events != [] {
      var e := events[0];
      InsertsFresh(before, outbox[e.id := FreshRow(book, e.sequence, e.payload, e.occurredAt)], book, events[1..]);
    }
  }

  lemma TransactionAddsFresh(db: Db, s: Step)
    requires TxOf(db, s).Committed? && !s.Deliver?
    ensures AddsFresh(db.outbox, TxOf(db, s).db.outbox)
  {
    hide InsertAll, Judge, Commanded, NextSequence, Screened, GenerationTaken, StatusOf;
    match s
    case Upload(book, content, uploadedId, statusId, now) =>
      var row := UploadedRow(content, now);
      InsertsFresh(db.outbox, db.outbox, book, UploadEvents(book, row, uploadedId, statusId, now));
    case Report(e, statusId, at) => ReportAddsFresh(db, s);
    case Direct(_) =>
    case OriginalGone(_, _, _, _) =>
    case AckArrives(_, _) =>
    case Deliver(_) =>
  }

  lemma ReportAddsFresh(db: Db, s: Step)
    requires s.Report? && TxOf(db, s).Committed?
    ensures AddsFresh(db.outbox, TxOf(db, s).db.outbox)
  {
    hide Judge, NextSequence, StatusOf, WithManifest, StoredManifest;
  }

  lemma NewRow(w: World, m: Move, id: EventId)
    requires Sound(w) && Enabled(w, m) && id !in w.issued
    ensures id in Perform(w, m).h.db.outbox ==> Fresh(Perform(w, m).h.db.outbox[id])
  {
    hide Sound, TxOf, Recorded, Newly, ValidClaim, Possible, Fresh;
    assert id !in w.h.db.outbox by {
      SoundHistory(w);
      IssuedRow(w, id);
    }
    if m.Transact? && TxOf(w.h.db, m.step).Committed? {
      TransactionAddsFresh(w.h.db, m.step);
      RecordedTables(w.h, m.step, TxOf(w.h.db, m.step).db);
    }
  }

  lemma IssuedRow(w: World, id: EventId)
    requires TableTracked(w.h, w.issued)
    ensures id in w.h.db.outbox ==> id in w.issued
  {
    assert id in w.h.db.outbox ==> RowIssued(w.h, w.issued, id);
  }

  lemma RecordedTables(h: History, s: Step, after: Db)
    ensures Recorded(h, s, after).db == after
  {
  }
}
