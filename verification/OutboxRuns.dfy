/**
 Two runs of the outbox from the empty database: a status event that is confirmed
 and reaches no queue, and one that is confirmed after its book's deleted event
 (services/catalog-service/outbox/worker.go).
 */
module OutboxRuns {
  import opened Prelude
  import opened Domain
  import opened Catalog
  import opened Lifecycle
  import opened CatalogRuns
  import opened RabbitPublisher
  import opened Outbox

  const UPLOADED: EventId := Generated(1)
  const STATUS: EventId := Generated(2)

  /** Publications to a queue, and to none. */
  const REQUEST_SENT: Publication := Publication(true, true, true)
  const STATUS_SENT: Publication := Publication(false, true, true)
  const STATUS_DROPPED: Publication := Publication(false, false, true)

  /** A book is uploaded; worker 0 publishes the upload, and claims the status event. */
  const CLAIM_STATUS: seq<Move> :=
    [Transact(SAMPLE_UPLOAD)] + ([Claim(0, 10, 5, [UPLOADED])] + ([Publish(0, true, REQUEST_SENT)]
    + ([Mark(0, 10, true)] + ([Claim(0, 10, 5, [STATUS])] + []))))

  lemma PathFrom(w: World, m: Move, rest: seq<Move>)
    requires Enabled(w, m) && Path(Perform(w, m), rest)
    ensures Path(w, [m] + rest) && Arrive(w, [m] + rest) == Arrive(Perform(w, m), rest)
  {
    hide Enabled, Perform;
    assert ([m] + rest)[1..] == rest;
  }

  function UploadedAt(): OutboxRow {
    FreshRow(1, 0, Uploaded(SAMPLE_ROW.content, SAMPLE_ROW.lifecycle), 10)
  }

  function StatusAt(): OutboxRow {
    FreshRow(1, 1, StatusChanged(StatusOf(STATUS, 1, SAMPLE_ROW)), 10)
  }

  /** The upload and its status event are issued and nothing else. */
  ghost predicate Issued(issued: map<EventId, Issue>) {
    && issued.Keys == {UPLOADED, STATUS}
    && issued[UPLOADED].book == issued[STATUS].book == 1 && issued[UPLOADED].epoch == issued[STATUS].epoch == 0
    && issued[UPLOADED].payload.Uploaded? && issued[STATUS].payload.StatusChanged?
  }

  /** Only the uploaded book is there, as it was uploaded. */
  ghost predicate JustUploaded(h: History) {
    && h.db.books == map[1 := SAMPLE_ROW] && h.db.commands == map[] && h.db.acks == map[]
    && 1 in h.ledger
  }

  lemma AfterTransact(w: World)
    requires w == START
    ensures Enabled(w, Transact(SAMPLE_UPLOAD))
    ensures var next := Perform(w, Transact(SAMPLE_UPLOAD));
            && next.h.db.outbox == map[UPLOADED := UploadedAt(), STATUS := StatusAt()]
            && JustUploaded(next.h) && Issued(next.issued)
            && next.workers == map[] && next.confirmed == [] && next.routed == {}
  {
    BlankOk();
    UploadCommits();
    UploadEffect(BLANK, SAMPLE_UPLOAD);
    hide Inv, TxOf, Lifecycle.Next;
    var next := Perform(w, Transact(SAMPLE_UPLOAD));
    assert next.issued.Keys == {UPLOADED, STATUS};
  }

  lemma AfterFirstClaim(w: World)
    requires w.h.db.outbox == map[UPLOADED := UploadedAt(), STATUS := StatusAt()] && w.workers == map[]
    ensures var m := Claim(0, 10, 5, [UPLOADED]);
            && Enabled(w, m)
            && var next := Perform(w, m);
               && next.h.db.outbox == map[UPLOADED := UploadedAt().(leasedUntil := Some(15)), STATUS := StatusAt()]
               && next.workers == map[0 := Worker([UPLOADED], Ready)]
               && next.issued == w.issued && next.confirmed == w.confirmed && next.routed == w.routed
               && next.h.db.(outbox := map[]) == w.h.db.(outbox := map[]) && next.h.ledger == w.h.ledger
  {
    assert Claimable(w.h.db.outbox, UPLOADED, 10);
    var m := Claim(0, 10, 5, [UPLOADED]);
    assert (set id | id in m.batch) == {UPLOADED};
  }

  lemma AfterFirstMark(w: World)
    requires w.h.db.outbox == map[UPLOADED := UploadedAt().(leasedUntil := Some(15)), STATUS := StatusAt()]
    requires w.workers == map[0 := Worker([UPLOADED], Ready)] && Issued(w.issued) && w.confirmed == [] && w.routed == {}
    ensures Enabled(w, Publish(0, true, REQUEST_SENT))
    ensures var w1 := Perform(w, Publish(0, true, REQUEST_SENT));
            && Enabled(w1, Mark(0, 10, true))
            && var next := Perform(w1, Mark(0, 10, true));
               && next.h.db.outbox.Keys == {UPLOADED, STATUS} && next.h.db.outbox[STATUS] == StatusAt()
               && next.h.db.outbox[UPLOADED].publishedAt.Some? && next.h.db.outbox[UPLOADED].book == 1
               && next.workers == map[0 := Worker([], Ready)] && next.issued == w.issued
               && next.confirmed == [UPLOADED] && next.routed == {UPLOADED}
               && next.h.db.(outbox := map[]) == w.h.db.(outbox := map[]) && next.h.ledger == w.h.ledger
  {
    assert [UPLOADED][1..] == [];
  }

  lemma AfterSecondClaim(w: World)
    requires w.h.db.outbox.Keys == {UPLOADED, STATUS} && w.h.db.outbox[STATUS] == StatusAt()
    requires w.h.db.outbox[UPLOADED].publishedAt.Some?
    requires w.workers == map[0 := Worker([], Ready)]
    ensures var m := Claim(0, 10, 5, [STATUS]);
            && Enabled(w, m)
            && var next := Perform(w, m);
               && next.workers == map[0 := Worker([STATUS], Ready)] && next.issued == w.issued
               && next.h.db.outbox.Keys == w.h.db.outbox.Keys
               && (forall id :: id in w.h.db.outbox ==> next.h.db.outbox[id].book == w.h.db.outbox[id].book)
               && next.confirmed == w.confirmed && next.routed == w.routed
               && next.h.db.(outbox := map[]) == w.h.db.(outbox := map[]) && next.h.ledger == w.h.ledger
  {
    assert Claimable(w.h.db.outbox, STATUS, 10);
  }

  /** Worker 0 holds the status event, the upload is published. */
  ghost predicate StatusClaimed(w: World) {
    && Sound(w) && JustUploaded(w.h) && Issued(w.issued)
    && w.h.db.outbox.Keys == {UPLOADED, STATUS}
    && w.h.db.outbox[UPLOADED].book == w.h.db.outbox[STATUS].book == 1
    && w.workers == map[0 := Worker([STATUS], Ready)]
    && w.confirmed == [UPLOADED] && w.routed == {UPLOADED}
  }

  lemma StatusIsClaimed()
    ensures Path(START, CLAIM_STATUS) && StatusClaimed(Arrive(START, CLAIM_STATUS))
  {
    hide Sound, Issued, UploadedAt, StatusAt, Path, Arrive, Perform, Enabled;
    AfterTransact(START);
    var w1 := Perform(START, Transact(SAMPLE_UPLOAD));
    AfterFirstClaim(w1);
    var w2 := Perform(w1, Claim(0, 10, 5, [UPLOADED]));
    RowsNamed();
    AfterFirstMark(w2);
    var w3 := Perform(w2, Publish(0, true, REQUEST_SENT));
    var w4 := Perform(w3, Mark(0, 10, true));
    AfterSecondClaim(w4);
    var w5 := Perform(w4, Claim(0, 10, 5, [STATUS]));
    NoMove(w5);
    PathFrom(w4, Claim(0, 10, 5, [STATUS]), []);
    PathFrom(w3, Mark(0, 10, true), [Claim(0, 10, 5, [STATUS])] + []);
    PathFrom(w2, Publish(0, true, REQUEST_SENT), [Mark(0, 10, true)] + ([Claim(0, 10, 5, [STATUS])] + []));
    PathFrom(w1, Claim(0, 10, 5, [UPLOADED]),
             [Publish(0, true, REQUEST_SENT)] + ([Mark(0, 10, true)] + ([Claim(0, 10, 5, [STATUS])] + [])));
    PathFrom(START, Transact(SAMPLE_UPLOAD), [Claim(0, 10, 5, [UPLOADED])] + ([Publish(0, true, REQUEST_SENT)]
             + ([Mark(0, 10, true)] + ([Claim(0, 10, 5, [STATUS])] + []))));
    StartSound();
    PathSound(START, CLAIM_STATUS);
  }

  lemma RowsNamed()
    ensures UploadedAt().book == StatusAt().book == 1
  {
  }

  lemma NoMove(w: World)
    ensures Path(w, []) && Arrive(w, []) == w
  {
  }

  lemma OneMoveMore(w: World, moves: seq<Move>, m: Move)
    requires Path(w, moves) && Enabled(Arrive(w, moves), m)
    ensures Path(w, moves + [m]) && Arrive(w, moves + [m]) == Perform(Arrive(w, moves), m)
  {
    hide Enabled, Perform;
    var there := Arrive(w, moves);
    assert [m][1..] == [];
    NoMove(Perform(there, m));
    PathsJoin(w, moves, [m]);
  }

  /** The failing input: an unroutable status event is acknowledged, and counts as
      published although no queue has it. */
  lemma StatusEventVanishes()
    ensures var run := CLAIM_STATUS + [Publish(0, true, STATUS_DROPPED)];
            && Path(START, run)
            && var w := Arrive(START, run); STATUS in w.confirmed && STATUS !in w.routed && STATUS in w.issued
  {
    hide Path, Arrive, Sound, JustUploaded;
    StatusIsClaimed();
    var w := Arrive(START, CLAIM_STATUS);
    SuccessWithoutQueue(w, 0);
    OneMoveMore(START, CLAIM_STATUS, Publish(0, true, STATUS_DROPPED));
  }

  // ---------------------------------------------------------------------
  // A confirmation after the book is gone

  const SAMPLE_DELETE: Step := Direct(Command(DeleteCommand, 1, 20, 3, Generated(5), Generated(6), 13))
  const ORIGINAL_GONE: Step := OriginalGone(1, 20, 2, 14)
  const ARTIFACTS_GONE: Step := AckArrives(Ack(30, ArtifactsDeletedV1, 1, 20, 2, 0), 15)
  const INDEX_GONE: Step := AckArrives(Ack(31, IndexDeletedV1, 1, 20, 2, 0), 16)

  const DELETING_ROW: Row :=
    SAMPLE_ROW.(status := Deleting, lifecycle := 2, version := 2, updatedAt := 13, commandId := 20,
                originalDeleted := false, artifactsDeleted := false, indexDeleted := false)

  const GONE_ROW: Row :=
    Tombstone(DELETING_ROW.(originalDeleted := true, artifactsDeleted := true, indexDeleted := true), 16)

  const FINAL: EventId := FinalDeletion(1, 20, 2, 3)

  /** The book is there with this row, all rows of the outbox are its own, and these
      acknowledgements at most have been received. */
  ghost predicate Alone(h: History, row: Row, acks: set<Id>) {
    && Inv(h) && h.db.books == map[1 := row] && 1 in h.ledger && h.db.acks.Keys <= acks
    && forall id :: id in h.db.outbox ==> h.db.outbox[id].book == 1
  }

  lemma DeleteIsCommanded()
    ensures Commanded(SAMPLE_ROW, SAMPLE_DELETE.command) == Ok(DELETING_ROW)
  {
  }

  lemma DeleteLeavesAlone(h: History, next: History)
    requires JustUploaded(h) && Accepts(h, SAMPLE_DELETE.command, DELETING_ROW, next) && Inv(next)
    requires forall id :: id in h.db.outbox ==> h.db.outbox[id].book == 1
    ensures Alone(next, DELETING_ROW, {})
  {
    hide Inv, Commanded, NextSequence, StatusOf, RequestOf;
    assert h.db.books[1 := DELETING_ROW] == map[1 := DELETING_ROW];
  }

  lemma DeleteCommits(h: History)
    requires Inv(h) && JustUploaded(h)
    requires Generated(5) !in h.db.outbox && Generated(6) !in h.db.outbox
    requires forall id :: id in h.db.outbox ==> h.db.outbox[id].book == 1
    ensures Alone(Next(h, SAMPLE_DELETE), DELETING_ROW, {})
  {
    hide Inv, Next, Commanded, Alone, Accepts;
    DeleteIsCommanded();
    CommandCommits(h, SAMPLE_DELETE, DELETING_ROW);
    StepKeeps(h, SAMPLE_DELETE);
    DeleteLeavesAlone(h, Next(h, SAMPLE_DELETE));
  }

  lemma AfterDelete(w: World)
    requires StatusClaimed(w)
    ensures Enabled(w, Transact(SAMPLE_DELETE)) && Alone(Perform(w, Transact(SAMPLE_DELETE)).h, DELETING_ROW, {})
  {
    hide Inv, Lifecycle.Next, Newly, Alone, JustUploaded, Sound;
    Rows5And6Free(w);
    SoundHistory(w);
    DeleteCommits(w.h);
  }

  lemma Rows5And6Free(w: World)
    requires StatusClaimed(w)
    ensures Generated(5) !in w.h.db.outbox && Generated(6) !in w.h.db.outbox
    ensures {Generated(5), Generated(6)} !! w.issued.Keys
  {
    hide Sound;
  }

  lemma AcksGrow(h: History, s: Step)
    requires s.OriginalGone? || s.AckArrives?
    ensures Next(h, s).db.acks.Keys <= h.db.acks.Keys + if s.AckArrives? then {s.ack.id} else {}
  {
    hide Tombstone, WithoutBook, WithoutActors, FinalId, NextSequence, Acknowledged;
  }

  /** The acknowledgement is for this deletion, is new, and leaves others to come. */
  lemma AfterFlag(h: History, s: Step, row: Row, acks: set<Id>)
    requires Alone(h, row, acks) && (s.OriginalGone? || s.AckArrives?) && row.status.Deleting?
    requires Counts(h, s, 1, row.commandId, row.lifecycle) && Marked(row, s) != row && !AllGone(Marked(row, s))
    ensures Alone(Next(h, s), Marked(row, s), acks + if s.AckArrives? then {s.ack.id} else {})
  {
    hide Inv, Next, Marked, Counts, AllGone, RowOk;
    AckEffect(h, s);
    AcksGrow(h, s);
    AckKeeps(h, s);
    assert h.db.books[1 := Marked(row, s)] == map[1 := Marked(row, s)];
  }

  lemma AckEffect(h: History, s: Step)
    requires Inv(h) && (s.OriginalGone? || s.AckArrives?)
    ensures (Next(h, s) == h && Unheeded(h, s)) || AckLeaves(h, s, Next(h, s))
    ensures forall b :: b in h.db.books && Counts(h, s, b, h.db.books[b].commandId, h.db.books[b].lifecycle) ==>
        BookOf(s) == b
  {
    hide Inv, Next, Unheeded, AckLeaves;
    if s.OriginalGone? {
      OriginalEffect(h, s);
    } else {
      ArrivalEffect(h, s);
    }
  }

  /** The last one purges the outbox for the one final row. */
  lemma AfterLastFlag(h: History, s: Step, row: Row, acks: set<Id>)
    requires Alone(h, row, acks) && (s.OriginalGone? || s.AckArrives?) && row.status.Deleting?
    requires Counts(h, s, 1, row.commandId, row.lifecycle) && Marked(row, s) != row && AllGone(Marked(row, s))
    ensures var gone := Tombstone(Marked(row, s), AckTime(s));
            var e := StatusOf(FinalId(1, gone), 1, gone);
            && Next(h, s).db.books == map[1 := gone]
            && Next(h, s).db.outbox == map[FinalId(1, gone) := FreshRow(1, 0, StatusChanged(e), AckTime(s))]
  {
    hide Inv, Next, Marked, Counts, AllGone, RowOk, Erases, Quiet;
    AckEffect(h, s);
    assert BookOf(s) == 1 && h.db.books[1] == row;
    assert Acked(h, Next(h, s), 1, Marked(row, s), AckTime(s));
    ErasesAll(h, Next(h, s), row, Marked(row, s), AckTime(s));
  }

  lemma ErasesAll(h: History, next: History, row: Row, marked: Row, now: Time)
    requires Erases(h, next, 1, marked, now) && h.db.books == map[1 := row]
    requires forall id :: id in h.db.outbox ==> h.db.outbox[id].book == 1
    ensures var gone := Tombstone(marked, now);
            var e := StatusOf(FinalId(1, gone), 1, gone);
            && next.db.books == map[1 := gone]
            && next.db.outbox == map[FinalId(1, gone) := FreshRow(1, 0, StatusChanged(e), now)]
  {
    hide AllGone, FinalId, Tombstone, WithoutActors, CanReindex;
    var gone := Tombstone(marked, now);
    StatusNames(FinalId(1, gone), 1, gone);
    assert h.db.books[1 := gone] == map[1 := gone];
    assert WithoutBook(h.db.outbox, 1) == map[];
  }

  /** The moves between the claim and the late publication. */
  const DELETION: seq<Move> :=
    [Transact(SAMPLE_DELETE)]
        + ([Transact(ORIGINAL_GONE)] + ([Transact(ARTIFACTS_GONE)] + ([Transact(INDEX_GONE)] + [])))

  const FINAL_ROW: OutboxRow := FreshRow(1, 0, StatusChanged(StatusOf(FINAL, 1, GONE_ROW)), 16)

  lemma FlagsOfDeletion()
    ensures var r1 := DELETING_ROW.(originalDeleted := true);
            var r2 := r1.(artifactsDeleted := true);
            var r3 := r2.(indexDeleted := true);
            && Marked(DELETING_ROW, ORIGINAL_GONE) == r1 && !AllGone(r1)
            && Marked(r1, ARTIFACTS_GONE) == r2 && !AllGone(r2)
            && Marked(r2, INDEX_GONE) == r3 && AllGone(r3)
            && Tombstone(r3, 16) == GONE_ROW && FinalId(1, GONE_ROW) == FINAL
  {
  }

  /** The three acknowledgements, seen by the history. */
  lemma AcksFinalize(h: History)
    requires Alone(h, DELETING_ROW, {})
    ensures var h4 := Next(Next(Next(h, ORIGINAL_GONE), ARTIFACTS_GONE), INDEX_GONE);
            h4.db.books == map[1 := GONE_ROW] && h4.db.outbox == map[FINAL := FINAL_ROW]
  {
    FlagsOfDeletion();
    var r1 := DELETING_ROW.(originalDeleted := true);
    var r2 := r1.(artifactsDeleted := true);
    var h2 := Next(h, ORIGINAL_GONE);
    var h3 := Next(h2, ARTIFACTS_GONE);
    hide Next, Marked, AllGone, Tombstone, FinalId, StatusOf, FreshRow, Inv;
    AfterFlag(h, ORIGINAL_GONE, DELETING_ROW, {});
    AfterFlag(h2, ARTIFACTS_GONE, r1, {});
    AfterLastFlag(h3, INDEX_GONE, r2, {30});
  }

  /** Transactions leave workers and confirmations alone. */
  lemma TransactsOnly(w: World, s: Step)
    requires Enabled(w, Transact(s))
    ensures var next := Perform(w, Transact(s));
            && next.workers == w.workers && next.confirmed == w.confirmed && next.routed == w.routed
            && next.h == Lifecycle.Next(w.h, s)
  {
  }

  lemma AckEnabled(w: World, s: Step)
    requires s == ORIGINAL_GONE || s == ARTIFACTS_GONE || s == INDEX_GONE
    ensures Enabled(w, Transact(s))
  {
    assert GeneratedKeys(s) == {};
  }

  /** The book is gone; worker 0 still holds its status event. */
  ghost predicate BookGone(w: World) {
    && Sound(w) && w.h.db.books == map[1 := GONE_ROW] && w.h.db.outbox == map[FINAL := FINAL_ROW]
    && w.workers == map[0 := Worker([STATUS], Ready)] && w.confirmed == [UPLOADED]
    && STATUS in w.issued && w.issued[STATUS].payload.StatusChanged?
    && w.issued[STATUS].epoch == 0 && w.issued[STATUS].book == 1
  }

  lemma AfterDeletion(w: World)
    requires StatusClaimed(w)
    ensures Path(w, DELETION) && BookGone(Arrive(w, DELETION))
  {
    hide Sound, Path, Arrive, Perform, Enabled, Lifecycle.Next, Alone, JustUploaded;
    AfterDelete(w);
    var w1 := Perform(w, Transact(SAMPLE_DELETE));
    AckEnabled(w1, ORIGINAL_GONE);
    var w2 := Perform(w1, Transact(ORIGINAL_GONE));
    AckEnabled(w2, ARTIFACTS_GONE);
    var w3 := Perform(w2, Transact(ARTIFACTS_GONE));
    AckEnabled(w3, INDEX_GONE);
    var w4 := Perform(w3, Transact(INDEX_GONE));
    TransactsOnly(w, SAMPLE_DELETE);
    TransactsOnly(w1, ORIGINAL_GONE);
    TransactsOnly(w2, ARTIFACTS_GONE);
    TransactsOnly(w3, INDEX_GONE);
    AcksFinalize(w1.h);
    NoMove(w4);
    PathFrom(w3, Transact(INDEX_GONE), []);
    PathFrom(w2, Transact(ARTIFACTS_GONE), [Transact(INDEX_GONE)] + []);
    PathFrom(w1, Transact(ORIGINAL_GONE), [Transact(ARTIFACTS_GONE)] + ([Transact(INDEX_GONE)] + []));
    PathFrom(w, Transact(SAMPLE_DELETE),
             [Transact(ORIGINAL_GONE)] + ([Transact(ARTIFACTS_GONE)] + ([Transact(INDEX_GONE)] + [])));
    PathExtends(w, DELETION);
  }

  /** Worker 1 claims the deleted event. */
  lemma FinalClaimed(w: World)
    requires BookGone(w)
    ensures var claim := Claim(1, 20, 5, [FINAL]);
            && Enabled(w, claim)
            && var w1 := Perform(w, claim);
               && w1.confirmed == [UPLOADED] && w1.issued == w.issued
               && w1.workers == map[0 := Worker([STATUS], Ready), 1 := Worker([FINAL], Ready)]
  {
    hide Sound, StatusOf;
    assert FINAL_ROW == FreshRow(1, 0, StatusChanged(StatusOf(FINAL, 1, GONE_ROW)), 16);
    assert Claimable(w.h.db.outbox, FINAL, 20);
  }

  lemma FinalIsIssued(w: World)
    requires BookGone(w)
    ensures FINAL in w.issued && w.issued[FINAL].payload.StatusChanged?
  {
    SoundHistory(w);
    hide Sound, Inv, StatusOf;
    assert RowIssued(w.h, w.issued, FINAL);
  }

  lemma StatusCanBeSent(w: World, me: Id, id: EventId)
    requires me in w.workers && w.workers[me] == Worker([id], Ready)
    requires id in w.issued && w.issued[id].payload.StatusChanged?
    ensures Enabled(w, Publish(me, true, STATUS_SENT))
    ensures var next := Perform(w, Publish(me, true, STATUS_SENT));
            && next.confirmed == w.confirmed + [id] && next.issued == w.issued
            && next.workers == w.workers[me := Worker([id], Confirmed)]
  {
  }

  /** A run in which the status event of an upload is confirmed after the deleted
      event of its book: worker 0 claimed it before the purge, and was slow. */
  lemma StatusOvertaken() returns (run: seq<Move>)
    ensures Path(START, run) && Arrive(START, run).confirmed == [UPLOADED, FINAL, STATUS]
  {
    hide Path, Arrive, Sound, Perform, Enabled, JustUploaded, Issued;
    StatusIsClaimed();
    var w := Arrive(START, CLAIM_STATUS);
    AfterDeletion(w);
    var gone := Arrive(w, DELETION);
    PathsJoin(START, CLAIM_STATUS, DELETION);
    run := CLAIM_STATUS + DELETION;
    FinalClaimed(gone);
    FinalIsIssued(gone);
    OneMoveMore(START, run, Claim(1, 20, 5, [FINAL]));
    run := run + [Claim(1, 20, 5, [FINAL])];
    StatusCanBeSent(Arrive(START, run), 1, FINAL);
    OneMoveMore(START, run, Publish(1, true, STATUS_SENT));
    run := run + [Publish(1, true, STATUS_SENT)];
    StatusCanBeSent(Arrive(START, run), 0, STATUS);
    OneMoveMore(START, run, Publish(0, true, STATUS_SENT));
    run := run + [Publish(0, true, STATUS_SENT)];
  }
}
