/**
 Catalog's Book aggregate: the status table, the failure categories, and the
 folding of asynchronous facts into the aggregate
 (services/catalog-service/internal/catalog/domain.go).
 */
module Domain {
  import opened Prelude

  datatype Status = Pending | Processing | Indexed | Failed | Reindexing | Deleting | Deleted

  /** `NoStage` is the NULL stage of a tombstone. */
  datatype Stage = NoStage | QueuedStage | ExtractingStage | ChunksReadyStage | IndexedStage | FailedStage

  /** `NoFailure` is the empty category; `OtherFailure` is any string outside the closed list. */
  datatype Failure =
    | NoFailure
    | EncryptedDocument | ExtractionNotPermitted | MalformedDocument | UnsupportedDocument
    | NoExtractableText | ResourceLimitExceeded | SourceIntegrityMismatch | ProcessingTimeout
    | DependencyUnavailable | InternalProcessingError
    | ManifestIntegrity | IncompatibleProfile | EmbeddingUnavailable | VectorStoreUnavailable
    | IndexingTimeout | InternalIndexingError
    | OtherFailure(text: string)

  datatype FactKind = StartedFact | ChunksReadyFact | FailedFact | IndexedFact | IndexingFailedFact | OtherFact

  /** `occurredAt == 0` is Go's zero time. */
  datatype Fact = Fact(kind: FactKind, failure: Failure, detail: string, occurredAt: Time)

  datatype Metadata = Metadata(title: string, author: string, year: int, tags: seq<string>)

  /** What a tombstone forgets. */
  datatype Content = Content(metadata: Metadata, object: Id, checksum: nat, byteSize: nat, mediaType: string, actor: Id)

  /** The persistent row of a book. `manifestRef == 0` is the empty reference
      and `manifestDigest == 0` the all-zero digest. */
  datatype Row = Row(
    content: Option<Content>,
    createdAt: Time,
    status: Status,
    stage: Stage,
    failure: Failure,
    detail: string,
    updatedAt: Time,
    version: nat,
    lifecycle: nat,
    manifestRef: Id,
    manifestDigest: nat,
    commandId: Id,
    originalDeleted: bool,
    artifactsDeleted: bool,
    indexDeleted: bool)

  datatype DomainError = ConflictingFact | InvalidTransition

  // ---------------------------------------------------------------------
  // Closed lists

  predicate ValidTransition(current: Status, next: Status) {
    if current == next then false
    else if next.Deleting? then !current.Deleted?
    else match current
      case Pending => next.Processing?
      case Processing => next.Indexed? || next.Failed?
      case Indexed => next.Reindexing?
      case Reindexing => next.Indexed? || next.Failed?
      case Deleting => next.Deleted?
      case _ => false
  }

  predicate ValidIndexingFailure(c: Failure) {
    || c.ManifestIntegrity?
    || c.IncompatibleProfile?
    || c.EmbeddingUnavailable?
    || c.VectorStoreUnavailable?
    || c.ResourceLimitExceeded?
    || c.IndexingTimeout?
    || c.InternalIndexingError?
  }

  predicate ReindexableFailure(c: Failure) {
    || c.DependencyUnavailable?
    || c.ProcessingTimeout?
    || c.ResourceLimitExceeded?
    || c.InternalProcessingError?
    || c.EmbeddingUnavailable?
    || c.VectorStoreUnavailable?
    || c.IndexingTimeout?
    || c.InternalIndexingError?
  }

  predicate ValidExtractionFailure(c: Failure) {
    || c.EncryptedDocument?
    || c.ExtractionNotPermitted?
    || c.MalformedDocument?
    || c.UnsupportedDocument?
    || c.NoExtractableText?
    || c.ResourceLimitExceeded?
    || c.SourceIntegrityMismatch?
    || c.ProcessingTimeout?
    || c.DependencyUnavailable?
    || c.InternalProcessingError?
  }

  predicate ValidDetail(detail: string) {
    |detail| <= 128 &&
    forall i :: 0 <= i < |detail| ==>
      'a' <= detail[i] <= 'z' || '0' <= detail[i] <= '9' || detail[i] == '_' || detail[i] == '-'
  }

  predicate CanReindex(b: Row) {
    b.manifestRef != 0 && b.manifestDigest != 0 &&
    (b.status.Indexed? || (b.status.Failed? && ReindexableFailure(b.failure)))
  }

  // ---------------------------------------------------------------------
  // What one fact does, as a table over the aggregate

  datatype Verdict = Accepted(row: Row) | Absorbed | Rejected(error: DomainError)

  /** Work is outstanding and Retrieval may still report its outcome. */
  predicate AwaitingIndex(b: Row) {
    || (b.status.Pending? && b.stage.QueuedStage?)
    || (b.status.Processing? && (b.stage.QueuedStage? || b.stage.ExtractingStage? || b.stage.ChunksReadyStage?))
    || (b.status.Reindexing? && b.stage.ChunksReadyStage?)
  }

  predicate FailedIndexing(b: Row) {
    b.stage.FailedStage? && ValidIndexingFailure(b.failure)
  }

  function Advance(b: Row, status: Status, stage: Stage, failure: Failure, detail: string, now: Time): Row {
    b.(status := status, stage := stage, failure := failure, detail := detail,
       version := b.version + 1, updatedAt := now)
  }

  /** Moves the outcome of a fact: accepted with a new row, absorbed as already
      known, or rejected as contradicting what the aggregate has seen. */
  function Judge(b: Row, f: Fact): Verdict {
    if f.occurredAt == 0 then Rejected(ConflictingFact)
    else match f.kind
      case StartedFact =>
        if b.stage.ExtractingStage? || b.stage.ChunksReadyStage? || b.stage.IndexedStage? || b.stage.FailedStage?
            then Absorbed
        else if b.status.Pending? && b.stage.QueuedStage? then
          Accepted(Advance(b, Processing, ExtractingStage, b.failure, b.detail, f.occurredAt))
        else Rejected(ConflictingFact)
      case ChunksReadyFact =>
        if b.stage.ChunksReadyStage? || b.stage.IndexedStage? || FailedIndexing(b) then Absorbed
        else if !b.stage.FailedStage? && (b.status.Pending? || b.status.Processing?) then
          Accepted(Advance(b, Processing, ChunksReadyStage, NoFailure, "", f.occurredAt))
        else Rejected(ConflictingFact)
      case FailedFact =>
        if !ValidExtractionFailure(f.failure) || !ValidDetail(f.detail) then Rejected(ConflictingFact)
        else if b.stage.IndexedStage? || FailedIndexing(b) then Absorbed
        else if b.stage.FailedStage? && b.failure == f.failure && b.detail == f.detail then Absorbed
        else if b.stage.ChunksReadyStage? || b.status.Failed? then Rejected(ConflictingFact)
        else if b.status.Pending? || b.status.Processing? || b.status.Reindexing? then
          Accepted(Advance(b, Failed, FailedStage, f.failure, f.detail, f.occurredAt))
        else Rejected(InvalidTransition)
      case IndexedFact =>
        if b.stage.IndexedStage? && b.status.Indexed? then Absorbed
        else if AwaitingIndex(b) then Accepted(Advance(b, Indexed, IndexedStage, NoFailure, "", f.occurredAt))
        else Rejected(ConflictingFact)
      case IndexingFailedFact =>
        if !ValidIndexingFailure(f.failure) || !ValidDetail(f.detail) then Rejected(ConflictingFact)
        else if b.stage.FailedStage? && b.status.Failed? && b.failure == f.failure && b.detail == f.detail then Absorbed
        else if AwaitingIndex(b) then Accepted(Advance(b, Failed, FailedStage, f.failure, f.detail, f.occurredAt))
        else Rejected(ConflictingFact)
      case OtherFact => Rejected(ConflictingFact)
  }

  function RowAfter(b: Row, f: Fact): Row {
    var v := Judge(b, f);
    if v.Accepted? then v.row else b
  }

  // ---------------------------------------------------------------------
  // The aggregate as an object

  class Book {
    var content: Option<Content>
    const createdAt: Time
    var status: Status
    var stage: Stage
    var failure: Failure
    var detail: string
    var updatedAt: Time
    var version: nat
    var lifecycle: nat
    var manifestRef: Id
    var manifestDigest: nat
    var commandId: Id
    var originalDeleted: bool
    var artifactsDeleted: bool
    var indexDeleted: bool

    constructor (row: Row)
      ensures State() == row
    {
      content, createdAt, status, stage := row.content, row.createdAt, row.status, row.stage;
      failure, detail, updatedAt := row.failure, row.detail, row.updatedAt;
      version, lifecycle := row.version, row.lifecycle;
      manifestRef, manifestDigest, commandId := row.manifestRef, row.manifestDigest, row.commandId;
      originalDeleted, artifactsDeleted, indexDeleted := row.originalDeleted, row.artifactsDeleted, row.indexDeleted;
    }

    function State(): Row
      reads this
    {
      Row(content, createdAt, status, stage, failure, detail, updatedAt, version, lifecycle,
          manifestRef, manifestDigest, commandId, originalDeleted, artifactsDeleted, indexDeleted)
    }

    method TransitionTo(next: Status) returns (ok: bool)
      modifies this`status
      ensures ok == ValidTransition(old(status), next)
      ensures status == if ok then next else old(status)
    {
      ok := ValidTransition(status, next);
      if ok {
        status := next;
      }
    }

    /** What one case of ApplyProcessingFact leaves behind, before the version is bumped. */
    ghost predicate Settled(before: Row, fact: Fact, changed: bool, error: Option<DomainError>)
      reads this
    {
      var v := Judge(before, fact);
      && changed == v.Accepted?
      && error == (if v.Rejected? then Some(v.error) else None)
      && (!changed ==> State() == before)
      && (changed ==> v.row == State().(version := version + 1, updatedAt := fact.occurredAt))
    }

    /** A rejected or absorbed fact leaves every field as it was. */
    method ApplyProcessingFact(fact: Fact) returns (changed: bool, error: Option<DomainError>)
      modifies this
      ensures State() == RowAfter(old(State()), fact)
      ensures changed == Judge(old(State()), fact).Accepted?
      ensures error == (var v := Judge(old(State()), fact); if v.Rejected? then Some(v.error) else None)
    {
      if fact.occurredAt == 0 {
        return false, Some(ConflictingFact);
      }
      match fact.kind {
        case StartedFact => changed, error := ApplyStarted(fact);
        case ChunksReadyFact => changed, error := ApplyChunksReady(fact);
        case FailedFact => changed, error := ApplyFailed(fact);
        case IndexedFact => changed, error := ApplyIndexed(fact);
        case IndexingFailedFact => changed, error := ApplyIndexingFailed(fact);
        case OtherFact => changed, error := false, Some(ConflictingFact);
      }
      if changed {
        version := version + 1;
        updatedAt := fact.occurredAt;
      }
    }

    method ApplyStarted(fact: Fact) returns (changed: bool, error: Option<DomainError>)
      requires fact.occurredAt != 0 && fact.kind.StartedFact?
      modifies this
      ensures Settled(old(State()), fact, changed, error)
    {
      if stage == ExtractingStage {
        return false, None;
      }
      if stage == ChunksReadyStage || stage == IndexedStage || stage == FailedStage {
        return false, None;
      }
      if status != Pending || stage != QueuedStage {
        return false, Some(ConflictingFact);
      }
      var moved := TransitionTo(Processing);
      if !moved {
        return false, Some(InvalidTransition);
      }
      stage := ExtractingStage;
      return true, None;
    }

    method ApplyChunksReady(fact: Fact) returns (changed: bool, error: Option<DomainError>)
      requires fact.occurredAt != 0 && fact.kind.ChunksReadyFact?
      modifies this
      ensures Settled(old(State()), fact, changed, error)
    {
      if stage == ChunksReadyStage || stage == IndexedStage || (stage == FailedStage && ValidIndexingFailure(failure)) {
        return false, None;
      }
      if stage == FailedStage {
        return false, Some(ConflictingFact);
      }
      if status == Pending {
        var moved := TransitionTo(Processing);
        if !moved {
          return false, Some(InvalidTransition);
        }
      } else if status != Processing {
        return false, Some(ConflictingFact);
      }
      stage, failure, detail := ChunksReadyStage, NoFailure, "";
      return true, None;
    }

    method ApplyFailed(fact: Fact) returns (changed: bool, error: Option<DomainError>)
      requires fact.occurredAt != 0 && fact.kind.FailedFact?
      modifies this
      ensures Settled(old(State()), fact, changed, error)
    {
      hide ValidExtractionFailure, ValidIndexingFailure, ValidDetail;
      if !ValidExtractionFailure(fact.failure) || !ValidDetail(fact.detail) {
        return false, Some(ConflictingFact);
      }
      if stage == IndexedStage || (stage == FailedStage && ValidIndexingFailure(failure)) {
        return false, None;
      }
      if stage == FailedStage && failure == fact.failure && detail == fact.detail {
        return false, None;
      }
      if stage == ChunksReadyStage || status == Failed {
        return false, Some(ConflictingFact);
      }
      if status == Pending {
        var moved := TransitionTo(Processing);
        if !moved {
          return false, Some(InvalidTransition);
        }
      }
      var ended := TransitionTo(Failed);
      if !ended {
        return false, Some(InvalidTransition);
      }
      stage, failure, detail := FailedStage, fact.failure, fact.detail;
      return true, None;
    }

    method ApplyIndexed(fact: Fact) returns (changed: bool, error: Option<DomainError>)
      requires fact.occurredAt != 0 && fact.kind.IndexedFact?
      modifies this
      ensures Settled(old(State()), fact, changed, error)
    {
      if stage == IndexedStage && status == Indexed {
        return false, None;
      }
      changed, error := ConcludeIndexing(Indexed);
      if changed {
        stage, failure, detail := IndexedStage, NoFailure, "";
      }
    }

    method ApplyIndexingFailed(fact: Fact) returns (changed: bool, error: Option<DomainError>)
      requires fact.occurredAt != 0 && fact.kind.IndexingFailedFact?
      modifies this
      ensures Settled(old(State()), fact, changed, error)
    {
      if !ValidIndexingFailure(fact.failure) || !ValidDetail(fact.detail) {
        return false, Some(ConflictingFact);
      }
      if stage == FailedStage && status == Failed && failure == fact.failure && detail == fact.detail {
        return false, None;
      }
      changed, error := ConcludeIndexing(Failed);
      if changed {
        stage, failure, detail := FailedStage, fact.failure, fact.detail;
      }
    }

    /** The status moves that the two facts from Retrieval share. */
    method ConcludeIndexing(outcome: Status) returns (moved: bool, error: Option<DomainError>)
      requires outcome.Indexed? || outcome.Failed?
      modifies this`status
      ensures moved == AwaitingIndex(old(State()))
      ensures error == if moved then None else Some(ConflictingFact)
      ensures status == if moved then outcome else old(status)
    {
      if status == Reindexing && stage == ChunksReadyStage {
        moved := TransitionTo(outcome);
        return moved, None;
      }
      if status == Pending && stage == QueuedStage {
        moved := TransitionTo(Processing);
      }
      if (stage != QueuedStage && stage != ExtractingStage && stage != ChunksReadyStage) || status != Processing {
        return false, Some(ConflictingFact);
      }
      moved := TransitionTo(outcome);
      return moved, None;
    }
  }

  // ---------------------------------------------------------------------
  // Runs of facts

  function AfterFacts(b: Row, facts: seq<Fact>): Row
    decreases |facts|
  {
    if facts == [] then b else AfterFacts(RowAfter(b, facts[0]), facts[1..])
  }

  predicate NeverRejected(b: Row, facts: seq<Fact>)
    decreases |facts|
  {
    facts == [] || (!Judge(b, facts[0]).Rejected? && NeverRejected(RowAfter(b, facts[0]), facts[1..]))
  }

  /** How far a book has come within one lifecycle version. */
  function Progress(s: Stage): nat {
    match s
    case NoStage => 4
    case QueuedStage => 0
    case ExtractingStage => 1
    case ChunksReadyStage => 2
    case _ => 3
  }

  /** The shapes in which a book can await or have received facts; what facts,
      uploads and lifecycle commands keep (see Lifecycle). A reindexed book keeps
      the failure detail of the failure it recovers from. */
  predicate Shape(status: Status, stage: Stage, failure: Failure, detail: string) {
    match status
    case Pending => stage.QueuedStage? && failure.NoFailure? && detail == ""
    case Processing => (stage.ExtractingStage? || stage.ChunksReadyStage?) && failure.NoFailure? && detail == ""
    case Indexed => stage.IndexedStage? && failure.NoFailure? && detail == ""
    case Failed => stage.FailedStage? && KnownFailure(failure) && ValidDetail(detail)
    case Reindexing => stage.ChunksReadyStage? && failure.NoFailure? && ValidDetail(detail)
    case Deleting =>
      if stage.FailedStage? then KnownFailure(failure) && ValidDetail(detail)
      else !stage.NoStage? && failure.NoFailure? && ValidDetail(detail) && (detail != "" ==> stage.ChunksReadyStage?)
    case Deleted => stage.NoStage? && failure.NoFailure? && detail == ""
  }

  predicate KnownFailure(c: Failure) {
    ValidExtractionFailure(c) || ValidIndexingFailure(c)
  }

  /** It is about the document, its manifest or the profile, and would happen again. */
  predicate Final(c: Failure) {
    || c.EncryptedDocument? || c.ExtractionNotPermitted? || c.MalformedDocument? || c.UnsupportedDocument?
    || c.NoExtractableText? || c.SourceIntegrityMismatch? || c.ManifestIntegrity? || c.IncompatibleProfile?
  }

  /** Every category belongs to extraction or to indexing, one of them to both; and a
      book with a manifest can be reindexed exactly if it is indexed or failed for a
      reason that is not final. */
  lemma CanReindexExactly(b: Row)
    requires Shaped(b)
    ensures CanReindex(b) <==>
            && b.manifestRef != 0 && b.manifestDigest != 0
            && (b.status.Indexed? || (b.status.Failed? && !Final(b.failure)))
    ensures KnownFailure(b.failure) <==> !b.failure.NoFailure? && !b.failure.OtherFailure?
    ensures ValidExtractionFailure(b.failure) && ValidIndexingFailure(b.failure) <==>
            b.failure == ResourceLimitExceeded
  {
  }

  predicate Shaped(b: Row) {
    Shape(b.status, b.stage, b.failure, b.detail)
  }

  lemma FactsKeepShape(b: Row, f: Fact)
    requires Shaped(b)
    ensures Shaped(RowAfter(b, f))
    ensures b.status.Deleting? || b.status.Deleted? ==> RowAfter(b, f) == b
    ensures Judge(b, f).Accepted? ==> Progress(b.stage) < Progress(RowAfter(b, f).stage) <= 3
    ensures RowAfter(b, f).version == if Judge(b, f).Accepted? then b.version + 1 else b.version
  {
    match f.kind
    case StartedFact =>
    case ChunksReadyFact =>
    case FailedFact =>
    case IndexedFact =>
    case IndexingFailedFact =>
    case OtherFact =>
  }

  /** An accepted fact moves a live book to another live state and touches six fields. */
  lemma AcceptedRow(b: Row, f: Fact)
    requires Shaped(b)
    ensures var v := Judge(b, f);
            v.Accepted? ==>
              && v.row == b.(status := v.row.status, stage := v.row.stage, failure := v.row.failure,
                   detail := v.row.detail,
                             version := b.version + 1, updatedAt := f.occurredAt)
              && !b.status.Deleting? && !b.status.Deleted? && !v.row.status.Deleting? && !v.row.status.Deleted?
              && Shaped(v.row)
  {
    match f.kind
    case StartedFact =>
    case ChunksReadyFact =>
    case FailedFact =>
    case IndexedFact =>
    case IndexingFailedFact =>
    case OtherFact =>
  }

  /** One fact buys at most as many versions as it makes progress. */
  predicate Paid(before: Row, after: Row) {
    && Shaped(after)
    && before.version <= after.version
    && after.version - before.version <= Progress(after.stage) - Progress(before.stage)
    && (Progress(before.stage) <= 3 ==> Progress(after.stage) <= 3)
  }

  lemma FactIsPaid(b: Row, f: Fact)
    requires Shaped(b)
    ensures Paid(b, RowAfter(b, f))
  {
    FactsKeepShape(b, f);
  }

  lemma {:induction false} PaidThrough(b: Row, facts: seq<Fact>)
    requires Shaped(b)
    ensures Paid(b, AfterFacts(b, facts))
    decreases |facts|
  {
    if facts != [] {
      var next := RowAfter(b, facts[0]);
      FactIsPaid(b, facts[0]);
      PaidThrough(next, facts[1..]);
    }
  }

  /** However many facts arrive, in whatever order, one lifecycle version
      accepts at most three of them: each moves the stage strictly forward. */
  lemma AtMostThreeChanges(b: Row, facts: seq<Fact>)
    requires Shaped(b)
    ensures Paid(b, AfterFacts(b, facts))
    ensures Progress(b.stage) <= 3 ==> AfterFacts(b, facts).version <= b.version + 3 - Progress(b.stage)
  {
    PaidThrough(b, facts);
  }

  /** The three stories one processing attempt can tell. */
  datatype Story = Succeeds | FailsIndexing(failure: Failure, detail: string) | FailsExtraction(failure: Failure,
      detail: string)

  predicate Plausible(story: Story) {
    match story
    case Succeeds => true
    case FailsIndexing(c, d) => ValidIndexingFailure(c) && ValidDetail(d)
    case FailsExtraction(c, d) => ValidExtractionFailure(c) && ValidDetail(d)
  }

  predicate Concludes(story: Story, f: Fact) {
    match story
    case Succeeds => f.kind.IndexedFact?
    case FailsIndexing(c, d) => f.kind.IndexingFailedFact? && f.failure == c && f.detail == d
    case FailsExtraction(c, d) => f.kind.FailedFact? && f.failure == c && f.detail == d
  }

  /** A fact this story may report, on time, late or twice. */
  predicate Tells(story: Story, f: Fact) {
    f.occurredAt != 0 &&
    (Concludes(story, f) || f.kind.StartedFact? || (f.kind.ChunksReadyFact? && !story.FailsExtraction?))
  }

  predicate EndsAs(story: Story, b: Row) {
    match story
    case Succeeds => b.status.Indexed? && b.stage.IndexedStage? && b.failure.NoFailure? && b.detail == ""
    case FailsIndexing(c, d) => b.status.Failed? && b.stage.FailedStage? && b.failure == c && b.detail == d
    case FailsExtraction(c, d) => b.status.Failed? && b.stage.FailedStage? && b.failure == c && b.detail == d
  }

  /** A first attempt, or a reindexing: the latter starts behind the extraction, and
      may carry the detail of the failure that it recovers from. */
  predicate Underway(story: Story, b: Row) {
    b.failure.NoFailure? &&
    (|| (b.detail == "" && b.status.Pending? && b.stage.QueuedStage?)
     || (b.detail == "" && b.status.Processing? && b.stage.ExtractingStage?)
     || (b.detail == "" && b.status.Processing? && b.stage.ChunksReadyStage? && !story.FailsExtraction?)
     || (b.status.Reindexing? && b.stage.ChunksReadyStage? && !story.FailsExtraction?))
  }

  lemma ToldFact(story: Story, b: Row, f: Fact)
    requires Plausible(story)
    requires Underway(story, b) || EndsAs(story, b)
    requires Tells(story, f)
    ensures !Judge(b, f).Rejected?
    ensures Underway(story, RowAfter(b, f)) || EndsAs(story, RowAfter(b, f))
    ensures EndsAs(story, RowAfter(b, f)) <==> EndsAs(story, b) || Concludes(story, f)
  {
    match f.kind
    case StartedFact =>
    case ChunksReadyFact =>
    case FailedFact =>
    case IndexedFact =>
    case IndexingFailedFact =>
    case OtherFact =>
  }

  /** Confluence, of first attempts and of reindexings: any order and any duplication
      of the facts of one story is accepted or absorbed, and ends in the story's one
      outcome as soon as its concluding fact is among them, first, last or in between. */
  lemma {:induction false} FactsAreConfluent(story: Story, b: Row, facts: seq<Fact>)
    requires Plausible(story)
    requires Underway(story, b) || EndsAs(story, b)
    requires forall i :: 0 <= i < |facts| ==> Tells(story, facts[i])
    ensures NeverRejected(b, facts)
    ensures Underway(story, AfterFacts(b, facts)) || EndsAs(story, AfterFacts(b, facts))
    ensures EndsAs(story, b) || (exists i :: 0 <= i < |facts| && Concludes(story, facts[i]))
        <==> EndsAs(story, AfterFacts(b, facts))
    decreases |facts|
  {
    if facts != [] {
      var rest := facts[1..];
      ToldFact(story, b, facts[0]);
      FactsAreConfluent(story, RowAfter(b, facts[0]), rest);
      ConcludedBy(story, facts);
    }
  }

  /** What contradicts a story that has ended: another outcome of the same stage. A
      failed extraction whose category indexing has too passes for a failed indexing,
      which later news from extraction does not contradict. */
  predicate Contradicts(story: Story, f: Fact) {
    match story
    case Succeeds => f.kind.IndexingFailedFact?
    case FailsIndexing(failure, detail) =>
      f.kind.IndexedFact? || (f.kind.IndexingFailedFact? && (f.failure != failure || f.detail != detail))
    case FailsExtraction(failure, detail) =>
      || f.kind.IndexedFact?
      || (f.kind.IndexingFailedFact? && (f.failure != failure || f.detail != detail))
      || (failure != ResourceLimitExceeded
          && (f.kind.ChunksReadyFact? || (f.kind.FailedFact? && (f.failure != failure || f.detail != detail))))
  }

  predicate WellFormed(f: Fact) {
    && f.occurredAt != 0 && !f.kind.OtherFact?
    && (f.kind.FailedFact? ==> ValidExtractionFailure(f.failure) && ValidDetail(f.detail))
    && (f.kind.IndexingFailedFact? ==> ValidIndexingFailure(f.failure) && ValidDetail(f.detail))
  }

  /** A story's end is final within its lifecycle version: no fact is accepted any more,
      and one is refused as a conflict exactly if it is malformed or contradicts it. */
  lemma EndsAreFinal(story: Story, b: Row, f: Fact)
    requires Plausible(story) && EndsAs(story, b)
    ensures Judge(b, f) == if !WellFormed(f) || Contradicts(story, f) then Rejected(ConflictingFact) else Absorbed
  {
    match f.kind
    case StartedFact =>
    case ChunksReadyFact =>
    case FailedFact =>
    case IndexedFact =>
    case IndexingFailedFact =>
    case OtherFact =>
  }

  /** Before that, whichever outcome comes first wins: a queued book or one being
      extracted takes any, one with chunks any but a failed extraction. */
  lemma FirstOutcomeWins(b: Row, f: Fact)
    requires Shaped(b) && WellFormed(f)
    requires b.stage.QueuedStage? || b.stage.ExtractingStage? || b.stage.ChunksReadyStage?
    requires !b.status.Deleting?
    requires f.kind.FailedFact? || f.kind.IndexedFact? || f.kind.IndexingFailedFact?
    ensures if f.kind.FailedFact? && b.stage.ChunksReadyStage? then Judge(b, f) == Rejected(ConflictingFact)
            else Judge(b, f).Accepted? && EndsAs(OutcomeOf(f), Judge(b, f).row)
  {
  }

  /** The book has heard as much, or knows better. */
  predicate Reported(b: Row, f: Fact) {
    match f.kind
    case StartedFact => !b.stage.QueuedStage? && !b.stage.NoStage?
    case ChunksReadyFact => b.stage.ChunksReadyStage? || b.stage.IndexedStage? || FailedIndexing(b)
    case FailedFact =>
      || b.stage.IndexedStage? || FailedIndexing(b)
      || (b.stage.FailedStage? && b.failure == f.failure && b.detail == f.detail)
    case _ => false
  }

  /** A book that is being deleted, or is, absorbs what it has heard before, and no
      outcome of an indexing; it refuses anything else, and changes by nothing. */
  lemma DeletedBooksAnswer(b: Row, f: Fact)
    requires Shaped(b) && WellFormed(f) && (b.status.Deleting? || b.status.Deleted?)
    ensures Judge(b, f) ==
            if Reported(b, f) then Absorbed
            else if f.kind.FailedFact? && !b.stage.ChunksReadyStage? then Rejected(InvalidTransition)
            else Rejected(ConflictingFact)
  {
  }

  function OutcomeOf(f: Fact): Story {
    match f.kind
    case FailedFact => FailsExtraction(f.failure, f.detail)
    case IndexingFailedFact => FailsIndexing(f.failure, f.detail)
    case _ => Succeeds
  }

  lemma ConcludedBy(story: Story, facts: seq<Fact>)
    requires facts != []
    ensures (exists i :: 0 <= i < |facts| && Concludes(story, facts[i]))
        <==> Concludes(story, facts[0]) || (exists i :: 0 <= i < |facts[1..]| && Concludes(story, facts[1..][i]))
  {
    if i :| 0 <= i < |facts| && Concludes(story, facts[i]) {
      assert i == 0 || Concludes(story, facts[1..][i - 1]);
    }
    if i :| 0 <= i < |facts[1..]| && Concludes(story, facts[1..][i]) {
      assert Concludes(story, facts[i + 1]);
    }
  }
}
