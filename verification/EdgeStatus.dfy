/** Edge's screening of status events (services/edge-api/bookstatus/consumer.go). */
module EdgeStatus {
  import opened Domain
  import opened Catalog

  predicate ValidFailure(c: Failure) {
    !c.NoFailure? && !c.OtherFailure?
  }

  predicate ValidLifecycleStage(stage: Stage, failure: Failure, detail: string) {
    if stage.FailedStage? then ValidFailure(failure) && ValidDetail(detail)
    else
      && failure.NoFailure?
      && detail == ""
      && (stage.QueuedStage? || stage.ExtractingStage? || stage.ChunksReadyStage? || stage.IndexedStage?)
  }

  predicate ValidState(e: StatusEvent) {
    var clean := e.failure.NoFailure? && e.detail == "";
    match e.status
    case Pending => e.stage.QueuedStage? && clean
    case Processing => (e.stage.ExtractingStage? || e.stage.ChunksReadyStage?) && clean
    case Indexed => e.stage.IndexedStage? && clean
    case Reindexing => e.stage.ChunksReadyStage? && clean
    case Deleting => ValidLifecycleStage(e.stage, e.failure, e.detail)
    case Deleted => e.stage.NoStage? && clean
    case Failed => e.stage.FailedStage? && ValidFailure(e.failure) && ValidDetail(e.detail)
  }

  /** On the wire versions are signed, and a lifecycle version of 0 stands for 1. */
  function NormalLifecycle(v: int): int {
    if v == 0 then 1 else v
  }

  predicate AcceptsWire(version: int, lifecycle: int, e: StatusEvent) {
    1 <= version && 1 <= NormalLifecycle(lifecycle) && ValidState(e)
  }

  predicate Accepts(e: StatusEvent) {
    AcceptsWire(e.version, e.lifecycle, e)
  }

  predicate Leftover(e: StatusEvent) {
    (e.status.Reindexing? || e.status.Deleting?) && e.stage.ChunksReadyStage? && e.detail != ""
  }

  /** Of the shapes that a book has, Edge accepts all but the leftovers, with a
      positive version and a lifecycle version that is not negative. */
  lemma ShapeIsValidUnlessLeftover(version: int, lifecycle: int, e: StatusEvent)
    requires Shape(e.status, e.stage, e.failure, e.detail)
    ensures AcceptsWire(version, lifecycle, e) <==> 1 <= version && 0 <= lifecycle && !Leftover(e)
  {
    hide ValidDetail, ReindexableFailure;
    match e.status
    case Pending =>
    case Processing =>
    case Indexed =>
    case Failed =>
    case Reindexing =>
    case Deleting =>
    case Deleted =>
  }
}
