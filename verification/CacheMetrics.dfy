/**
 The cache's counters, and the recorder that publishes them
 (services/answer-service/internal/metrics/metrics.go, and operationalState in
 services/answer-service/internal/application/cache.go).

 Snapshots are taken under the cache's lock and delivered after it is released,
 so they can reach the recorder in any order.
 */
module CacheMetrics {
  import opened Prelude
  import opened AnswerCache
  import opened AnswerCacheRuns

  datatype Operational = Operational(entries: nat, stores: nat, evictions: nat, expired: nat, sequence: nat)

  function OperationalState(s: State): Operational {
    Operational(|s.entries|, s.stores, s.evictions, s.expired, s.sequence)
  }

  /** Every entry ever stored is live, evicted, expired or replaced. */
  predicate Balanced(s: State) {
    s.stores == |s.entries| + s.evictions + s.expired + s.replaced
  }

  /** From one state to a later one: nothing is uncounted, and the sequence stands
      still only when the snapshot does. */
  predicate Follows(a: Operational, b: Operational) {
    && a.stores <= b.stores && a.evictions <= b.evictions && a.expired <= b.expired && a.sequence <= b.sequence
    && (a.sequence == b.sequence ==> a == b)
  }

  lemma LookupCounts(env: Setting, s: State, now: Time, call: Call)
    ensures var next := Lookup(env, s, now, call).state;
            (Balanced(s) ==> Balanced(next)) && Follows(OperationalState(s), OperationalState(next))
  {
    hide Cacheable, Prune, KeyFor, MatchOf, EvidenceFor, Verdict, Preferred;
  }

  lemma AdmitCounts(env: Setting, s: State, e: Entry)
    ensures var next := Admit(env, s, e);
            (Balanced(s) ==> Balanced(next)) && Follows(OperationalState(s), OperationalState(next))
  {
    hide Prune;
  }

  lemma StepCounts(env: Setting, s: State, op: Op)
    ensures Balanced(s) ==> Balanced(Step(env, s, op))
    ensures Follows(OperationalState(s), OperationalState(Step(env, s, op)))
  {
    hide Lookup, Admit, Cacheable, EntryOf;
    match op
    case Ask(now, call) => LookupCounts(env, s, now, call);
    case Save(now, call, segments) => AdmitCounts(env, s, EntryOf(env, now, call, segments));
  }

  lemma {:induction false} StoresAddUp(env: Setting, ops: seq<Op>)
    ensures Balanced(After(env, ops))
    decreases |ops|
  {
    hide Balanced, Step;
    if ops == [] {
      assert Balanced(EMPTY) by { EmptyBalances(); }
    } else {
      StoresAddUp(env, ops[..|ops| - 1]);
      StepCounts(env, After(env, ops[..|ops| - 1]), ops[|ops| - 1]);
    }
  }

  lemma EmptyBalances()
    ensures Balanced(EMPTY)
  {
  }

  function SnapshotAt(env: Setting, ops: seq<Op>, k: nat): Operational
    requires k <= |ops|
  {
    OperationalState(After(env, ops[..k]))
  }

  lemma {:induction false} SnapshotsFollow(env: Setting, ops: seq<Op>, j: nat, k: nat)
    requires j <= k <= |ops|
    ensures Follows(SnapshotAt(env, ops, j), SnapshotAt(env, ops, k))
    decreases k
  {
    hide Step;
    if j < k {
      SnapshotsFollow(env, ops, j, k - 1);
      assert ops[..k][..k - 1] == ops[..k - 1];
      StepCounts(env, After(env, ops[..k - 1]), ops[k - 1]);
    }
  }

  /** Equal sequences are equal snapshots, at any two moments of a history. */
  lemma SequenceDetermines(env: Setting, ops: seq<Op>, j: nat, k: nat)
    requires j <= |ops| && k <= |ops| && SnapshotAt(env, ops, j).sequence == SnapshotAt(env, ops, k).sequence
    ensures SnapshotAt(env, ops, j) == SnapshotAt(env, ops, k)
  {
    if j <= k {
      SnapshotsFollow(env, ops, j, k);
    } else {
      SnapshotsFollow(env, ops, k, j);
    }
  }

  // ---------------------------------------------------------------------
  // The recorder

  function Record(current: Operational, delivered: Operational): Operational {
    if delivered.sequence < current.sequence then current else delivered
  }

  /** `deliveries` are the moments whose snapshots arrive, in order of arrival. */
  function Recorded(env: Setting, ops: seq<Op>, deliveries: seq<nat>): Operational
    requires forall i :: 0 <= i < |deliveries| ==> deliveries[i] <= |ops|
  {
    if deliveries == [] then Operational(0, 0, 0, 0, 0)
    else Record(Recorded(env, ops, deliveries[..|deliveries| - 1]), SnapshotAt(env, ops, deliveries[|deliveries| - 1]))
  }

  function Newest(deliveries: seq<nat>): (n: nat)
    ensures forall i :: 0 <= i < |deliveries| ==> deliveries[i] <= n
    ensures n == 0 || n in deliveries
  {
    if deliveries == [] then 0
    else
      var n, last := Newest(deliveries[..|deliveries| - 1]), deliveries[|deliveries| - 1];
      if last >= n then last else n
  }

  /** Whatever the order of arrival, the recorder shows the newest moment that has
      been delivered; so its counters never fall. */
  lemma {:induction false} RecorderShowsNewest(env: Setting, ops: seq<Op>, deliveries: seq<nat>)
    requires forall i :: 0 <= i < |deliveries| ==> deliveries[i] <= |ops|
    ensures Newest(deliveries) <= |ops|
    ensures Recorded(env, ops, deliveries) == SnapshotAt(env, ops, Newest(deliveries))
    decreases |deliveries|
  {
    hide After;
    if deliveries == [] {
      BlankSnapshot(env, ops);
    } else {
      var n := |deliveries| - 1;
      RecorderShowsNewest(env, ops, deliveries[..n]);
      var before, last := Newest(deliveries[..n]), deliveries[n];
      if last >= before {
        SnapshotsFollow(env, ops, before, last);
      } else {
        SnapshotsFollow(env, ops, last, before);
      }
    }
  }

  lemma BlankSnapshot(env: Setting, ops: seq<Op>)
    ensures SnapshotAt(env, ops, 0) == Operational(0, 0, 0, 0, 0)
  {
  }

  lemma CountersNeverFall(env: Setting, ops: seq<Op>, deliveries: seq<nat>, n: nat)
    requires n <= |deliveries| && forall i :: 0 <= i < |deliveries| ==> deliveries[i] <= |ops|
    ensures Follows(Recorded(env, ops, deliveries[..n]), Recorded(env, ops, deliveries))
  {
    RecorderShowsNewest(env, ops, deliveries[..n]);
    RecorderShowsNewest(env, ops, deliveries);
    SnapshotsFollow(env, ops, Newest(deliveries[..n]), Newest(deliveries));
  }

  class Recorder {
    var cacheSequence: nat
    var cacheEntries: nat
    var cacheStores: nat
    var cacheEvictions: nat
    var cacheExpired: nat

    function Shown(): Operational
      reads this
    {
      Operational(cacheEntries, cacheStores, cacheEvictions, cacheExpired, cacheSequence)
    }

    constructor ()
      ensures Shown() == Operational(0, 0, 0, 0, 0)
    {
      cacheSequence, cacheEntries, cacheStores, cacheEvictions, cacheExpired := 0, 0, 0, 0, 0;
    }

    method CacheOperational(state: Operational)
      modifies this
      ensures Shown() == Record(old(Shown()), state)
    {
      if state.sequence < cacheSequence {
        return;
      }
      cacheSequence := state.sequence;
      cacheEntries := state.entries;
      cacheStores := state.stores;
      cacheEvictions := state.evictions;
      cacheExpired := state.expired;
    }
  }
}
