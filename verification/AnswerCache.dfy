/**
 The cache of final answers
 (services/answer-service/internal/application/cache.go).

 The functions say what every operation does to the entries and the counters, and
 class Cache does it in place. AnswerCacheRuns proves what histories keep.
 */
module AnswerCache {
  import opened Prelude
  import opened Text
  import opened Fingerprints
  import opened Guards
  import Evidence
  import Output

  /** A cache is only built with room for an entry. */
  type Capacity = n: nat | 0 < n witness 1

  datatype Policy = Policy(capacity: Capacity, ttl: Time, minimumCosine: real, profile: string)

  /** What a running service is built with. The tables of Unicode, the word lists,
      the digests (see Fingerprints.Sha256Digests) and the similarity of embeddings
      are parameters. */
  datatype Setting = Setting(
    u: Unicode, lexicon: Lexicon, digests: Digests, cosine: (seq<real>, seq<real>) -> real,
    policy: Policy, limits: Limits)

  ghost predicate SaneSetting(env: Setting) {
    Sane(env.u) && Separating(env.digests)
  }

  /** A question and what retrieval found for it. */
  datatype Call = Call(request: Request, search: Evidence.Search)

  datatype Match = Match(
    query: string, topics: set<string>, guards: set<string>, modes: set<Mode>, embedding: seq<real>,
        embeddingProfile: string)

  datatype Entry = Entry(created: Time, asked: Match, key: CacheKey, projection: map<string, string>,
      segments: seq<Output.Segment>)

  datatype Outcome =
    | Bypass | Hit | Miss | Stale | ModeMismatch | TopicMismatch | SemanticMismatch
    | GuardMismatch | HardMismatch | EvidenceMismatch

  function Filtered(call: Call): Evidence.Search {
    Evidence.FilterByScore(call.search, call.request.minimumScore)
  }

  function EvidenceFor(env: Setting, call: Call): seq<ContextEvidence> {
    Evidence.Selected(env.u, Filtered(call), env.limits)
  }

  predicate Cacheable(env: Setting, call: Call) {
    && Trim(call.search.embeddingProfile, env.u.isSpace) != ""
    && Trim(call.search.retrievalProfile, env.u.isSpace) != ""
    && env.cosine(call.search.embedding, call.search.embedding) > 0.0
  }

  function KeyFor(env: Setting, call: Call): CacheKey {
    KeyOf(env.digests, env.policy.profile, call.request, call.search.retrievalProfile, EvidenceFor(env, call))
  }

  function MatchOf(env: Setting, call: Call): Match {
    var words := QueryWords(env.u, call.request.question);
    Match(Join(words, " "), Topics(env.lexicon, words), GuardTokens(env.u, env.lexicon, call.request.question),
        Modes(env.lexicon, words),
          call.search.embedding, call.search.embeddingProfile)
  }

  function QueriesMatch(env: Setting, current: Match, cached: Match): Outcome {
    if current.embeddingProfile != cached.embeddingProfile then SemanticMismatch
    else if current.guards != cached.guards then GuardMismatch
    else if current.query == cached.query then Hit
    else if current.modes != cached.modes then ModeMismatch
    else if current.topics != cached.topics then TopicMismatch
    else if env.cosine(current.embedding, cached.embedding) < env.policy.minimumCosine then SemanticMismatch
    else Hit
  }

  function Projections(env: Setting, evidence: seq<ContextEvidence>): map<string, string> {
    if evidence == [] then map[]
    else
      var last := evidence[|evidence| - 1];
      var rest := Projections(env, evidence[..|evidence| - 1]);
      if last.id == "" then rest else rest[last.id := env.digests.projection(last)]
  }

  predicate SegmentsMatchEvidence(segments: seq<Output.Segment>, evidence: seq<ContextEvidence>) {
    forall i :: 0 <= i < |segments| ==>
      segments[i].ids != [] && forall id :: id in segments[i].ids ==> exists e :: e in evidence && e.id == id
  }

  function ValueOr(m: map<string, string>, key: string): string {
    if key in m then m[key] else ""
  }

  predicate ProjectionMatches(env: Setting, segments: seq<Output.Segment>, cached: map<string, string>,
      evidence: seq<ContextEvidence>) {
    forall i :: 0 <= i < |segments| ==>
      forall id :: id in segments[i].ids ==> id in cached && ValueOr(Projections(env, evidence), id) == cached[id]
  }

  predicate Revalidates(env: Setting, e: Entry, evidence: seq<ContextEvidence>) {
    SegmentsMatchEvidence(e.segments, evidence) && ProjectionMatches(env, e.segments, e.projection, evidence)
  }

  function Priority(outcome: Outcome): nat {
    match outcome
    case EvidenceMismatch => 7
    case GuardMismatch => 6
    case ModeMismatch => 5
    case TopicMismatch => 4
    case SemanticMismatch => 3
    case Stale => 2
    case HardMismatch => 1
    case _ => 0
  }

  function Preferred(current: Outcome, candidate: Outcome): Outcome {
    if Priority(candidate) > Priority(current) then candidate else current
  }

  // ---------------------------------------------------------------------
  // The operations

  /** `replaced` is not counted by the source. */
  datatype State = State(entries: seq<Entry>, stores: nat, evictions: nat, expired: nat, sequence: nat, replaced: nat)

  const EMPTY: State := State([], 0, 0, 0, 0, 0)

  predicate Live(env: Setting, e: Entry, now: Time) {
    now - e.created < env.policy.ttl
  }

  function Prune(env: Setting, entries: seq<Entry>, now: Time): (live: seq<Entry>)
    ensures |live| <= |entries|
  {
    if entries == [] then []
    else (if Live(env, entries[0], now) then [entries[0]] else []) + Prune(env, entries[1..], now)
  }

  function Pruned(env: Setting, s: State, now: Time): State {
    var live := Prune(env, s.entries, now);
    var gone := |s.entries| - |live|;
    s.(entries := live, expired := s.expired + gone, sequence := s.sequence + if gone > 0 then 1 else 0)
  }

  function Touched(entries: seq<Entry>, i: nat): seq<Entry>
    requires i < |entries|
  {
    entries[..i] + entries[i + 1..] + [entries[i]]
  }

  /** What one entry is to a lookup: a hit, no hit and why, or another key's. */
  function Verdict(env: Setting, e: Entry, key: CacheKey, m: Match, evidence: seq<ContextEvidence>): Outcome {
    if e.key != key then Miss
    else
      var outcome := QueriesMatch(env, m, e.asked);
      if outcome != Hit then outcome
      else if Revalidates(env, e, evidence) then Hit
      else EvidenceMismatch
  }

  datatype Scan = Scan(found: Option<nat>, outcome: Outcome)

  /** Looks for the first hit from entry `i` on. */
  function ScanFrom(env: Setting, entries: seq<Entry>, i: nat, key: CacheKey, m: Match, evidence: seq<ContextEvidence>,
      outcome: Outcome): (r: Scan)
    requires i <= |entries|
    ensures r.found.Some? ==> i <= r.found.value < |entries|
    decreases |entries| - i
  {
    if i == |entries| then Scan(None, outcome)
    else
      var verdict := Verdict(env, entries[i], key, m, evidence);
      if verdict == Hit then Scan(Some(i), Hit)
      else ScanFrom(env, entries, i + 1, key, m, evidence, Preferred(outcome, verdict))
  }

  datatype Looked = Looked(state: State, entry: Option<Entry>, outcome: Outcome)

  function BaseOutcome(s: State, pruned: State): Outcome {
    if |pruned.entries| < |s.entries| then Stale else if s.entries == [] then Miss else HardMismatch
  }

  function Lookup(env: Setting, s: State, now: Time, call: Call): Looked {
    if !Cacheable(env, call) then Looked(s, None, Bypass)
    else
      var pruned := Pruned(env, s, now);
      var scan := ScanFrom(env, pruned.entries, 0, KeyFor(env, call), MatchOf(env, call), EvidenceFor(env, call),
          BaseOutcome(s, pruned));
      if scan.found.None? then Looked(pruned, None, scan.outcome)
      else Looked(pruned.(entries := Touched(pruned.entries, scan.found.value)),
          Some(pruned.entries[scan.found.value]), Hit)
  }

  /** Entries that stand for the same question: at most one is kept. */
  datatype Class = Class(key: CacheKey, query: string, modes: set<Mode>)

  function ClassOf(e: Entry): Class {
    Class(e.key, e.asked.query, e.asked.modes)
  }

  function EquivalentFrom(entries: seq<Entry>, i: nat, e: Entry): (r: Option<nat>)
    requires i <= |entries|
    ensures r.Some? ==> i <= r.value < |entries| && ClassOf(entries[r.value]) == ClassOf(e)
    ensures forall j :: i <= j < (if r.Some? then r.value else |entries|) ==> ClassOf(entries[j]) != ClassOf(e)
    decreases |entries| - i
  {
    if i == |entries| then None
    else if ClassOf(entries[i]) == ClassOf(e) then Some(i)
    else EquivalentFrom(entries, i + 1, e)
  }

  function EntryOf(env: Setting, now: Time, call: Call, segments: seq<Output.Segment>): Entry {
    Entry(now, MatchOf(env, call), KeyFor(env, call), Projections(env, EvidenceFor(env, call)), segments)
  }

  function Admit(env: Setting, s: State, e: Entry): State {
    var pruned := Pruned(env, s, e.created);
    var twin := EquivalentFrom(pruned.entries, 0, e);
    var counted := pruned.(stores := pruned.stores + 1, sequence := pruned.sequence + 1);
    if twin.Some? then
      counted.(entries := Touched(pruned.entries[twin.value := e], twin.value), replaced := counted.replaced + 1)
    else if |pruned.entries| == env.policy.capacity then
      counted.(entries := pruned.entries[1..] + [e], evictions := counted.evictions + 1)
    else
      counted.(entries := pruned.entries + [e])
  }

  function Store(env: Setting, s: State, now: Time, call: Call, segments: seq<Output.Segment>): State {
    if Cacheable(env, call) then Admit(env, s, EntryOf(env, now, call, segments)) else s
  }

  // ---------------------------------------------------------------------
  // The object

  lemma {:induction false} PruneJoins(env: Setting, a: seq<Entry>, b: seq<Entry>, now: Time)
    ensures Prune(env, a + b, now) == Prune(env, a, now) + Prune(env, b, now)
    decreases |a|
  {
    if a == [] {
      assert a + b == b;
    } else {
      assert (a + b)[1..] == a[1..] + b;
      PruneJoins(env, a[1..], b, now);
    }
  }

  class Cache {
    const env: Setting
    var entries: seq<Entry>
    var stores: nat
    var evictions: nat
    var expired: nat
    var sequence: nat
    ghost var replaced: nat

    ghost function Snapshot(): State
      reads this
    {
      State(entries, stores, evictions, expired, sequence, replaced)
    }

    constructor (env: Setting)
      ensures Snapshot() == EMPTY && this.env == env
    {
      this.env := env;
      entries, stores, evictions, expired, sequence, replaced := [], 0, 0, 0, 0, 0;
    }

    /** Compacts the live entries to the front, then cuts the rest off. */
    method PruneExpired(now: Time) returns (any: bool)
      modifies this
      ensures Snapshot() == Pruned(env, old(Snapshot()), now)
      ensures any == (|entries| < |old(entries)|)
    {
      var firstLive, pruned := 0, 0;
      ghost var before := entries;
      for i := 0 to |entries|
        invariant firstLive + pruned == i && |entries| == |before|
        invariant entries[..firstLive] == Prune(env, before[..i], now)
        invariant entries[i..] == before[i..]
        invariant stores == old(stores) && evictions == old(evictions) && expired == old(expired)
        invariant sequence == old(sequence) && replaced == old(replaced)
      {
        var entry := entries[i];
        assert before[..i + 1] == before[..i] + [before[i]];
        PruneJoins(env, before[..i], [before[i]], now);
        assert Prune(env, before[..i + 1], now) == Prune(env, before[..i], now)
            + (if Live(env, entry, now) then [entry] else []);
        assert entries[i + 1..] == entries[i..][1..] == before[i..][1..] == before[i + 1..];
        if now - entry.created < env.policy.ttl {
          assert entries[firstLive := entry][i + 1..] == entries[i + 1..];
          assert entries[firstLive := entry][..firstLive + 1] == entries[..firstLive] + [entry];
          entries := entries[firstLive := entry];
          firstLive := firstLive + 1;
        } else {
          pruned := pruned + 1;
        }
      }
      assert before[..|before|] == before;
      entries := entries[..firstLive];
      expired := expired + pruned;
      if pruned > 0 {
        sequence := sequence + 1;
      }
      return pruned > 0;
    }

    method Touch(i: nat)
      requires i < |entries|
      modifies this`entries
      ensures entries == Touched(old(entries), i)
    {
      if i >= |entries| - 1 {
        return;
      }
      var entry := entries[i];
      entries := entries[..i] + entries[i + 1..] + entries[|entries| - 1..];
      entries := entries[|entries| - 1 := entry];
    }

    method Find(call: Call, now: Time) returns (entry: Option<Entry>, outcome: Outcome)
      modifies this
      ensures Looked(Snapshot(), entry, outcome) == Lookup(env, old(Snapshot()), now, call)
    {
      hide Cacheable, Verdict, KeyFor, MatchOf, EvidenceFor, Preferred, Prune;
      if !Cacheable(env, call) {
        return None, Bypass;
      }
      var key, m, evidence := KeyFor(env, call), MatchOf(env, call), EvidenceFor(env, call);
      outcome := Miss;
      if |entries| > 0 {
        outcome := HardMismatch;
      }
      var any := PruneExpired(now);
      if any {
        outcome := Stale;
      }
      ghost var pruned := Snapshot();
      ghost var base := outcome;
      for i := 0 to |entries|
        invariant Snapshot() == pruned
        invariant ScanFrom(env, entries, i, key, m, evidence, outcome) ==
            ScanFrom(env, entries, 0, key, m, evidence, base)
      {
        var verdict := Verdict(env, entries[i], key, m, evidence);
        if verdict == Hit {
          var matched := entries[i];
          Touch(i);
          return Some(matched), Hit;
        }
        outcome := Preferred(outcome, verdict);
      }
      return None, outcome;
    }

    method Keep(call: Call, segments: seq<Output.Segment>, now: Time)
      modifies this
      ensures Snapshot() == Store(env, old(Snapshot()), now, call, segments)
    {
      hide Cacheable, Prune, EntryOf;
      if !Cacheable(env, call) {
        return;
      }
      var entry := EntryOf(env, now, call, segments);
      Put(entry);
      assert entry.created == now by { CreatedNow(env, now, call, segments); }
    }

    method Put(entry: Entry)
      modifies this
      ensures Snapshot() == Admit(env, old(Snapshot()), entry)
    {
      hide Prune;
      var _ := PruneExpired(entry.created);
      stores := stores + 1;
      sequence := sequence + 1;
      ghost var pruned := entries;
      for i := 0 to |entries|
        invariant entries == pruned && EquivalentFrom(pruned, i, entry) == EquivalentFrom(pruned, 0, entry)
        invariant stores == old(stores) + 1 && evictions == old(evictions) && replaced == old(replaced)
        invariant expired == Pruned(env, old(Snapshot()), entry.created).expired
        invariant sequence == Pruned(env, old(Snapshot()), entry.created).sequence + 1
      {
        if ClassOf(entries[i]) == ClassOf(entry) {
          entries := entries[i := entry];
          Touch(i);
          replaced := replaced + 1;
          return;
        }
      }
      if |entries| == env.policy.capacity {
        entries := entries[1..];
        evictions := evictions + 1;
      }
      entries := entries + [entry];
    }
  }

  lemma CreatedNow(env: Setting, now: Time, call: Call, segments: seq<Output.Segment>)
    ensures EntryOf(env, now, call, segments).created == now
  {
  }
}
