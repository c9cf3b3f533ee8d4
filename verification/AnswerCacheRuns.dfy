/**
 What all histories of the answer cache keep: hits are faithful, the entries are
 those of a plain least-recently-used cache with expiry, and the counters add up
 (services/answer-service/internal/application/cache.go).
 */
module AnswerCacheRuns {
  import opened Prelude
  import opened Text
  import opened Fingerprints
  import opened Guards
  import Questions
  import Evidence
  import Output
  import opened AnswerCache

  // ---------------------------------------------------------------------
  // Histories

  /** Readings of the clock are free: callers read it before they take the lock. */
  datatype Op = Ask(now: Time, call: Call) | Save(now: Time, call: Call, segments: seq<Output.Segment>)

  function Step(env: Setting, s: State, op: Op): State {
    match op
    case Ask(now, call) => Lookup(env, s, now, call).state
    case Save(now, call, segments) => Store(env, s, now, call, segments)
  }

  function After(env: Setting, ops: seq<Op>): State {
    if ops == [] then EMPTY else Step(env, After(env, ops[..|ops| - 1]), ops[|ops| - 1])
  }

  /** The service stores only what it has validated. */
  predicate Proper(env: Setting, ops: seq<Op>) {
    forall i :: 0 <= i < |ops| && ops[i].Save? ==>
      Output.Acceptable(env.u, ops[i].segments, EvidenceFor(env, ops[i].call), env.limits)
  }

  predicate MadeBy(env: Setting, e: Entry, op: Op) {
    op.Save? && e == EntryOf(env, op.now, op.call, op.segments)
  }

  /** A save of the history made the entry. */
  predicate Genuine(env: Setting, e: Entry, ops: seq<Op>) {
    exists i :: 0 <= i < |ops| && MadeBy(env, e, ops[i])
  }

  // ---------------------------------------------------------------------
  // Where entries come from

  lemma {:induction false} PruneSelects(env: Setting, entries: seq<Entry>, now: Time)
    ensures forall e :: e in Prune(env, entries, now) <==> e in entries && Live(env, e, now)
    decreases |entries|
  {
    if entries != [] {
      PruneSelects(env, entries[1..], now);
      assert entries == [entries[0]] + entries[1..];
    }
  }

  lemma ScanFinds(env: Setting, entries: seq<Entry>, i: nat, key: CacheKey, m: Match, evidence: seq<ContextEvidence>,
      outcome: Outcome)
    requires i <= |entries|
    ensures var r := ScanFrom(env, entries, i, key, m, evidence, outcome);
            && (r.found.Some? ==> Verdict(env, entries[r.found.value], key, m, evidence) == Hit)
            && (forall j :: i <= j < (if r.found.Some? then r.found.value else |entries|)
                 ==> Verdict(env, entries[j], key, m, evidence) != Hit)
    decreases |entries| - i
  {
    hide Verdict, Preferred;
    if i < |entries| {
      var verdict := Verdict(env, entries[i], key, m, evidence);
      if verdict != Hit {
        ScanFinds(env, entries, i + 1, key, m, evidence, Preferred(outcome, verdict));
      }
    }
  }

  lemma LookupEntries(env: Setting, s: State, now: Time, call: Call)
    ensures var r := Lookup(env, s, now, call);
            && (forall e :: e in r.state.entries ==> e in s.entries)
            && (r.entry.Some? ==> Cacheable(env, call) && r.entry.value in s.entries && Live(env, r.entry.value, now))
            && (r.entry.Some? ==> Verdict(env, r.entry.value, KeyFor(env, call), MatchOf(env, call),
                 EvidenceFor(env, call)) == Hit)
  {
    hide Verdict, Cacheable, KeyFor, MatchOf, EvidenceFor, Live, Prune, Preferred;
    var pruned := Pruned(env, s, now);
    PruneSelects(env, s.entries, now);
    ScanFinds(env, pruned.entries, 0, KeyFor(env, call), MatchOf(env, call), EvidenceFor(env, call),
        BaseOutcome(s, pruned));
  }

  lemma AdmitEntries(env: Setting, s: State, e: Entry)
    ensures forall f :: f in Admit(env, s, e).entries ==> f in s.entries || f == e
  {
    hide Prune, Live;
    PruneSelects(env, s.entries, e.created);
  }

  lemma StepEntries(env: Setting, s: State, op: Op)
    ensures forall e :: e in Step(env, s, op).entries ==> e in s.entries || MadeBy(env, e, op)
  {
    hide Lookup, Admit, Cacheable;
    match op
    case Ask(now, call) => LookupEntries(env, s, now, call);
    case Save(now, call, segments) => AdmitEntries(env, s, EntryOf(env, now, call, segments));
  }

  lemma {:induction false} EntriesAreGenuine(env: Setting, ops: seq<Op>)
    ensures forall e :: e in After(env, ops).entries ==> Genuine(env, e, ops)
    decreases |ops|
  {
    hide Step, MadeBy;
    if ops != [] {
      var before := ops[..|ops| - 1];
      EntriesAreGenuine(env, before);
      StepEntries(env, After(env, before), ops[|ops| - 1]);
      forall e | e in After(env, ops).entries ensures Genuine(env, e, ops) {
        if e in After(env, before).entries {
          var i :| 0 <= i < |before| && MadeBy(env, e, before[i]);
          assert MadeBy(env, e, ops[i]);
        }
      }
    }
  }

  // ---------------------------------------------------------------------
  // An equal key is equal evidence

  lemma {:induction false} ProjectionOf(env: Setting, evidence: seq<ContextEvidence>, id: string)
    requires id != ""
    ensures id in Projections(env, evidence) <==> exists e :: e in evidence && e.id == id
    decreases |evidence|
  {
    if evidence != [] {
      var n := |evidence| - 1;
      ProjectionOf(env, evidence[..n], id);
      assert evidence == evidence[..n] + [evidence[n]];
    }
  }

  /** The selection never holds evidence without an identifier. */
  lemma EvidenceIsNamed(env: Setting, call: Call)
    ensures forall e :: e in EvidenceFor(env, call) ==> e.id != ""
  {
    var cs := Evidence.Candidates(env.u, Evidence.AllFound(Filtered(call)));
    Evidence.SelectionIsSound(env.u, cs, env.limits);
    var picks := Evidence.Selection(env.u, cs, env.limits);
    forall e | e in EvidenceFor(env, call) ensures e.id != "" {
      var i :| 0 <= i < |picks| && e == picks[i].context;
      assert Evidence.Fits(env.u, picks[i].context, env.limits);
    }
  }

  /** A hard-key match can only be a hit or a question that does not match: the
      entry's citations are there, and unchanged. */
  lemma EqualKeysRevalidate(env: Setting, e: Entry, op: Op, call: Call)
    requires SaneSetting(env) && MadeBy(env, e, op) && e.key == KeyFor(env, call)
    requires Output.Acceptable(env.u, op.segments, EvidenceFor(env, op.call), env.limits)
    ensures EvidenceFor(env, call) == EvidenceFor(env, op.call)
    ensures Revalidates(env, e, EvidenceFor(env, call))
  {
    hide EvidenceFor, SameFilters, MatchOf, KeyOf, Separating, Projections;
    KeyAgrees(env.digests, env.policy.profile, call.request, op.call.request,
                 call.search.retrievalProfile, op.call.search.retrievalProfile, EvidenceFor(env, call),
                     EvidenceFor(env, op.call));
    AcceptedRevalidates(env, op.call, op.segments, e);
  }

  /** A citation of accepted segments is evidence, and has its fingerprint. */
  lemma CitationIsKept(env: Setting, segments: seq<Output.Segment>, evidence: seq<ContextEvidence>, i: nat, id: string)
    requires Output.Acceptable(env.u, segments, evidence, env.limits) && i < |segments| && id in segments[i].ids
    requires forall e :: e in evidence ==> e.id != ""
    ensures id in Projections(env, evidence) && exists e :: e in evidence && e.id == id
  {
    hide Projections, Output.SafeText, Trim, Output.Shown;
    assert Output.Accepted(env.u, segments[i], evidence, env.limits);
    Output.FindFinds(evidence, id);
    ProjectionOf(env, evidence, id);
  }

  lemma CitesSomething(env: Setting, segments: seq<Output.Segment>, evidence: seq<ContextEvidence>, i: nat)
    requires Output.Acceptable(env.u, segments, evidence, env.limits) && i < |segments|
    ensures segments[i].ids != []
  {
    hide Output.SafeText, Trim, Output.Shown, Output.Cites;
    assert Output.Accepted(env.u, segments[i], evidence, env.limits);
  }

  lemma AcceptedRevalidates(env: Setting, call: Call, segments: seq<Output.Segment>, e: Entry)
    requires Output.Acceptable(env.u, segments, EvidenceFor(env, call), env.limits)
    requires e.segments == segments && e.projection == Projections(env, EvidenceFor(env, call))
    ensures Revalidates(env, e, EvidenceFor(env, call))
  {
    hide EvidenceFor, Projections, Output.Acceptable;
    var evidence := EvidenceFor(env, call);
    EvidenceIsNamed(env, call);
    forall i | 0 <= i < |segments|
      ensures segments[i].ids != [] && forall id :: id in segments[i].ids ==> exists v :: v in evidence && v.id == id
    {
      CitesSomething(env, segments, evidence, i);
      forall id | id in segments[i].ids ensures exists v :: v in evidence && v.id == id {
        CitationIsKept(env, segments, evidence, i, id);
      }
    }
    forall i, id | 0 <= i < |segments| && id in segments[i].ids
      ensures id in e.projection && ValueOr(Projections(env, evidence), id) == e.projection[id]
    {
      CitationIsKept(env, segments, evidence, i, id);
    }
    assert SegmentsMatchEvidence(segments, evidence);
    assert ProjectionMatches(env, segments, e.projection, evidence);
  }

  // ---------------------------------------------------------------------
  // Hits are faithful

  /** The same embedding profile, and questions with the same turns, that use words of
      the same modes, share all words on no list, and mean as much or are the same. */
  ghost predicate Alike(env: Setting, current: Call, cached: Call) {
    var a, b := QueryWords(env.u, current.request.question), QueryWords(env.u, cached.request.question);
    && current.search.embeddingProfile == cached.search.embeddingProfile
    && Questions.SameTurns(env.u, env.lexicon, current.request.question, cached.request.question)
    && Questions.SameModes(env.lexicon, a, b)
    && Questions.SameContent(env.lexicon, a, b)
    && (a == b || env.policy.minimumCosine <= env.cosine(current.search.embedding, cached.search.embedding))
  }

  /** What a hit may rest on: one save, younger than the TTL, of the same actor,
      filters, profiles and evidence, whose question is alike; its segments pass
      validation again, and render as they did. */
  ghost predicate Faithful(env: Setting, saved: Op, now: Time, call: Call, e: Entry) {
    && saved.Save? && e.segments == saved.segments
    && now - saved.now < env.policy.ttl
    && saved.call.request.actor == call.request.actor
    && SameFilters(saved.call.request.filters, call.request.filters)
    && saved.call.request.limit == call.request.limit
    && saved.call.request.minimumScore == call.request.minimumScore
    && saved.call.search.retrievalProfile == call.search.retrievalProfile
    && EvidenceFor(env, saved.call) == EvidenceFor(env, call)
    && Alike(env, call, saved.call)
  }

  predicate SameRendering(env: Setting, saved: Op, call: Call, e: Entry) {
    saved.Save? &&
    var shown := Output.Validated(env.u, e.segments, EvidenceFor(env, call), env.limits);
    && shown.Ok?
    && shown == Output.Validated(env.u, saved.segments, EvidenceFor(env, saved.call), env.limits)
  }

  /** The comparison of two questions succeeds exactly if they are alike, and what it
      gives as the reason otherwise is one. On an exact match neither the modes nor
      the topics are compared; they agree because joining words is injective. */
  lemma HitsExactly(env: Setting, current: Call, cached: Call)
    requires Sane(env.u)
    ensures var a, b := QueryWords(env.u, current.request.question), QueryWords(env.u, cached.request.question);
            var outcome := QueriesMatch(env, MatchOf(env, current), MatchOf(env, cached));
            && (outcome == Hit <==> Alike(env, current, cached))
            && (outcome == GuardMismatch ==>
                  !Questions.SameTurns(env.u, env.lexicon, current.request.question, cached.request.question))
            && (outcome == ModeMismatch ==> !Questions.SameModes(env.lexicon, a, b))
            && (outcome == TopicMismatch ==> !Questions.SameContent(env.lexicon, a, b))
            && (outcome == SemanticMismatch ==>
                  || current.search.embeddingProfile != cached.search.embeddingProfile
                  || env.cosine(current.search.embedding, cached.search.embedding) < env.policy.minimumCosine)
            && outcome in {Hit, GuardMismatch, ModeMismatch, TopicMismatch, SemanticMismatch}
  {
    hide Modes, Topics, QueryWords, GuardTokens, Questions.SameContent, Questions.SameModes, Questions.SameTurns;
    var a, b := QueryWords(env.u, current.request.question), QueryWords(env.u, cached.request.question);
    NormalizedDetermines(env.u, env.lexicon, current.request.question, cached.request.question);
    Questions.TopicsAreContent(env.lexicon, a, b);
    Questions.ModesAreSame(env.lexicon, a, b);
    Questions.GuardsAreTurns(env.u, env.lexicon, current.request.question, cached.request.question);
  }

  lemma HitIsFaithful(env: Setting, ops: seq<Op>, now: Time, call: Call)
    requires SaneSetting(env) && Proper(env, ops)
    ensures var found := Lookup(env, After(env, ops), now, call).entry;
            found.Some? ==>
              exists i :: 0 <= i < |ops| && Faithful(env, ops[i], now, call, found.value)
                  && SameRendering(env, ops[i], call, found.value)
  {
    hide After, Lookup, Cacheable, KeyFor, MatchOf, EvidenceFor, SaneSetting, Revalidates, QueriesMatch;
    var s := After(env, ops);
    var found := Lookup(env, s, now, call).entry;
    if found.Some? {
      LookupEntries(env, s, now, call);
      EntriesAreGenuine(env, ops);
      var i :| 0 <= i < |ops| && MadeBy(env, found.value, ops[i]);
      RestsOn(env, ops[i], now, call, found.value);
    }
  }

  /** So a question with a word on no list that no stored question has is never
      answered from the cache, nor is one that lacks such a word of all of them. */
  lemma OtherSubjectsMiss(env: Setting, ops: seq<Op>, now: Time, call: Call, word: string)
    requires SaneSetting(env) && Proper(env, ops) && !Questions.Listed(env.lexicon, word)
    requires forall i :: 0 <= i < |ops| && ops[i].Save? ==>
               (word in QueryWords(env.u, ops[i].call.request.question) <==>
                word !in QueryWords(env.u, call.request.question))
    ensures Lookup(env, After(env, ops), now, call).entry == None
  {
    hide After, Lookup, SaneSetting, Proper, QueryWords, EvidenceFor, SameFilters, SameRendering,
        Questions.SameTurns, Questions.SameModes, Questions.Listed;
    HitIsFaithful(env, ops, now, call);
  }

  /** For one, an answer on one subject is not given to a question on another. */
  lemma RustIsNotGo(env: Setting, ops: seq<Op>, now: Time, call: Call)
    requires SaneSetting(env) && Proper(env, ops) && PlainAscii(env.u) && env.lexicon == ENGLISH
    requires forall i :: 0 <= i < |ops| && ops[i].Save? ==> ops[i].call.request.question == Questions.GO
    requires call.request.question == Questions.RUST
    ensures Lookup(env, After(env, ops), now, call).entry == None
  {
    hide *;
    Questions.SubjectsTellApart(env.u);
    Questions.SubjectWords(env.u);
    OtherSubjectsMiss(env, ops, now, call, "go");
  }

  lemma RestsOn(env: Setting, saved: Op, now: Time, call: Call, e: Entry)
    requires SaneSetting(env) && MadeBy(env, e, saved) && Live(env, e, now)
    requires Output.Acceptable(env.u, saved.segments, EvidenceFor(env, saved.call), env.limits)
    requires Verdict(env, e, KeyFor(env, call), MatchOf(env, call), EvidenceFor(env, call)) == Hit
    ensures Faithful(env, saved, now, call, e) && SameRendering(env, saved, call, e)
  {
    hide MatchOf, EvidenceFor, KeyOf, QueriesMatch, Revalidates, Projections, Output.Acceptable, SameFilters,
        Separating, Sane, Alike;
    HitsExactly(env, call, saved.call);
    KeyAgrees(env.digests, env.policy.profile, saved.call.request, call.request,
                 saved.call.search.retrievalProfile, call.search.retrievalProfile, EvidenceFor(env, saved.call),
                     EvidenceFor(env, call));
  }

  /** A lookup bypasses the cache exactly without one of the two profiles, or without
      an embedding that is like itself. */
  lemma BypassExactly(env: Setting, s: State, now: Time, call: Call)
    ensures Lookup(env, s, now, call).outcome == Bypass <==>
            || All(call.search.embeddingProfile, env.u.isSpace)
            || All(call.search.retrievalProfile, env.u.isSpace)
            || env.cosine(call.search.embedding, call.search.embedding) <= 0.0
  {
    hide Text.Trim, All, Prune, KeyFor, MatchOf, EvidenceFor, QueriesMatch;
    var a, b := TrimExactly(call.search.embeddingProfile, env.u.isSpace);
    a, b := TrimExactly(call.search.retrievalProfile, env.u.isSpace);
    var pruned := Pruned(env, s, now);
    ScanIsNoBypass(env, pruned.entries, 0, KeyFor(env, call), MatchOf(env, call), EvidenceFor(env, call),
        BaseOutcome(s, pruned));
  }

  lemma {:induction false} ScanIsNoBypass(env: Setting, entries: seq<Entry>, i: nat, key: CacheKey, m: Match,
      evidence: seq<ContextEvidence>, outcome: Outcome)
    requires i <= |entries| && outcome != Bypass
    ensures ScanFrom(env, entries, i, key, m, evidence, outcome).outcome != Bypass
    decreases |entries| - i
  {
    hide Verdict;
    if i < |entries| {
      var verdict := Verdict(env, entries[i], key, m, evidence);
      ScanIsNoBypass(env, entries, i + 1, key, m, evidence, Preferred(outcome, verdict));
    }
  }

  /** No lookup ever reports an evidence mismatch. */
  lemma NeverEvidenceMismatch(env: Setting, ops: seq<Op>, now: Time, call: Call)
    requires SaneSetting(env) && Proper(env, ops)
    ensures Lookup(env, After(env, ops), now, call).outcome != EvidenceMismatch
  {
    hide After, KeyFor, MatchOf, EvidenceFor, Verdict, Prune, Cacheable;
    var s := After(env, ops);
    var pruned := Pruned(env, s, now);
    EntriesAreGenuine(env, ops);
    PruneSelects(env, s.entries, now);
    forall e | e in pruned.entries
      ensures Verdict(env, e, KeyFor(env, call), MatchOf(env, call), EvidenceFor(env, call)) != EvidenceMismatch
    {
      var i :| 0 <= i < |ops| && MadeBy(env, e, ops[i]);
      NoEvidenceVerdict(env, e, ops[i], call);
    }
    ScanAvoids(env, pruned.entries, 0, KeyFor(env, call), MatchOf(env, call), EvidenceFor(env, call),
        BaseOutcome(s, pruned));
  }

  lemma NoEvidenceVerdict(env: Setting, e: Entry, op: Op, call: Call)
    requires SaneSetting(env) && MadeBy(env, e, op)
    requires Output.Acceptable(env.u, op.segments, EvidenceFor(env, op.call), env.limits)
    ensures Verdict(env, e, KeyFor(env, call), MatchOf(env, call), EvidenceFor(env, call)) != EvidenceMismatch
  {
    hide KeyFor, MatchOf, EvidenceFor, Revalidates, SaneSetting, MadeBy, Output.Acceptable;
    if e.key == KeyFor(env, call) {
      EqualKeysRevalidate(env, e, op, call);
    }
  }

  lemma {:induction false} ScanAvoids(env: Setting, entries: seq<Entry>, i: nat, key: CacheKey, m: Match,
      evidence: seq<ContextEvidence>, outcome: Outcome)
    requires i <= |entries| && outcome != EvidenceMismatch
    requires forall e :: e in entries ==> Verdict(env, e, key, m, evidence) != EvidenceMismatch
    ensures ScanFrom(env, entries, i, key, m, evidence, outcome).outcome != EvidenceMismatch
    decreases |entries| - i
  {
    hide Verdict;
    if i < |entries| {
      var verdict := Verdict(env, entries[i], key, m, evidence);
      ScanAvoids(env, entries, i + 1, key, m, evidence, Preferred(outcome, verdict));
    }
  }

  /** A store is found again by the same call, while it is live; perhaps another
      entry that matches answers it, but never none. */
  lemma StoreIsFound(env: Setting, ops: seq<Op>, now: Time, call: Call, segments: seq<Output.Segment>, later: Time)
    requires SaneSetting(env) && Proper(env, ops + [Save(now, call, segments)]) && Cacheable(env, call)
    requires later - now < env.policy.ttl
    ensures Lookup(env, After(env, ops + [Save(now, call, segments)]), later, call).outcome == Hit
  {
    hide KeyFor, MatchOf, EvidenceFor, Prune, Cacheable, SaneSetting, Output.Acceptable, Verdict, Preferred;
    var all := ops + [Save(now, call, segments)];
    var e := EntryOf(env, now, call, segments);
    assert all[..|ops|] == ops && all[|ops|] == Save(now, call, segments);
    var s := After(env, all);
    assert s == Admit(env, After(env, ops), e);
    assert e in s.entries;
    var pruned := Pruned(env, s, later);
    PruneSelects(env, s.entries, later);
    assert MadeBy(env, e, all[|ops|]);
    SelfVerdict(env, e, all[|ops|], call);
    ScanFinds(env, pruned.entries, 0, KeyFor(env, call), MatchOf(env, call), EvidenceFor(env, call),
        BaseOutcome(s, pruned));
    ScanOutcome(env, pruned.entries, 0, KeyFor(env, call), MatchOf(env, call), EvidenceFor(env, call),
        BaseOutcome(s, pruned));
  }

  lemma SelfVerdict(env: Setting, e: Entry, op: Op, call: Call)
    requires SaneSetting(env) && op.Save? && op.call == call && MadeBy(env, e, op)
    requires Output.Acceptable(env.u, op.segments, EvidenceFor(env, op.call), env.limits)
    ensures Verdict(env, e, KeyFor(env, call), MatchOf(env, call), EvidenceFor(env, call)) == Hit
  {
    hide KeyFor, MatchOf, EvidenceFor, Revalidates, SaneSetting, Output.Acceptable;
    EqualKeysRevalidate(env, e, op, call);
  }

  lemma ScanOutcome(env: Setting, entries: seq<Entry>, i: nat, key: CacheKey, m: Match, evidence: seq<ContextEvidence>,
      outcome: Outcome)
    requires i <= |entries|
    ensures var r := ScanFrom(env, entries, i, key, m, evidence, outcome); r.found.Some? ==> r.outcome == Hit
    decreases |entries| - i
  {
    hide Verdict, Preferred;
  }

  // ---------------------------------------------------------------------
  // Why a lookup found nothing

  predicate Gives(env: Setting, entries: seq<Entry>, call: Call, reason: Outcome) {
    exists i :: 0 <= i < |entries| && entries[i].key == KeyFor(env, call)
                && QueriesMatch(env, MatchOf(env, call), entries[i].asked) == reason
  }

  lemma {:induction false} ScanPrefers(env: Setting, entries: seq<Entry>, i: nat, key: CacheKey, m: Match,
      evidence: seq<ContextEvidence>, outcome: Outcome)
    requires i <= |entries| && ScanFrom(env, entries, i, key, m, evidence, outcome).found.None?
    ensures var end := ScanFrom(env, entries, i, key, m, evidence, outcome).outcome;
            && Priority(outcome) <= Priority(end)
            && (forall j :: i <= j < |entries| ==>
                  Priority(Verdict(env, entries[j], key, m, evidence)) <= Priority(end))
            && (end == outcome || exists j :: i <= j < |entries| && Verdict(env, entries[j], key, m, evidence) == end)
    decreases |entries| - i
  {
    hide Verdict;
    if i < |entries| {
      var verdict := Verdict(env, entries[i], key, m, evidence);
      ScanPrefers(env, entries, i + 1, key, m, evidence, Preferred(outcome, verdict));
    }
  }

  /** What a lookup without a hit gives as the reason: of the live entries under its
      key, differing guards before modes before topics before meaning; and if there
      are no such entries, that some entry just expired, that the cache was empty, or
      that all there is has other keys. */
  lemma ReasonIsTold(env: Setting, ops: seq<Op>, now: Time, call: Call)
    requires SaneSetting(env) && Proper(env, ops)
    requires Cacheable(env, call) && Lookup(env, After(env, ops), now, call).entry == None
    ensures var s := After(env, ops);
            var live := Prune(env, s.entries, now);
            Lookup(env, s, now, call).outcome ==
            if Gives(env, live, call, GuardMismatch) then GuardMismatch
            else if Gives(env, live, call, ModeMismatch) then ModeMismatch
            else if Gives(env, live, call, TopicMismatch) then TopicMismatch
            else if Gives(env, live, call, SemanticMismatch) then SemanticMismatch
            else if |live| < |s.entries| then Stale
            else if s.entries == [] then Miss
            else HardMismatch
  {
    hide KeyFor, MatchOf, EvidenceFor, Verdict, Cacheable, Prune, SaneSetting, Proper, After, ScanFrom, Gives;
    NeverEvidenceMismatch(env, ops, now, call);
    var s := After(env, ops);
    var pruned := Pruned(env, s, now);
    var key, m, evidence := KeyFor(env, call), MatchOf(env, call), EvidenceFor(env, call);
    ScanPrefers(env, pruned.entries, 0, key, m, evidence, BaseOutcome(s, pruned));
    ScanFinds(env, pruned.entries, 0, key, m, evidence, BaseOutcome(s, pruned));
    ReasonsRank(env, pruned.entries, call, BaseOutcome(s, pruned), Lookup(env, s, now, call).outcome);
  }

  lemma ReasonsRank(env: Setting, entries: seq<Entry>, call: Call, base: Outcome, end: Outcome)
    requires base in {Stale, Miss, HardMismatch} && end != EvidenceMismatch
    requires Priority(base) <= Priority(end)
    requires forall i :: 0 <= i < |entries| ==>
               && VerdictOn(env, entries[i], call) != Hit
               && Priority(VerdictOn(env, entries[i], call)) <= Priority(end)
    requires end == base || exists i :: 0 <= i < |entries| && VerdictOn(env, entries[i], call) == end
    ensures end ==
            if Gives(env, entries, call, GuardMismatch) then GuardMismatch
            else if Gives(env, entries, call, ModeMismatch) then ModeMismatch
            else if Gives(env, entries, call, TopicMismatch) then TopicMismatch
            else if Gives(env, entries, call, SemanticMismatch) then SemanticMismatch
            else base
  {
    hide KeyFor, MatchOf, EvidenceFor, QueriesMatch, Revalidates, VerdictOn;
    forall i | 0 <= i < |entries| ensures TellsWhy(env, entries[i], call) {
      WhyTold(env, entries[i], call);
    }
    if end != base {
      var i :| 0 <= i < |entries| && VerdictOn(env, entries[i], call) == end;
      assert TellsWhy(env, entries[i], call);
    }
  }

  function VerdictOn(env: Setting, e: Entry, call: Call): Outcome {
    Verdict(env, e, KeyFor(env, call), MatchOf(env, call), EvidenceFor(env, call))
  }

  predicate TellsWhy(env: Setting, e: Entry, call: Call) {
    var verdict := VerdictOn(env, e, call);
    var reason := QueriesMatch(env, MatchOf(env, call), e.asked);
    && reason in {Hit, GuardMismatch, ModeMismatch, TopicMismatch, SemanticMismatch}
    && (e.key != KeyFor(env, call) ==> verdict == Miss)
    && (e.key == KeyFor(env, call) && reason != Hit ==> verdict == reason)
    && (e.key == KeyFor(env, call) && reason == Hit ==> verdict in {Hit, EvidenceMismatch})
  }

  lemma WhyTold(env: Setting, e: Entry, call: Call)
    ensures TellsWhy(env, e, call)
  {
    hide KeyFor, MatchOf, EvidenceFor, Revalidates;
  }

  // ---------------------------------------------------------------------
  // What a store displaces

  /** Two stores stand for one question exactly if their keys and words agree. */
  lemma ClassesAreQuestions(env: Setting, a: Op, b: Op)
    requires Sane(env.u) && a.Save? && b.Save?
    ensures ClassOf(EntryOf(env, a.now, a.call, a.segments)) == ClassOf(EntryOf(env, b.now, b.call, b.segments)) <==>
            && KeyFor(env, a.call) == KeyFor(env, b.call)
            && QueryWords(env.u, a.call.request.question) == QueryWords(env.u, b.call.request.question)
  {
    hide Modes, Topics, QueryWords, GuardTokens, KeyFor, Projections, EvidenceFor;
    NormalizedDetermines(env.u, env.lexicon, a.call.request.question, b.call.request.question);
  }

  /** A store leaves every live entry where it is, but the one for the same question,
      or else the longest unused one if the cache is full. */
  lemma StoreKeepsOthers(env: Setting, ops: seq<Op>, save: Op, e: Entry)
    requires Sane(env.u) && save.Save? && Cacheable(env, save.call)
    requires e in After(env, ops).entries && Live(env, e, save.now)
    ensures var live := Prune(env, After(env, ops).entries, save.now);
            || e in After(env, ops + [save]).entries
            || (exists i :: 0 <= i < |ops| && MadeBy(env, e, ops[i])
                  && KeyFor(env, ops[i].call) == KeyFor(env, save.call)
                  && QueryWords(env.u, ops[i].call.request.question) == QueryWords(env.u, save.call.request.question))
            || (|live| == env.policy.capacity && live[0] == e)
  {
    hide KeyFor, MatchOf, EvidenceFor, Projections, Prune, Cacheable, Live, ClassOf, QueryWords;
    var all := ops + [save];
    assert all[..|ops|] == ops && all[|ops|] == save;
    var s := After(env, ops);
    EntriesAreGenuine(env, ops);
    var i :| 0 <= i < |ops| && MadeBy(env, e, ops[i]);
    ClassesAreQuestions(env, ops[i], save);
    PruneSelects(env, s.entries, save.now);
    var live := Prune(env, s.entries, save.now);
    var k :| 0 <= k < |live| && live[k] == e;
    var entry := EntryOf(env, save.now, save.call, save.segments);
    AdmitKeeps(env, s, entry, live, k);
  }

  lemma AdmitKeeps(env: Setting, s: State, e: Entry, live: seq<Entry>, k: nat)
    requires live == Prune(env, s.entries, e.created) && k < |live|
    ensures || live[k] in Admit(env, s, e).entries
            || ClassOf(live[k]) == ClassOf(e)
            || (|live| == env.policy.capacity && k == 0)
  {
    hide Prune, ClassOf;
    var twin := EquivalentFrom(live, 0, e);
    var end := Admit(env, s, e).entries;
    if twin.Some? && k != twin.value {
      var put := live[twin.value := e];
      assert put[k] == live[k];
      assert k < twin.value ==> end[k] == live[k];
      assert twin.value < k ==> end[k - 1] == live[k];
    } else if twin.None? && |live| == env.policy.capacity && 0 < k {
      assert end[k - 1] == live[k];
    } else if twin.None? && |live| != env.policy.capacity {
      assert end[k] == live[k];
    }
  }
}
