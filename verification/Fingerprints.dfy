/**
 What identifies a question and its context to the answer cache: query words,
 answer modes, topics, and the digests in the cache key
 (services/answer-service/internal/application/cache.go).

 SHA-256 is a parameter that is assumed free of collisions.
 */
module Fingerprints {
  import opened Prelude
  import opened Text

  datatype ContextEvidence = ContextEvidence(
    id: string, passage: string, title: string, author: string, chapter: string, section: string,
    pageStart: nat, pageEnd: nat)

  datatype Filters = Filters(tags: seq<string>, author: string, yearFrom: Option<int>, yearTo: Option<int>)

  datatype Actor = Actor(user: string, role: string, status: string)

  datatype Request = Request(question: string, filters: Filters, limit: nat, actor: Actor, minimumScore: real)

  datatype Limits = Limits(
    maximumEvidence: nat, maximumContextBytes: nat, maximumEvidenceBytes: nat, maximumSegments: nat,
    maximumAnswerBytes: nat, maximumSummaryRunes: nat, maximumCitations: nat, maximumOutputTokens: nat)

  type Hash = string -> string

  ghost predicate CollisionFree(hash: Hash) {
    forall x: string, y: string :: hash(x) == hash(y) ==> x == y
  }

  // ---------------------------------------------------------------------
  // Query words, modes and topics

  datatype Mode = Overview | Examples | Steps | Comparison | Troubleshooting | Risks

  function Cleaned(u: Unicode, s: string): string {
    if s == "" then ""
    else
      var c := u.toLower(s[0]);
      [if u.isLetter(c) || u.isNumber(c) then c else ' '] + Cleaned(u, s[1..])
  }

  function QueryWords(u: Unicode, question: string): seq<string> {
    Fields(Cleaned(u, question), u.isSpace)
  }

  function NormalizedQuery(u: Unicode, question: string): string {
    Join(QueryWords(u, question), " ")
  }

  /** The word lists. They are a parameter of what follows, which holds for all lists. */
  datatype Lexicon = Lexicon(
    examples: set<string>, steps: set<string>, comparison: set<string>, trouble: set<string>, risks: set<string>,
    otherModes: set<string>, intent: set<string>, negations: set<string>)

  const ENGLISH: Lexicon := Lexicon(
    {"example", "examples", "sample", "samples"},
    {"step", "steps", "guide", "tutorial"},
    {"compare", "comparison", "versus", "vs", "difference", "tradeoff", "tradeoffs", "pros", "cons"},
    {"troubleshoot", "troubleshooting", "debug", "diagnose", "diagnosis", "fix", "error", "issue", "problem"},
    {"risk", "risks", "danger", "security", "pitfall", "pitfalls"},
    {"code"},
    {"a", "an", "about", "and", "can", "could", "explain", "for", "give", "handling", "how", "i", "in", "is",
     "me", "of", "on", "please", "show", "tell", "the", "to", "what"},
    {"no", "not", "without", "exclude", "excluding", "except", "avoid"})

  predicate Has(words: seq<string>, any: set<string>) {
    exists w :: w in words && w in any
  }

  predicate HasPhrase(words: seq<string>, first: string, second: string) {
    exists i :: 0 <= i < |words| - 1 && words[i] == first && words[i + 1] == second
  }

  /** The source keeps the modes, topics and guards as sorted lists without
      repeats, which are equal when these sets are. */
  function Modes(x: Lexicon, words: seq<string>): set<Mode> {
    var modes := (if Has(words, x.examples) || HasPhrase(words, "sample", "code") then {Examples} else {})
               + (if Has(words, x.steps) then {Steps} else {})
               + (if Has(words, x.comparison) then {Comparison} else {})
               + (if Has(words, x.trouble) then {Troubleshooting} else {})
               + (if Has(words, x.risks) then {Risks} else {});
    if modes == {} then {Overview} else modes
  }

  function Topics(x: Lexicon, words: seq<string>): set<string> {
    set w | w in words && w !in x.intent
        && w !in x.examples + x.steps + x.comparison + x.trouble + x.risks + x.otherModes
  }

  /** Two questions with one normalized form have the same words, and so the same
      modes and topics, although neither is compared on an exact match. */
  lemma NormalizedDetermines(u: Unicode, x: Lexicon, a: string, b: string)
    requires Sane(u)
    ensures NormalizedQuery(u, a) == NormalizedQuery(u, b) <==> QueryWords(u, a) == QueryWords(u, b)
    ensures NormalizedQuery(u, a) == NormalizedQuery(u, b) ==>
              Modes(x, QueryWords(u, a)) == Modes(x, QueryWords(u, b))
                  && Topics(x, QueryWords(u, a)) == Topics(x, QueryWords(u, b))
  {
    hide Modes, Topics;
    FieldsAreWords(Cleaned(u, a), u.isSpace);
    FieldsAreWords(Cleaned(u, b), u.isSpace);
    if NormalizedQuery(u, a) == NormalizedQuery(u, b) {
      JoinCancels(QueryWords(u, a), QueryWords(u, b), u.isSpace);
    }
  }

  // ---------------------------------------------------------------------
  // Digests

  function FingerprintFields(hash: Hash, values: seq<string>): string {
    hash(Framed(values))
  }

  function ProjectionFingerprint(hash: Hash, e: ContextEvidence): string {
    FingerprintFields(hash, [e.id, e.passage, e.title, e.author, e.chapter, e.section, Decimal(e.pageStart),
        Decimal(e.pageEnd)])
  }

  function Identified(hash: Hash, evidence: seq<ContextEvidence>): seq<string> {
    if evidence == [] then [] else [evidence[0].id, ProjectionFingerprint(hash, evidence[0])] + Identified(hash,
        evidence[1..])
  }

  function EvidenceFingerprint(u: Unicode, hash: Hash, evidence: seq<ContextEvidence>): string {
    hash(Quoted(u, Identified(hash, evidence)))
  }

  function Year(year: Option<int>): string {
    if year.None? then "" else Signed(year.value)
  }

  function CanonicalFilters(u: Unicode, hash: Hash, f: Filters): string {
    hash(Decimal(|f.tags|) + Quoted(u, Sort(f.tags)) + Quoted(u, [f.author, Year(f.yearFrom), Year(f.yearTo)]))
  }

  function AuthScope(u: Unicode, hash: Hash, actor: Actor): string {
    hash(Quoted(u, [actor.user, actor.role, actor.status]))
  }

  function GeneratorCacheProfile(hash: Hash, version: string, profile: string, l: Limits): string {
    FingerprintFields(hash, [version, profile,
                             Decimal(l.maximumEvidence), Decimal(l.maximumContextBytes),
                                 Decimal(l.maximumEvidenceBytes),
                             Decimal(l.maximumSegments), Decimal(l.maximumAnswerBytes), Decimal(l.maximumSummaryRunes),
                             Decimal(l.maximumCitations), Decimal(l.maximumOutputTokens)])
  }

  lemma FieldsInjective(hash: Hash, a: seq<string>, b: seq<string>)
    requires CollisionFree(hash)
    ensures FingerprintFields(hash, a) == FingerprintFields(hash, b) <==> a == b
  {
    if FingerprintFields(hash, a) == FingerprintFields(hash, b) {
      FramedInjective(a, b);
    }
  }

  lemma ProjectionInjective(hash: Hash, a: ContextEvidence, b: ContextEvidence)
    requires CollisionFree(hash)
    ensures ProjectionFingerprint(hash, a) == ProjectionFingerprint(hash, b) <==> a == b
  {
    hide FingerprintFields, CollisionFree;
    var x := [a.id, a.passage, a.title, a.author, a.chapter, a.section, Decimal(a.pageStart), Decimal(a.pageEnd)];
    var y := [b.id, b.passage, b.title, b.author, b.chapter, b.section, Decimal(b.pageStart), Decimal(b.pageEnd)];
    FieldsInjective(hash, x, y);
    if x == y {
      assert x[0] == y[0] && x[1] == y[1] && x[2] == y[2] && x[3] == y[3] && x[4] == y[4] && x[5] == y[5]
          && x[6] == y[6] && x[7] == y[7];
      DecimalInjective(a.pageStart, b.pageStart);
      DecimalInjective(a.pageEnd, b.pageEnd);
    }
  }

  lemma {:induction false} IdentifiedInjective(hash: Hash, a: seq<ContextEvidence>, b: seq<ContextEvidence>)
    requires CollisionFree(hash) && Identified(hash, a) == Identified(hash, b)
    ensures a == b
    decreases |a|
  {
    hide ProjectionFingerprint, CollisionFree;
    if a != [] && b != [] {
      var x, y := Identified(hash, a), Identified(hash, b);
      assert x[1] == ProjectionFingerprint(hash, a[0]) && y[1] == ProjectionFingerprint(hash, b[0]);
      ProjectionInjective(hash, a[0], b[0]);
      assert x[2..] == Identified(hash, a[1..]) && y[2..] == Identified(hash, b[1..]);
      IdentifiedInjective(hash, a[1..], b[1..]);
      assert a == [a[0]] + a[1..] && b == [b[0]] + b[1..];
    }
  }

  /** The context digest is that of the whole evidence, in order. */
  lemma EvidenceInjective(u: Unicode, hash: Hash, a: seq<ContextEvidence>, b: seq<ContextEvidence>)
    requires CollisionFree(hash)
    ensures EvidenceFingerprint(u, hash, a) == EvidenceFingerprint(u, hash, b) <==> a == b
  {
    hide Quoted, Identified;
    if EvidenceFingerprint(u, hash, a) == EvidenceFingerprint(u, hash, b) {
      QuotedInjective(u, Identified(hash, a), Identified(hash, b));
      IdentifiedInjective(hash, a, b);
    }
  }

  lemma {:induction false} QuotedJoins(u: Unicode, a: seq<string>, b: seq<string>)
    ensures Quoted(u, a) + Quoted(u, b) == Quoted(u, a + b)
    decreases |a|
  {
    hide Quote;
    if a == [] {
      assert a + b == b;
    } else {
      assert (a + b)[0] == a[0] && (a + b)[1..] == a[1..] + b;
      QuotedJoins(u, a[1..], b);
      Regroup(Quote(u, a[0]), Quoted(u, a[1..]), Quoted(u, b));
    }
  }

  lemma QuotedOpens(u: Unicode, a: seq<string>)
    requires a != []
    ensures Quoted(u, a) != "" && Quoted(u, a)[0] == '"'
  {
    hide Body;
  }

  lemma YearInjective(a: Option<int>, b: Option<int>)
    requires Year(a) == Year(b)
    ensures a == b
  {
    if a.Some? {
      SignedIsNotEmpty(a.value);
    }
    if b.Some? {
      SignedIsNotEmpty(b.value);
    }
    if a.Some? && b.Some? {
      SignedInjective(a.value, b.value);
    }
  }

  function FilterFields(f: Filters): seq<string> {
    [f.author, Year(f.yearFrom), Year(f.yearTo)]
  }

  lemma FilterPreimage(u: Unicode, f: Filters)
    ensures Decimal(|f.tags|) + Quoted(u, Sort(f.tags)) + Quoted(u, FilterFields(f))
         == Decimal(|f.tags|) + Quoted(u, Sort(f.tags) + FilterFields(f))
    ensures Quoted(u, Sort(f.tags) + FilterFields(f))[0..1] == "\""
  {
    hide Decimal, Sort;
    QuotedJoins(u, Sort(f.tags), FilterFields(f));
    QuotedOpens(u, Sort(f.tags) + FilterFields(f));
    Regroup(Decimal(|f.tags|), Quoted(u, Sort(f.tags)), Quoted(u, FilterFields(f)));
  }

  predicate SameFilters(a: Filters, b: Filters) {
    multiset(a.tags) == multiset(b.tags) && a.author == b.author && a.yearFrom == b.yearFrom && a.yearTo == b.yearTo
  }

  lemma SortKeepsSize(s: seq<string>)
    ensures |Sort(s)| == |s|
  {
    SortSorts(s);
    assert |multiset(s)| == |s| && |multiset(Sort(s))| == |Sort(s)|;
  }

  /** The filter digest forgets the order of the tags and nothing else. */
  lemma FiltersInjective(u: Unicode, hash: Hash, a: Filters, b: Filters)
    requires CollisionFree(hash)
    ensures CanonicalFilters(u, hash, a) == CanonicalFilters(u, hash, b) <==> SameFilters(a, b)
  {
    hide Decimal, Quoted, Sort;
    assert |multiset(a.tags)| == |a.tags| && |multiset(b.tags)| == |b.tags|;
    SortEqual(a.tags, b.tags);
    FilterPreimage(u, a);
    FilterPreimage(u, b);
    if CanonicalFilters(u, hash, a) == CanonicalFilters(u, hash, b) {
      var x, y := Sort(a.tags) + FilterFields(a), Sort(b.tags) + FilterFields(b);
      DecimalCancels(|a.tags|, |b.tags|, Quoted(u, x), Quoted(u, y));
      QuotedInjective(u, x, y);
      SortKeepsSize(a.tags);
      SortKeepsSize(b.tags);
      var n := |a.tags|;
      assert x[..n] == Sort(a.tags) && y[..n] == Sort(b.tags);
      assert x[n..] == FilterFields(a) && y[n..] == FilterFields(b);
      assert x[n..][0] == y[n..][0] && x[n..][1] == y[n..][1] && x[n..][2] == y[n..][2];
      YearInjective(a.yearFrom, b.yearFrom);
      YearInjective(a.yearTo, b.yearTo);
    }
  }

  lemma ScopeInjective(u: Unicode, hash: Hash, a: Actor, b: Actor)
    requires CollisionFree(hash)
    ensures AuthScope(u, hash, a) == AuthScope(u, hash, b) <==> a == b
  {
    hide Quoted;
    if AuthScope(u, hash, a) == AuthScope(u, hash, b) {
      var x, y := [a.user, a.role, a.status], [b.user, b.role, b.status];
      QuotedInjective(u, x, y);
      assert x[0] == y[0] && x[1] == y[1] && x[2] == y[2];
    }
  }

  lemma ProfileInjective(hash: Hash, v: string, p: string, a: Limits, w: string, q: string, b: Limits)
    requires CollisionFree(hash)
    ensures GeneratorCacheProfile(hash, v, p, a) == GeneratorCacheProfile(hash, w, q, b) <==> v == w && p == q && a == b
  {
    hide FingerprintFields, CollisionFree, Decimal;
    var x := [v, p, Decimal(a.maximumEvidence), Decimal(a.maximumContextBytes), Decimal(a.maximumEvidenceBytes),
              Decimal(a.maximumSegments), Decimal(a.maximumAnswerBytes), Decimal(a.maximumSummaryRunes),
              Decimal(a.maximumCitations), Decimal(a.maximumOutputTokens)];
    var y := [w, q, Decimal(b.maximumEvidence), Decimal(b.maximumContextBytes), Decimal(b.maximumEvidenceBytes),
              Decimal(b.maximumSegments), Decimal(b.maximumAnswerBytes), Decimal(b.maximumSummaryRunes),
              Decimal(b.maximumCitations), Decimal(b.maximumOutputTokens)];
    FieldsInjective(hash, x, y);
    if x == y {
      assert x[0] == y[0] && x[1] == y[1] && x[2] == y[2] && x[3] == y[3] && x[4] == y[4]
          && x[5] == y[5] && x[6] == y[6] && x[7] == y[7] && x[8] == y[8] && x[9] == y[9];
      DecimalInjective(a.maximumEvidence, b.maximumEvidence);
      DecimalInjective(a.maximumContextBytes, b.maximumContextBytes);
      DecimalInjective(a.maximumEvidenceBytes, b.maximumEvidenceBytes);
      DecimalInjective(a.maximumSegments, b.maximumSegments);
      DecimalInjective(a.maximumAnswerBytes, b.maximumAnswerBytes);
      DecimalInjective(a.maximumSummaryRunes, b.maximumSummaryRunes);
      DecimalInjective(a.maximumCitations, b.maximumCitations);
      DecimalInjective(a.maximumOutputTokens, b.maximumOutputTokens);
    }
  }

  // ---------------------------------------------------------------------
  // The key

  datatype Digests = Digests(
    scope: Actor -> string, filters: Filters -> string, projection: ContextEvidence -> string,
        evidence: seq<ContextEvidence> -> string)

  /** The digests as the source takes them. */
  function Sha256Digests(u: Unicode, hash: Hash): Digests {
    Digests(actor => AuthScope(u, hash, actor),
            filters => CanonicalFilters(u, hash, filters),
            e => ProjectionFingerprint(hash, e),
            evidence => EvidenceFingerprint(u, hash, evidence))
  }

  /** All that the cache needs of its digests. */
  ghost predicate Separating(d: Digests) {
    && (forall a, b :: d.scope(a) == d.scope(b) <==> a == b)
    && (forall a, b :: d.filters(a) == d.filters(b) <==> SameFilters(a, b))
    && (forall a, b :: d.projection(a) == d.projection(b) <==> a == b)
    && (forall a, b :: d.evidence(a) == d.evidence(b) <==> a == b)
  }

  /** Length-prefixed fields and quoted values make them so. */
  lemma DigestsSeparate(u: Unicode, hash: Hash)
    requires CollisionFree(hash)
    ensures Separating(Sha256Digests(u, hash))
  {
    hide AuthScope, CanonicalFilters, ProjectionFingerprint, EvidenceFingerprint, SameFilters, CollisionFree;
    forall a, b ensures AuthScope(u, hash, a) == AuthScope(u, hash, b) <==> a == b {
      ScopeInjective(u, hash, a, b);
    }
    forall a, b ensures CanonicalFilters(u, hash, a) == CanonicalFilters(u, hash, b) <==> SameFilters(a, b) {
      FiltersInjective(u, hash, a, b);
    }
    forall a, b ensures ProjectionFingerprint(hash, a) == ProjectionFingerprint(hash, b) <==> a == b {
      ProjectionInjective(hash, a, b);
    }
    forall a, b ensures EvidenceFingerprint(u, hash, a) == EvidenceFingerprint(u, hash, b) <==> a == b {
      EvidenceInjective(u, hash, a, b);
    }
  }

  datatype CacheKey = CacheKey(
    authScope: string, filters: string, limit: nat, minimumScore: real,
    retrievalProfile: string, generatorProfile: string, context: string)

  function KeyOf(d: Digests, profile: string, r: Request, retrievalProfile: string,
      evidence: seq<ContextEvidence>): CacheKey {
    CacheKey(d.scope(r.actor), d.filters(r.filters), r.limit, r.minimumScore, retrievalProfile, profile,
        d.evidence(evidence))
  }

  /** Equal keys: the same actor, filters up to tag order, limit, score bound,
      retrieval profile and, above all, the same evidence in the same order. */
  lemma KeyInjective(u: Unicode, hash: Hash, profile: string, r: Request, s: Request, p: string, q: string,
                     a: seq<ContextEvidence>, b: seq<ContextEvidence>)
    requires CollisionFree(hash)
    ensures KeyOf(Sha256Digests(u, hash), profile, r, p, a) == KeyOf(Sha256Digests(u, hash), profile, s, q, b) <==>
            r.actor == s.actor && SameFilters(r.filters, s.filters) && r.limit == s.limit
                && r.minimumScore == s.minimumScore
            && p == q && a == b
  {
    DigestsSeparate(u, hash);
    hide Sha256Digests, CollisionFree;
    KeyAgrees(Sha256Digests(u, hash), profile, r, s, p, q, a, b);
  }

  lemma KeyAgrees(d: Digests, profile: string, r: Request, s: Request, p: string, q: string,
                  a: seq<ContextEvidence>, b: seq<ContextEvidence>)
    requires Separating(d)
    ensures KeyOf(d, profile, r, p, a) == KeyOf(d, profile, s, q, b) <==>
            r.actor == s.actor && SameFilters(r.filters, s.filters) && r.limit == s.limit
                && r.minimumScore == s.minimumScore
            && p == q && a == b
  {
    hide SameFilters;
    assert d.scope(r.actor) == d.scope(s.actor) <==> r.actor == s.actor;
    assert d.filters(r.filters) == d.filters(s.filters) <==> SameFilters(r.filters, s.filters);
    assert d.evidence(a) == d.evidence(b) <==> a == b;
  }
}
