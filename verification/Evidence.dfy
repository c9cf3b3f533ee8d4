/**
 Choosing the evidence that an answer is generated from
 (services/answer-service/internal/application/evidence.go).
 */
module Evidence {
  import opened Prelude
  import opened Text
  import opened Fingerprints

  datatype Found = Found(context: ContextEvidence, book: string, score: real)

  datatype Search = Search(
    results: seq<Found>, documents: seq<seq<Found>>,
    embeddingProfile: string, retrievalProfile: string, embedding: seq<real>)

  datatype Candidate = Candidate(context: ContextEvidence, group: string)

  function Group(u: Unicode, e: Found): string {
    var book := Trim(e.book, u.isSpace);
    Join([if book == "" then Trim(e.context.title, u.isSpace) else book,
          Trim(e.context.chapter, u.isSpace), Trim(e.context.section, u.isSpace)], "\0")
  }

  function Candidates(u: Unicode, found: seq<Found>): seq<Candidate> {
    seq(|found|, i requires 0 <= i < |found| => Candidate(found[i].context, Group(u, found[i])))
  }

  function Flat(documents: seq<seq<Found>>): seq<Found> {
    if documents == [] then [] else documents[0] + Flat(documents[1..])
  }

  function AllFound(search: Search): seq<Found> {
    search.results + Flat(search.documents)
  }

  // ---------------------------------------------------------------------
  // The score bound

  function Scored(found: seq<Found>, minimum: real): seq<Found> {
    if found == [] then [] else (if found[0].score >= minimum then [found[0]] else []) + Scored(found[1..], minimum)
  }

  function ScoredDocuments(documents: seq<seq<Found>>, minimum: real): seq<seq<Found>> {
    if documents == [] then []
    else
      var kept := Scored(documents[0], minimum);
      (if kept == [] then [] else [kept]) + ScoredDocuments(documents[1..], minimum)
  }

  function FilterByScore(search: Search, minimum: real): Search {
    if minimum <= 0.0 then search
    else search.(results := Scored(search.results, minimum), documents := ScoredDocuments(search.documents, minimum))
  }

  lemma {:induction false} ScoredJoins(a: seq<Found>, b: seq<Found>, minimum: real)
    ensures Scored(a + b, minimum) == Scored(a, minimum) + Scored(b, minimum)
    decreases |a|
  {
    if a == [] {
      assert a + b == b;
    } else {
      assert (a + b)[0] == a[0] && (a + b)[1..] == a[1..] + b;
      ScoredJoins(a[1..], b, minimum);
      var head := if a[0].score >= minimum then [a[0]] else [];
      assert head + (Scored(a[1..], minimum) + Scored(b, minimum)) ==
          head + Scored(a[1..], minimum) + Scored(b, minimum);
    }
  }

  lemma {:induction false} ScoredFlat(documents: seq<seq<Found>>, minimum: real)
    ensures Flat(ScoredDocuments(documents, minimum)) == Scored(Flat(documents), minimum)
  {
    if documents != [] {
      ScoredFlat(documents[1..], minimum);
      ScoredJoins(documents[0], Flat(documents[1..]), minimum);
      var kept := Scored(documents[0], minimum);
      var rest := ScoredDocuments(documents[1..], minimum);
      assert kept != [] ==> ([kept] + rest)[1..] == rest;
      assert kept == [] ==> [] + rest == rest;
    }
  }

  /** Filtering result by result and document by document, and dropping documents
      left empty, is filtering the candidates in their order. */
  lemma FilterKeepsOrder(search: Search, minimum: real)
    requires 0.0 < minimum
    ensures AllFound(FilterByScore(search, minimum)) == Scored(AllFound(search), minimum)
  {
    ScoredFlat(search.documents, minimum);
    ScoredJoins(search.results, Flat(search.documents), minimum);
  }

  // ---------------------------------------------------------------------
  // The selection

  function Normalized(u: Unicode, passage: string): string {
    Join(Fields(passage, u.isSpace), " ")
  }

  function ContextBytes(e: ContextEvidence): nat {
    Size(e.id) + Size(e.passage) + Size(e.title) + Size(e.author) + Size(e.chapter) + Size(e.section)
  }

  function Bytes(picks: seq<Candidate>): nat {
    if picks == [] then 0 else Bytes(picks[..|picks| - 1]) + ContextBytes(picks[|picks| - 1].context)
  }

  predicate Fits(u: Unicode, e: ContextEvidence, limits: Limits) {
    e.id != "" && 0 < Size(e.passage) <= limits.maximumEvidenceBytes && Normalized(u, e.passage) != ""
  }

  predicate SamePassage(u: Unicode, a: ContextEvidence, b: ContextEvidence) {
    Normalized(u, a.passage) == Normalized(u, b.passage)
  }

  predicate Represented(picks: seq<Candidate>, group: string) {
    exists i :: 0 <= i < |picks| && picks[i].group == group
  }

  /** Nothing but perhaps its group speaks against the candidate. */
  predicate Admissible(u: Unicode, picks: seq<Candidate>, c: Candidate, limits: Limits) {
    && Fits(u, c.context, limits)
    && |picks| < limits.maximumEvidence
    && Bytes(picks) + ContextBytes(c.context) <= limits.maximumContextBytes
    && (forall i :: 0 <= i < |picks| ==> picks[i].context.id != c.context.id)
    && (forall i :: 0 <= i < |picks| ==> !SamePassage(u, picks[i].context, c.context))
  }

  function Add(u: Unicode, picks: seq<Candidate>, c: Candidate, newGroup: bool, limits: Limits): seq<Candidate> {
    if Admissible(u, picks, c, limits) && !(newGroup && c.group != "" && Represented(picks, c.group))
        then picks + [c] else picks
  }

  function Pass(u: Unicode, picks: seq<Candidate>, cs: seq<Candidate>, newGroup: bool, limits: Limits): seq<Candidate>
    decreases |cs|
  {
    if cs == [] then picks else Pass(u, Add(u, picks, cs[0], newGroup, limits), cs[1..], newGroup, limits)
  }

  function FirstPass(u: Unicode, cs: seq<Candidate>, limits: Limits): seq<Candidate> {
    Pass(u, [], cs, true, limits)
  }

  function Selection(u: Unicode, cs: seq<Candidate>, limits: Limits): seq<Candidate> {
    Pass(u, FirstPass(u, cs, limits), cs, false, limits)
  }

  /** The budgets and the two kinds of uniqueness. */
  predicate WithinLimits(u: Unicode, picks: seq<Candidate>, limits: Limits) {
    && |picks| <= limits.maximumEvidence
    && Bytes(picks) <= limits.maximumContextBytes
    && (forall i :: 0 <= i < |picks| ==> Fits(u, picks[i].context, limits))
    && (forall i, j :: 0 <= i < j < |picks| ==> picks[i].context.id != picks[j].context.id)
    && (forall i, j :: 0 <= i < j < |picks| ==> !SamePassage(u, picks[i].context, picks[j].context))
  }

  predicate GroupsDiffer(picks: seq<Candidate>) {
    forall i, j :: 0 <= i < j < |picks| && picks[i].group != "" ==> picks[i].group != picks[j].group
  }

  lemma BytesOfOneMore(picks: seq<Candidate>, c: Candidate)
    ensures Bytes(picks + [c]) == Bytes(picks) + ContextBytes(c.context)
  {
    assert (picks + [c])[..|picks|] == picks;
  }

  lemma {:induction false} BytesGrow(picks: seq<Candidate>, n: nat)
    requires n <= |picks|
    ensures Bytes(picks[..n]) <= Bytes(picks)
    decreases |picks|
  {
    if n < |picks| {
      BytesGrow(picks[..|picks| - 1], n);
      assert picks[..|picks| - 1][..n] == picks[..n];
    } else {
      assert picks[..n] == picks;
    }
  }

  lemma AddKeeps(u: Unicode, picks: seq<Candidate>, c: Candidate, newGroup: bool, limits: Limits)
    requires WithinLimits(u, picks, limits)
    ensures WithinLimits(u, Add(u, picks, c, newGroup, limits), limits)
    ensures newGroup && GroupsDiffer(picks) ==> GroupsDiffer(Add(u, picks, c, newGroup, limits))
  {
    hide Fits, Bytes, ContextBytes, SamePassage;
    BytesOfOneMore(picks, c);
    assert newGroup && c.group != "" && !Represented(picks, c.group)
        ==> forall i :: 0 <= i < |picks| ==> picks[i].group != c.group;
  }

  /** What a longer selection admits, a shorter one admitted. */
  lemma AdmissibleEarlier(u: Unicode, picks: seq<Candidate>, n: nat, c: Candidate, limits: Limits)
    requires n <= |picks| && Admissible(u, picks, c, limits)
    ensures Admissible(u, picks[..n], c, limits)
  {
    hide Fits, SamePassage, ContextBytes;
    BytesGrow(picks, n);
  }

  /** A pass only appends, from its candidates. */
  lemma {:induction false} PassAppends(u: Unicode, picks: seq<Candidate>, cs: seq<Candidate>, newGroup: bool,
      limits: Limits)
    ensures var end := Pass(u, picks, cs, newGroup, limits);
            |picks| <= |end| && end[..|picks|] == picks && forall i :: |picks| <= i < |end| ==> end[i] in cs
    decreases |cs|
  {
    hide Admissible, Represented;
    if cs != [] {
      var next := Add(u, picks, cs[0], newGroup, limits);
      PassAppends(u, next, cs[1..], newGroup, limits);
      var end := Pass(u, next, cs[1..], newGroup, limits);
      assert end[..|picks|] == end[..|next|][..|picks|] == picks;
      forall i | |picks| <= i < |end| ensures end[i] in cs {
        if i < |next| {
          assert end[i] == end[..|next|][i] == cs[0];
        } else {
          assert end[i] in cs[1..];
        }
      }
    }
  }

  lemma {:induction false} PassKeeps(u: Unicode, picks: seq<Candidate>, cs: seq<Candidate>, newGroup: bool,
      limits: Limits)
    requires WithinLimits(u, picks, limits) && (newGroup ==> GroupsDiffer(picks))
    ensures WithinLimits(u, Pass(u, picks, cs, newGroup, limits), limits)
    ensures newGroup ==> GroupsDiffer(Pass(u, picks, cs, newGroup, limits))
    decreases |cs|
  {
    hide WithinLimits, GroupsDiffer, Add;
    if cs != [] {
      AddKeeps(u, picks, cs[0], newGroup, limits);
      PassKeeps(u, Add(u, picks, cs[0], newGroup, limits), cs[1..], newGroup, limits);
    }
  }

  lemma RepresentedLater(picks: seq<Candidate>, n: nat, group: string)
    requires n <= |picks| && Represented(picks[..n], group)
    ensures Represented(picks, group)
  {
    var i :| 0 <= i < n && picks[..n][i].group == group;
    assert picks[i].group == group;
  }

  /** A candidate that has been offered is not admissible any more, unless a first
      pass held its group against it. */
  lemma OfferedOnce(u: Unicode, picks: seq<Candidate>, c: Candidate, newGroup: bool, limits: Limits)
    ensures var next := Add(u, picks, c, newGroup, limits);
            Admissible(u, next, c, limits) ==> newGroup && Represented(next, c.group)
  {
    hide Fits, Bytes, ContextBytes, SamePassage;
    var next := Add(u, picks, c, newGroup, limits);
    if next != picks {
      assert next[|picks|] == c;
    }
  }

  lemma {:induction false} PassExhausts(u: Unicode, picks: seq<Candidate>, cs: seq<Candidate>, newGroup: bool,
      limits: Limits, c: Candidate)
    requires c in cs
    ensures var end := Pass(u, picks, cs, newGroup, limits);
            Admissible(u, end, c, limits) ==> newGroup && Represented(end, c.group)
    decreases |cs|
  {
    hide Admissible, Represented, Add;
    var next := Add(u, picks, cs[0], newGroup, limits);
    var end := Pass(u, next, cs[1..], newGroup, limits);
    if c == cs[0] {
      OfferedOnce(u, picks, c, newGroup, limits);
      PassAppends(u, next, cs[1..], newGroup, limits);
      if Admissible(u, end, c, limits) {
        AdmissibleEarlier(u, end, |next|, c, limits);
        RepresentedLater(end, |next|, c.group);
      }
    } else {
      PassExhausts(u, next, cs[1..], newGroup, limits, c);
    }
  }

  predicate Joins(first: seq<Candidate>, picks: seq<Candidate>) {
    forall i :: |first| <= i < |picks| ==> Represented(first, picks[i].group)
  }

  /** A pick of the second pass joins a group that the selection has already. */
  lemma {:induction false} SecondPassJoins(u: Unicode, first: seq<Candidate>, picks: seq<Candidate>, cs: seq<Candidate>,
      limits: Limits)
    requires |first| <= |picks| && picks[..|first|] == first
    requires forall c :: c in cs ==> (Admissible(u, first, c, limits) ==> Represented(first, c.group))
    requires Joins(first, picks)
    ensures Joins(first, Pass(u, picks, cs, false, limits))
    decreases |cs|
  {
    hide Admissible, Represented;
    if cs != [] {
      assert cs[0] in cs;
      if Admissible(u, picks, cs[0], limits) {
        AdmissibleEarlier(u, picks, |first|, cs[0], limits);
      }
      var next := Add(u, picks, cs[0], false, limits);
      SecondPassJoins(u, first, next, cs[1..], limits);
      assert Pass(u, picks, cs, false, limits) == Pass(u, next, cs[1..], false, limits);
    } else {
      assert Pass(u, picks, cs, false, limits) == picks;
    }
  }

  /** The selection keeps its budgets, repeats no identifier and no passage, takes
      one candidate from each group before a second from any, and is maximal. */
  lemma SelectionIsSound(u: Unicode, cs: seq<Candidate>, limits: Limits)
    ensures var first := FirstPass(u, cs, limits);
            var all := Selection(u, cs, limits);
            && WithinLimits(u, all, limits)
            && (forall i :: 0 <= i < |all| ==> all[i] in cs)
            && |first| <= |all| && all[..|first|] == first
            && GroupsDiffer(first)
            && Joins(first, all)
            && (|all| == limits.maximumEvidence || forall c :: c in cs ==> !Admissible(u, all, c, limits))
  {
    hide Admissible, Represented, Pass;
    assert WithinLimits(u, [], limits);
    var first := FirstPass(u, cs, limits);
    var all := Selection(u, cs, limits);
    hide WithinLimits, GroupsDiffer;
    assert GroupsDiffer([]) by { EmptyDiffers(); }
    PassKeeps(u, [], cs, true, limits);
    PassKeeps(u, first, cs, false, limits);
    PassAppends(u, [], cs, true, limits);
    PassAppends(u, first, cs, false, limits);
    forall c | c in cs ensures Admissible(u, first, c, limits) ==> Represented(first, c.group) {
      PassExhausts(u, [], cs, true, limits, c);
    }
    SecondPassJoins(u, first, first, cs, limits);
    forall c | c in cs ensures !Admissible(u, all, c, limits) {
      PassExhausts(u, first, cs, false, limits, c);
    }
    forall i | 0 <= i < |all| ensures all[i] in cs {
      assert i < |first| ==> all[i] == all[..|first|][i] == first[i];
    }
  }

  lemma EmptyDiffers()
    ensures GroupsDiffer([])
  {
  }

  // ---------------------------------------------------------------------
  // The algorithm

  function Contexts(picks: seq<Candidate>): seq<ContextEvidence> {
    seq(|picks|, i requires 0 <= i < |picks| => picks[i].context)
  }

  function Selected(u: Unicode, search: Search, limits: Limits): seq<ContextEvidence> {
    Contexts(Selection(u, Candidates(u, AllFound(search)), limits))
  }

  /** The sets and the total that the loop keeps tell about the picks what the
      specification asks of them. */
  ghost predicate Tracks(u: Unicode, picks: seq<Candidate>, seen: set<string>, seenPassages: set<string>,
      seenGroups: set<string>, total: nat) {
    && (forall id :: id in seen <==> exists i :: 0 <= i < |picks| && picks[i].context.id == id)
    && (forall p :: p in seenPassages <==> exists i :: 0 <= i < |picks| && Normalized(u, picks[i].context.passage) == p)
    && (forall g :: g in seenGroups <==> g != "" && exists i :: 0 <= i < |picks| && picks[i].group == g)
    && total == Bytes(picks)
  }

  lemma ContextsOfOneMore(picks: seq<Candidate>, c: Candidate)
    ensures Contexts(picks + [c]) == Contexts(picks) + [c.context] && |Contexts(picks)| == |picks|
  {
  }

  function WithGroup(groups: set<string>, group: string): set<string> {
    if group == "" then groups else groups + {group}
  }

  lemma TracksOneMore(u: Unicode, picks: seq<Candidate>, seen: set<string>, seenPassages: set<string>,
      seenGroups: set<string>, total: nat, c: Candidate)
    requires Tracks(u, picks, seen, seenPassages, seenGroups, total)
    ensures Tracks(u, picks + [c], seen + {c.context.id}, seenPassages + {Normalized(u, c.context.passage)},
                   WithGroup(seenGroups, c.group), total + ContextBytes(c.context))
  {
    hide Normalized, Bytes, ContextBytes;
    BytesOfOneMore(picks, c);
    var more := picks + [c];
    assert more[|picks|] == c && forall i :: 0 <= i < |picks| ==> more[i] == picks[i];
  }

  lemma TracksDecides(u: Unicode, picks: seq<Candidate>, seen: set<string>, seenPassages: set<string>,
      seenGroups: set<string>, total: nat,
                      c: Candidate, newGroup: bool, limits: Limits)
    requires Tracks(u, picks, seen, seenPassages, seenGroups, total)
    ensures Add(u, picks, c, newGroup, limits) ==
            if Fits(u, c.context, limits) && |picks| < limits.maximumEvidence
                && !(c.group != "" && c.group in seenGroups && newGroup)
               && c.context.id !in seen && total + ContextBytes(c.context) <= limits.maximumContextBytes
               && Normalized(u, c.context.passage) !in seenPassages
            then picks + [c] else picks
  {
    hide Normalized, Bytes, ContextBytes, Fits;
  }

  /** The variables that selectEvidence's closure shares. */
  class Selector {
    const u: Unicode
    const limits: Limits
    var selected: seq<ContextEvidence>
    var seen: set<string>
    var seenPassages: set<string>
    var seenGroups: set<string>
    var total: nat
    ghost var picks: seq<Candidate>

    ghost predicate Valid()
      reads this
    {
      && selected == Contexts(picks)
      && Tracks(u, picks, seen, seenPassages, seenGroups, total)
      && |picks| <= limits.maximumEvidence
    }

    constructor (u: Unicode, limits: Limits)
      ensures Valid() && picks == [] && this.u == u && this.limits == limits
    {
      this.u, this.limits := u, limits;
      selected, seen, seenPassages, seenGroups, total, picks := [], {}, {}, {}, 0, [];
    }

    method Offer(c: Candidate, newGroup: bool) returns (added: bool)
      requires Valid()
      modifies this
      ensures Valid()
      ensures picks == Add(u, old(picks), c, newGroup, limits) && added == (picks != old(picks))
    {
      hide Size, ContextBytes;
      TracksDecides(u, picks, seen, seenPassages, seenGroups, total, c, newGroup, limits);
      var normalized := Normalized(u, c.context.passage);
      if |selected| >= limits.maximumEvidence || c.context.id == "" || Size(c.context.passage) == 0
         || Size(c.context.passage) > limits.maximumEvidenceBytes {
        return false;
      }
      if normalized == "" {
        return false;
      }
      if c.group != "" && c.group in seenGroups && newGroup {
        return false;
      }
      if c.context.id in seen || total + ContextBytes(c.context) > limits.maximumContextBytes {
        return false;
      }
      if normalized in seenPassages {
        return false;
      }
      Take(c, normalized);
      return true;
    }

    method Take(c: Candidate, normalized: string)
      requires Valid() && |picks| < limits.maximumEvidence && normalized == Normalized(u, c.context.passage)
      modifies this
      ensures Valid() && picks == old(picks) + [c]
    {
      hide Tracks, ContextBytes, Contexts;
      TracksOneMore(u, picks, seen, seenPassages, seenGroups, total, c);
      ContextsOfOneMore(picks, c);
      seen := seen + {c.context.id};
      seenPassages := seenPassages + {normalized};
      if c.group != "" {
        seenGroups := seenGroups + {c.group};
      }
      total := total + ContextBytes(c.context);
      selected := selected + [c.context];
      picks := picks + [c];
    }
  }

  lemma {:induction false} FullStays(u: Unicode, picks: seq<Candidate>, cs: seq<Candidate>, newGroup: bool,
      limits: Limits)
    requires |picks| >= limits.maximumEvidence
    ensures Pass(u, picks, cs, newGroup, limits) == picks
    decreases |cs|
  {
    if cs != [] {
      FullStays(u, picks, cs[1..], newGroup, limits);
    }
  }

  method RunPass(selector: Selector, candidates: seq<Candidate>, newGroup: bool)
    requires selector.Valid()
    modifies selector
    ensures selector.Valid()
    ensures selector.picks == Pass(selector.u, old(selector.picks), candidates, newGroup, selector.limits)
  {
    hide Pass, Add;
    ghost var u, limits := selector.u, selector.limits;
    var i := 0;
    while i < |candidates|
      invariant 0 <= i <= |candidates| && selector.Valid()
      invariant Pass(u, selector.picks, candidates[i..], newGroup, limits) ==
          Pass(u, old(selector.picks), candidates, newGroup, limits)
    {
      if |selector.selected| >= selector.limits.maximumEvidence {
        FullStays(u, selector.picks, candidates[i..], newGroup, limits);
        return;
      }
      PassOpens(u, selector.picks, candidates[i..], newGroup, limits);
      assert candidates[i..][0] == candidates[i] && candidates[i..][1..] == candidates[i + 1..];
      var _ := selector.Offer(candidates[i], newGroup);
      i := i + 1;
    }
    assert candidates[|candidates|..] == [];
    PassOpens(u, selector.picks, [], newGroup, limits);
  }

  lemma PassOpens(u: Unicode, picks: seq<Candidate>, cs: seq<Candidate>, newGroup: bool, limits: Limits)
    ensures cs == [] ==> Pass(u, picks, cs, newGroup, limits) == picks
    ensures cs != [] ==> Pass(u, picks, cs, newGroup, limits) == Pass(u, Add(u, picks, cs[0], newGroup, limits),
        cs[1..], newGroup, limits)
  {
  }

  method ListCandidates(u: Unicode, search: Search) returns (candidates: seq<Candidate>)
    ensures candidates == Candidates(u, AllFound(search))
  {
    candidates := [];
    for i := 0 to |search.results|
      invariant candidates == Candidates(u, search.results[..i])
    {
      candidates := candidates + [Candidate(search.results[i].context, Group(u, search.results[i]))];
    }
    ghost var before := search.results;
    assert search.results[..|search.results|] == search.results;
    for d := 0 to |search.documents|
      invariant candidates == Candidates(u, before)
      invariant before + Flat(search.documents[d..]) == AllFound(search)
    {
      var document := search.documents[d];
      assert search.documents[d..][1..] == search.documents[d + 1..];
      for i := 0 to |document|
        invariant candidates == Candidates(u, before + document[..i])
      {
        candidates := candidates + [Candidate(document[i].context, Group(u, document[i]))];
        assert before + document[..i + 1] == before + document[..i] + [document[i]];
      }
      assert document[..|document|] == document;
      before := before + document;
    }
    assert before + [] == before;
  }

  method SelectEvidence(u: Unicode, search: Search, limits: Limits) returns (selected: seq<ContextEvidence>)
    ensures selected == Selected(u, search, limits)
  {
    var candidates := ListCandidates(u, search);
    var selector := new Selector(u, limits);
    RunPass(selector, candidates, true);
    if |selector.selected| >= limits.maximumEvidence {
      FullStays(u, selector.picks, candidates, false, limits);
      return selector.selected;
    }
    RunPass(selector, candidates, false);
    return selector.selected;
  }

  method FilterSearch(search: Search, minimum: real) returns (filtered: Search)
    ensures filtered == FilterByScore(search, minimum)
  {
    if minimum <= 0.0 {
      return search;
    }
    var results := FilterFound(search.results, minimum);
    var documents := [];
    for d := 0 to |search.documents|
      invariant documents + ScoredDocuments(search.documents[d..], minimum) ==
          ScoredDocuments(search.documents, minimum)
    {
      var evidence := FilterFound(search.documents[d], minimum);
      assert search.documents[d..][1..] == search.documents[d + 1..];
      if |evidence| == 0 {
        continue;
      }
      documents := documents + [evidence];
    }
    return search.(results := results, documents := documents);
  }

  method FilterFound(found: seq<Found>, minimum: real) returns (kept: seq<Found>)
    ensures kept == Scored(found, minimum)
  {
    kept := [];
    for i := 0 to |found|
      invariant kept + Scored(found[i..], minimum) == Scored(found, minimum)
    {
      assert found[i..][1..] == found[i + 1..];
      if found[i].score >= minimum {
        kept := kept + [found[i]];
      }
    }
  }
}
