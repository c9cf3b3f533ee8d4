/**
 What the selection of evidence comes to for the evidence that was found: which
 pieces are taken, in which order, and from which sections of which books
 (services/answer-service/internal/application/evidence.go).
 */
module Diversity {
  import opened Prelude
  import opened Text
  import opened Fingerprints
  import opened Evidence

  // ---------------------------------------------------------------------
  // One section of one book

  /** A book without an identifier goes by its title. */
  function BookOf(u: Unicode, e: Found): string {
    if All(e.book, u.isSpace) then Trim(e.context.title, u.isSpace) else Trim(e.book, u.isSpace)
  }

  predicate SamePlace(u: Unicode, a: Found, b: Found) {
    && BookOf(u, a) == BookOf(u, b)
    && Trim(a.context.chapter, u.isSpace) == Trim(b.context.chapter, u.isSpace)
    && Trim(a.context.section, u.isSpace) == Trim(b.context.section, u.isSpace)
  }

  predicate NulFree(s: string) {
    '\0' !in s
  }

  predicate Placed(u: Unicode, e: Found) {
    NulFree(BookOf(u, e)) && NulFree(Trim(e.context.chapter, u.isSpace)) && NulFree(Trim(e.context.section, u.isSpace))
  }

  function NotNul(): char -> bool {
    c => c != '\0'
  }

  lemma JoinedThree(a: string, b: string, c: string)
    ensures Join([a, b, c], "\0") == a + ("\0" + (b + ("\0" + c)))
  {
    assert [a, b, c][1..] == [b, c] && [b, c][1..] == [c];
    assert Join([b, c], "\0") == b + "\0" + Join([c], "\0");
    assert a + "\0" + (b + "\0" + c) == a + ("\0" + (b + ("\0" + c)));
  }

  lemma GroupIs(u: Unicode, e: Found)
    ensures Group(u, e) ==
            BookOf(u, e) + ("\0" + (Trim(e.context.chapter, u.isSpace) + ("\0" + Trim(e.context.section, u.isSpace))))
  {
    hide Trim, All;
    var a, b := TrimExactly(e.book, u.isSpace);
    JoinedThree(BookOf(u, e), Trim(e.context.chapter, u.isSpace), Trim(e.context.section, u.isSpace));
  }

  /** Two pieces of evidence are of one group exactly if they are of one section of
      one chapter of one book, unless there are NUL characters in their names. */
  lemma GroupsAreSections(u: Unicode, a: Found, b: Found)
    requires Placed(u, a) && Placed(u, b)
    ensures Group(u, a) == Group(u, b) <==> SamePlace(u, a, b)
  {
    hide Trim, BookOf, Group;
    GroupIs(u, a);
    GroupIs(u, b);
    var x, y := BookOf(u, a), BookOf(u, b);
    var c, d := Trim(a.context.chapter, u.isSpace), Trim(b.context.chapter, u.isSpace);
    var s, t := Trim(a.context.section, u.isSpace), Trim(b.context.section, u.isSpace);
    if Group(u, a) == Group(u, b) {
      RunCancels(x, y, "\0" + (c + ("\0" + s)), "\0" + (d + ("\0" + t)), NotNul());
      assert ("\0" + (c + ("\0" + s)))[1..] == c + ("\0" + s) && ("\0" + (d + ("\0" + t)))[1..] == d + ("\0" + t);
      RunCancels(c, d, "\0" + s, "\0" + t, NotNul());
      assert ("\0" + s)[1..] == s && ("\0" + t)[1..] == t;
    }
  }

  /** With a NUL in a name two sections of different chapters can be one group. */
  lemma NulMergesSections(u: Unicode, a: Found, b: Found)
    requires !u.isSpace('\0') && !u.isSpace('x')
    requires a.book == b.book && a.context.title == b.context.title
    requires a.context.chapter == "x" && a.context.section == "x\0x"
    requires b.context.chapter == "x\0x" && b.context.section == "x"
    ensures Group(u, a) == Group(u, b) && !SamePlace(u, a, b)
  {
    GroupIs(u, a);
    GroupIs(u, b);
    hide Group;
    assert BookOf(u, a) == BookOf(u, b);
    assert Trim("x", u.isSpace) == "x" && Trim("x\0x", u.isSpace) == "x\0x";
    assert "x" + ("\0" + "x\0x") == "x\0x" + ("\0" + "x");
  }

  // ---------------------------------------------------------------------
  // What is taken

  function Picked(found: seq<Found>, ix: seq<nat>): seq<ContextEvidence>
    requires forall i :: 0 <= i < |ix| ==> ix[i] < |found|
  {
    seq(|ix|, i requires 0 <= i < |ix| => found[ix[i]].context)
  }

  predicate Ascending(ix: seq<nat>, size: nat) {
    && (forall i :: 0 <= i < |ix| ==> ix[i] < size)
    && (forall i, j :: 0 <= i < j < |ix| ==> ix[i] < ix[j])
  }

  /** Of these indices, the first m are those before k. */
  predicate Before(ix: seq<nat>, m: nat, k: nat) {
    && m <= |ix|
    && (forall i :: 0 <= i < m ==> ix[i] < k)
    && (forall i :: m <= i < |ix| ==> k <= ix[i])
  }

  function TotalSize(taken: seq<ContextEvidence>): nat {
    if taken == [] then 0
    else
      var e := taken[|taken| - 1];
      TotalSize(taken[..|taken| - 1])
      + Size(e.id) + Size(e.passage) + Size(e.title) + Size(e.author) + Size(e.chapter) + Size(e.section)
  }

  /** There is room for it: it has an identifier that is new and words that are new,
      and neither its passage nor all of it together with the rest is too long. */
  predicate Room(u: Unicode, taken: seq<ContextEvidence>, e: ContextEvidence, limits: Limits) {
    && e.id != ""
    && Fields(e.passage, u.isSpace) != []
    && Size(e.passage) <= limits.maximumEvidenceBytes
    && |taken| < limits.maximumEvidence
    && TotalSize(taken + [e]) <= limits.maximumContextBytes
    && (forall i :: 0 <= i < |taken| ==> taken[i].id != e.id)
    && (forall i :: 0 <= i < |taken| ==> Fields(taken[i].passage, u.isSpace) != Fields(e.passage, u.isSpace))
  }

  lemma {:induction false} BytesAreTotal(picks: seq<Candidate>)
    ensures Bytes(picks) == TotalSize(Contexts(picks))
    decreases |picks|
  {
    if picks != [] {
      var n := |picks| - 1;
      BytesAreTotal(picks[..n]);
      assert Contexts(picks)[..n] == Contexts(picks[..n]);
    }
  }

  lemma SizeOfNothing(s: string)
    ensures Size(s) == 0 <==> s == ""
  {
  }

  lemma SameWords(u: Unicode, a: string, b: string)
    requires Sane(u)
    ensures Normalized(u, a) == Normalized(u, b) <==> Fields(a, u.isSpace) == Fields(b, u.isSpace)
    ensures Normalized(u, a) == "" <==> Fields(a, u.isSpace) == []
  {
    hide Fields, Join;
    FieldsAreWords(a, u.isSpace);
    FieldsAreWords(b, u.isSpace);
    JoinIsNotEmpty(Fields(a, u.isSpace), u.isSpace);
    if Normalized(u, a) == Normalized(u, b) {
      JoinCancels(Fields(a, u.isSpace), Fields(b, u.isSpace), u.isSpace);
    }
  }

  lemma AdmissibleIsRoom(u: Unicode, picks: seq<Candidate>, c: Candidate, limits: Limits)
    requires Sane(u)
    ensures Admissible(u, picks, c, limits) <==> Room(u, Contexts(picks), c.context, limits)
  {
    hide Fields, Size, Normalized;
    BytesAreTotal(picks);
    BytesAreTotal(picks + [c]);
    BytesOfOneMore(picks, c);
    ContextsOfOneMore(picks, c);
    SizeOfNothing(c.context.passage);
    SameWords(u, c.context.passage, c.context.passage);
    NoWordsInNothing(u);
    forall i | 0 <= i < |picks|
      ensures SamePassage(u, picks[i].context, c.context) <==>
              Fields(Contexts(picks)[i].passage, u.isSpace) == Fields(c.context.passage, u.isSpace)
    {
      SameWords(u, picks[i].context.passage, c.context.passage);
    }
  }

  lemma NoWordsInNothing(u: Unicode)
    ensures Fields("", u.isSpace) == []
  {
  }

  // ---------------------------------------------------------------------
  // A pass is greedy

  function PicksOf(cs: seq<Candidate>, ix: seq<nat>): seq<Candidate>
    requires forall i :: 0 <= i < |ix| ==> ix[i] < |cs|
  {
    seq(|ix|, i requires 0 <= i < |ix| => cs[ix[i]])
  }

  predicate Takes(u: Unicode, picks: seq<Candidate>, c: Candidate, newGroup: bool, limits: Limits) {
    Admissible(u, picks, c, limits) && !(newGroup && c.group != "" && Represented(picks, c.group))
  }

  predicate Greedy(u: Unicode, picks: seq<Candidate>, cs: seq<Candidate>, ix: seq<nat>, newGroup: bool, limits: Limits)
    requires Ascending(ix, |cs|)
  {
    forall m, k :: 0 <= m <= |ix| && 0 <= k < |cs| && Before(ix, m, k) ==>
      (k in ix <==> Takes(u, picks + PicksOf(cs, ix[..m]), cs[k], newGroup, limits))
  }

  lemma {:induction false} PassSplits(u: Unicode, picks: seq<Candidate>, cs: seq<Candidate>, newGroup: bool,
      limits: Limits)
    requires cs != []
    ensures var n := |cs| - 1;
            Pass(u, picks, cs, newGroup, limits) ==
            Add(u, Pass(u, picks, cs[..n], newGroup, limits), cs[n], newGroup, limits)
    decreases |cs|
  {
    hide Add;
    var n := |cs| - 1;
    if n > 0 {
      var next := Add(u, picks, cs[0], newGroup, limits);
      assert cs[1..][..n - 1] == cs[..n][1..];
      PassSplits(u, next, cs[1..], newGroup, limits);
    }
  }

  lemma {:induction false} PassIsGreedy(u: Unicode, picks: seq<Candidate>, cs: seq<Candidate>, newGroup: bool,
      limits: Limits) returns (ix: seq<nat>)
    ensures Ascending(ix, |cs|) && Greedy(u, picks, cs, ix, newGroup, limits)
    ensures Pass(u, picks, cs, newGroup, limits) == picks + PicksOf(cs, ix)
    decreases |cs|
  {
    hide Takes, Add;
    if cs == [] {
      ix := [];
    } else {
      var n := |cs| - 1;
      var init := PassIsGreedy(u, picks, cs[..n], newGroup, limits);
      PassSplits(u, picks, cs, newGroup, limits);
      assert PicksOf(cs, init) == PicksOf(cs[..n], init);
      var so := picks + PicksOf(cs, init);
      AddTakes(u, so, cs[n], newGroup, limits);
      ix := if Takes(u, so, cs[n], newGroup, limits) then init + [n] else init;
      assert PicksOf(cs, init + [n]) == PicksOf(cs, init) + [cs[n]];
      GreedyGrows(u, picks, cs, init, ix, newGroup, limits);
    }
  }

  lemma AddTakes(u: Unicode, picks: seq<Candidate>, c: Candidate, newGroup: bool, limits: Limits)
    ensures Add(u, picks, c, newGroup, limits) == if Takes(u, picks, c, newGroup, limits) then picks + [c] else picks
  {
    hide Admissible, Represented;
  }

  lemma BeforeAt(ix: seq<nat>, m: nat, k: nat)
    requires Before(ix, m, k)
    ensures 0 < m ==> ix[m - 1] < k
    ensures m < |ix| ==> k <= ix[m]
  {
  }

  lemma GreedyGrows(u: Unicode, picks: seq<Candidate>, cs: seq<Candidate>, init: seq<nat>, ix: seq<nat>,
      newGroup: bool, limits: Limits)
    requires cs != [] && Ascending(init, |cs| - 1) && Greedy(u, picks, cs[..|cs| - 1], init, newGroup, limits)
    requires ix == if Takes(u, picks + PicksOf(cs, init), cs[|cs| - 1], newGroup, limits)
        then init + [|cs| - 1] else init
    ensures Ascending(ix, |cs|) && Greedy(u, picks, cs, ix, newGroup, limits)
  {
    hide Takes;
    var n := |cs| - 1;
    forall m, k | 0 <= m <= |ix| && 0 <= k < |cs| && Before(ix, m, k)
      ensures k in ix <==> Takes(u, picks + PicksOf(cs, ix[..m]), cs[k], newGroup, limits)
    {
      assert forall i :: 0 <= i < |init| ==> ix[i] == init[i] < n;
      assert |init| < |ix| ==> ix[|init|] == n;
      if k < n {
        assert m <= |init| && ix[..m] == init[..m];
        assert forall i :: m <= i < |init| ==> k <= ix[i];
        assert Before(init, m, k);
        assert PicksOf(cs, init[..m]) == PicksOf(cs[..n], init[..m]);
      } else {
        BeforeAt(ix, m, k);
        assert ix[..m] == init;
      }
    }
  }

  // ---------------------------------------------------------------------
  // The selection

  predicate PartAt<T(==)>(whole: seq<T>, from: nat, part: seq<T>) {
    from + |part| <= |whole| && whole[from..from + |part|] == part
  }

  /** The results come first and then the evidence of each document, all in order. */
  predicate Lists(search: Search, found: seq<Found>) {
    && PartAt(found, 0, search.results)
    && (forall d :: 0 <= d < |search.documents| ==>
          PartAt(found, |search.results| + SizeOf(search.documents[..d]), search.documents[d]))
    && |found| == |search.results| + SizeOf(search.documents)
  }

  lemma PartOfMore<T>(before: seq<T>, whole: seq<T>, after: seq<T>, from: nat, part: seq<T>)
    requires PartAt(whole, from, part)
    ensures PartAt(before + whole + after, |before| + from, part)
  {
    var more := before + whole + after;
    assert more[|before| + from..|before| + from + |part|] == whole[from..from + |part|];
  }

  function SizeOf(documents: seq<seq<Found>>): nat {
    if documents == [] then 0 else SizeOf(documents[..|documents| - 1]) + |documents[|documents| - 1]|
  }

  lemma {:induction false} FlatSplits(documents: seq<seq<Found>>)
    requires documents != []
    ensures Flat(documents) == Flat(documents[..|documents| - 1]) + documents[|documents| - 1]
    decreases |documents|
  {
    var n := |documents| - 1;
    if n > 0 {
      assert documents[1..][..n - 1] == documents[..n][1..];
      FlatSplits(documents[1..]);
    }
  }

  lemma {:induction false} FlatLists(documents: seq<seq<Found>>)
    ensures |Flat(documents)| == SizeOf(documents)
    ensures forall d :: 0 <= d < |documents| ==> PartAt(Flat(documents), SizeOf(documents[..d]), documents[d])
    decreases |documents|
  {
    hide Flat, PartAt;
    if documents != [] {
      var n := |documents| - 1;
      FlatLists(documents[..n]);
      FlatSplits(documents);
      var init := Flat(documents[..n]);
      forall d | 0 <= d <= n ensures PartAt(Flat(documents), SizeOf(documents[..d]), documents[d]) {
        if d < n {
          assert documents[..n][..d] == documents[..d];
          PartOfMore([], init, documents[n], SizeOf(documents[..d]), documents[d]);
          assert [] + init + documents[n] == init + documents[n];
        } else {
          PartAtEnd(init, documents[n]);
        }
      }
    } else {
      assert Flat(documents) == [] by { NothingFlat(); }
    }
  }

  lemma NothingFlat()
    ensures Flat([]) == []
  {
  }

  lemma PartAtEnd<T>(before: seq<T>, part: seq<T>)
    ensures PartAt(before + part, |before|, part)
  {
  }

  lemma AllFoundLists(search: Search)
    ensures Lists(search, AllFound(search))
  {
    hide Flat, PartAt;
    FlatLists(search.documents);
    var flat, found := Flat(search.documents), AllFound(search);
    assert [] + search.results + flat == found && search.results + flat + [] == found;
    PartAtEnd([], search.results);
    assert [] + search.results == search.results;
    PartOfMore([], search.results, flat, 0, search.results);
    forall d | 0 <= d < |search.documents|
      ensures PartAt(found, |search.results| + SizeOf(search.documents[..d]), search.documents[d])
    {
      PartOfMore(search.results, flat, [], SizeOf(search.documents[..d]), search.documents[d]);
    }
  }

  function Chosen(found: seq<Found>, ix: seq<nat>): seq<Found>
    requires forall i :: 0 <= i < |ix| ==> ix[i] < |found|
  {
    seq(|ix|, i requires 0 <= i < |ix| => found[ix[i]])
  }

  lemma ChosenGrows(found: seq<Found>, init: seq<nat>)
    requires found != [] && Ascending(init, |found| - 1)
    ensures Ascending(init, |found|) && Ascending(init + [|found| - 1], |found|)
    ensures Chosen(found, init) == Chosen(found[..|found| - 1], init)
    ensures Chosen(found, init + [|found| - 1]) == Chosen(found, init) + [found[|found| - 1]]
  {
  }

  lemma ScoredStep(found: seq<Found>, minimum: real)
    requires found != []
    ensures var n := |found| - 1;
            Scored(found, minimum) ==
            Scored(found[..n], minimum) + if minimum <= found[n].score then [found[n]] else []
  {
    var n := |found| - 1;
    ScoredJoins(found[..n], [found[n]], minimum);
    assert found == found[..n] + [found[n]];
    assert [found[n]][1..] == [];
  }

  /** The score bound keeps, in their order, exactly the pieces that reach it. */
  lemma {:induction false} ScoredExactly(found: seq<Found>, minimum: real) returns (ix: seq<nat>)
    ensures Ascending(ix, |found|)
    ensures forall k :: 0 <= k < |found| ==> (k in ix <==> minimum <= found[k].score)
    ensures Scored(found, minimum) == Chosen(found, ix)
    decreases |found|
  {
    if found == [] {
      ix := [];
    } else {
      hide Scored;
      var n := |found| - 1;
      var init := ScoredExactly(found[..n], minimum);
      ScoredStep(found, minimum);
      ix := if minimum <= found[n].score then init + [n] else init;
      ChosenGrows(found, init);
      assert forall k :: 0 <= k < n ==> found[..n][k] == found[k];
    }
  }

  /** Only a bound above zero is one. */
  lemma FilterExactly(search: Search, minimum: real) returns (ix: seq<nat>)
    ensures var found, kept := AllFound(search), AllFound(FilterByScore(search, minimum));
            && Ascending(ix, |found|)
            && (forall k :: 0 <= k < |found| ==> (k in ix <==> minimum <= 0.0 || minimum <= found[k].score))
            && kept == Chosen(found, ix)
    ensures FilterByScore(search, minimum).embeddingProfile == search.embeddingProfile
    ensures FilterByScore(search, minimum).retrievalProfile == search.retrievalProfile
    ensures FilterByScore(search, minimum).embedding == search.embedding
  {
    hide AllFound;
    if 0.0 < minimum {
      FilterKeepsOrder(search, minimum);
      ix := ScoredExactly(AllFound(search), minimum);
    } else {
      ix := seq(|AllFound(search)|, i => i);
      forall k: nat | k < |ix| ensures k in ix {
        assert ix[k] == k;
      }
    }
  }

  predicate Covered(u: Unicode, found: seq<Found>, ix: seq<nat>, e: Found)
    requires Ascending(ix, |found|)
  {
    exists i :: 0 <= i < |ix| && SamePlace(u, found[ix[i]], e)
  }

  /** The first pass goes through what was found in order, and takes what there is room
      for and no earlier pick is of the same section; the second takes whatever there
      is still room for. */
  predicate TakenInOrder(u: Unicode, found: seq<Found>, first: seq<nat>, second: seq<nat>, limits: Limits)
    requires Ascending(first, |found|) && Ascending(second, |found|)
  {
    && (forall m, k :: 0 <= m <= |first| && 0 <= k < |found| && Before(first, m, k) ==>
          (k in first <==>
           Room(u, Picked(found, first[..m]), found[k].context, limits) && !Covered(u, found, first[..m], found[k])))
    && (forall m, k :: 0 <= m <= |second| && 0 <= k < |found| && Before(second, m, k) ==>
          (k in second <==> Room(u, Picked(found, first) + Picked(found, second[..m]), found[k].context, limits)))
  }

  lemma ContextsOfPicks(u: Unicode, found: seq<Found>, ix: seq<nat>)
    requires forall i :: 0 <= i < |ix| ==> ix[i] < |found|
    ensures Contexts(PicksOf(Candidates(u, found), ix)) == Picked(found, ix)
  {
    hide Group;
  }

  lemma ContextsJoin(a: seq<Candidate>, b: seq<Candidate>)
    ensures Contexts(a + b) == Contexts(a) + Contexts(b)
  {
  }

  lemma RepresentedIsCovered(u: Unicode, found: seq<Found>, ix: seq<nat>, k: nat)
    requires Ascending(ix, |found|) && k < |found| && forall e :: e in found ==> Placed(u, e)
    ensures Represented(PicksOf(Candidates(u, found), ix), Group(u, found[k])) <==> Covered(u, found, ix, found[k])
  {
    hide Group, Placed, SamePlace;
    var picks := PicksOf(Candidates(u, found), ix);
    forall i | 0 <= i < |ix|
      ensures picks[i].group == Group(u, found[k]) <==> SamePlace(u, found[ix[i]], found[k])
    {
      GroupsAreSections(u, found[ix[i]], found[k]);
    }
  }

  lemma GroupIsNotEmpty(u: Unicode, e: Found)
    ensures Group(u, e) != ""
  {
    hide Group, BookOf, Trim;
    GroupIs(u, e);
  }

  /** What SelectEvidence returns, pinned down by what was found. */
  lemma SelectionIsGreedy(u: Unicode, search: Search, found: seq<Found>, limits: Limits)
      returns (first: seq<nat>, second: seq<nat>)
    requires Sane(u) && found == AllFound(search) && forall e :: e in found ==> Placed(u, e)
    ensures Lists(search, found)
    ensures Ascending(first, |found|) && Ascending(second, |found|)
    ensures TakenInOrder(u, found, first, second, limits)
    ensures Selected(u, search, limits) == Picked(found, first) + Picked(found, second)
  {
    hide Group, Placed, Admissible, Room, Pass, Sane, AllFound, Lists;
    AllFoundLists(search);
    var cs := Candidates(u, found);
    first := PassIsGreedy(u, [], cs, true, limits);
    var picks := FirstPass(u, cs, limits);
    second := PassIsGreedy(u, picks, cs, false, limits);
    assert picks == PicksOf(cs, first);
    forall m, k | 0 <= m <= |first| && 0 <= k < |found| && Before(first, m, k)
      ensures k in first <==>
              Room(u, Picked(found, first[..m]), found[k].context, limits) && !Covered(u, found, first[..m], found[k])
    {
      var so := PicksOf(cs, first[..m]);
      assert [] + so == so;
      ContextsOfPicks(u, found, first[..m]);
      AdmissibleIsRoom(u, so, cs[k], limits);
      RepresentedIsCovered(u, found, first[..m], k);
      GroupIsNotEmpty(u, found[k]);
    }
    forall m, k | 0 <= m <= |second| && 0 <= k < |found| && Before(second, m, k)
      ensures k in second <==>
              Room(u, Picked(found, first) + Picked(found, second[..m]), found[k].context, limits)
    {
      ContextsOfPicks(u, found, first);
      ContextsOfPicks(u, found, second[..m]);
      ContextsJoin(picks, PicksOf(cs, second[..m]));
      AdmissibleIsRoom(u, picks + PicksOf(cs, second[..m]), cs[k], limits);
    }
    ContextsOfPicks(u, found, first);
    ContextsOfPicks(u, found, second);
    ContextsJoin(picks, PicksOf(cs, second));
  }

  lemma RoomEarlier(u: Unicode, taken: seq<ContextEvidence>, more: seq<ContextEvidence>, e: ContextEvidence,
      limits: Limits)
    requires Room(u, taken + more, e, limits)
    ensures Room(u, taken, e, limits)
  {
    hide Fields, Size;
    TotalGrows(taken, more, e);
    assert forall i :: 0 <= i < |taken| ==> (taken + more)[i] == taken[i];
  }

  lemma {:induction false} TotalGrows(taken: seq<ContextEvidence>, more: seq<ContextEvidence>, e: ContextEvidence)
    ensures TotalSize(taken + [e]) <= TotalSize(taken + more + [e])
    decreases |more|
  {
    hide Size;
    assert (taken + [e])[..|taken|] == taken;
    assert (taken + more + [e])[..|taken + more|] == taken + more;
    if more == [] {
      assert taken + more == taken;
    } else {
      var n := |more| - 1;
      assert taken + more == (taken + more[..n]) + [more[n]];
      assert (taken + more)[..|taken| + n] == taken + more[..n];
      TotalGrows(taken, more[..n], e);
      assert (taken + more[..n] + [e])[..|taken| + n] == taken + more[..n];
    }
  }

  function CountBelow(ix: seq<nat>, k: nat): (m: nat)
    requires forall i, j :: 0 <= i < j < |ix| ==> ix[i] < ix[j]
    ensures Before(ix, m, k)
  {
    if ix == [] then 0
    else if ix[|ix| - 1] < k then |ix|
    else CountBelow(ix[..|ix| - 1], k)
  }

  lemma PickedSplits(found: seq<Found>, ix: seq<nat>, m: nat)
    requires Ascending(ix, |found|) && m <= |ix|
    ensures Picked(found, ix) == Picked(found, ix[..m]) + Picked(found, ix[m..])
  {
  }

  /** One piece is taken from each section before a second from any: the picks of the
      first pass are of different sections, those of the second are of sections that
      the first has, and when the first pass ends there is no room for anything of a
      section that it has not. */
  lemma SelectionIsDiverse(u: Unicode, found: seq<Found>, first: seq<nat>, second: seq<nat>, limits: Limits)
    requires Ascending(first, |found|) && Ascending(second, |found|)
    requires TakenInOrder(u, found, first, second, limits)
    ensures forall i, j :: 0 <= i < j < |first| ==> !SamePlace(u, found[first[i]], found[first[j]])
    ensures forall k :: 0 <= k < |found| && Room(u, Picked(found, first), found[k].context, limits) ==>
              Covered(u, found, first, found[k])
    ensures forall j :: 0 <= j < |second| ==> Covered(u, found, first, found[second[j]])
    ensures forall k :: 0 <= k < |found| ==>
              !Room(u, Picked(found, first) + Picked(found, second), found[k].context, limits)
  {
    hide Room, SamePlace, Picked;
    forall i, j | 0 <= i < j < |first| ensures !SamePlace(u, found[first[i]], found[first[j]]) {
      assert Before(first, j, first[j]) && first[j] in first;
      assert found[first[..j][i]] == found[first[i]];
    }
    forall k | 0 <= k < |found| && Room(u, Picked(found, first), found[k].context, limits)
      ensures Covered(u, found, first, found[k])
    {
      RoomIsCovered(u, found, first, second, limits, k);
    }
    forall j | 0 <= j < |second| ensures Covered(u, found, first, found[second[j]]) {
      assert Before(second, j, second[j]) && second[j] in second;
      RoomEarlier(u, Picked(found, first), Picked(found, second[..j]), found[second[j]].context, limits);
      RoomIsCovered(u, found, first, second, limits, second[j]);
    }
    forall k | 0 <= k < |found| && Room(u, Picked(found, first) + Picked(found, second), found[k].context, limits)
      ensures false
    {
      NoRoomLeft(u, found, first, second, limits, k);
    }
  }

  /** A piece that is taken has no room beside itself. */
  lemma NoRoomTwice(u: Unicode, found: seq<Found>, ix: seq<nat>, k: nat, more: seq<ContextEvidence>, limits: Limits)
    requires Ascending(ix, |found|) && k in ix
    ensures !Room(u, more + Picked(found, ix), found[k].context, limits)
  {
    hide Fields, Size;
    var i :| 0 <= i < |ix| && ix[i] == k;
    assert (more + Picked(found, ix))[|more| + i] == found[k].context;
  }

  lemma RoomIsCovered(u: Unicode, found: seq<Found>, first: seq<nat>, second: seq<nat>, limits: Limits, k: nat)
    requires Ascending(first, |found|) && Ascending(second, |found|) && k < |found|
    requires TakenInOrder(u, found, first, second, limits)
    requires Room(u, Picked(found, first), found[k].context, limits)
    ensures Covered(u, found, first, found[k])
  {
    hide Room, SamePlace, Picked;
    var m := CountBelow(first, k);
    PickedSplits(found, first, m);
    RoomEarlier(u, Picked(found, first[..m]), Picked(found, first[m..]), found[k].context, limits);
    assert [] + Picked(found, first) == Picked(found, first);
    if k in first {
      NoRoomTwice(u, found, first, k, [], limits);
    }
    var i :| 0 <= i < m && SamePlace(u, found[first[..m][i]], found[k]);
    assert found[first[i]] == found[first[..m][i]];
  }

  lemma NoRoomLeft(u: Unicode, found: seq<Found>, first: seq<nat>, second: seq<nat>, limits: Limits, k: nat)
    requires Ascending(first, |found|) && Ascending(second, |found|) && k < |found|
    requires TakenInOrder(u, found, first, second, limits)
    ensures !Room(u, Picked(found, first) + Picked(found, second), found[k].context, limits)
  {
    hide Room, SamePlace, Picked, Covered;
    var m := CountBelow(second, k);
    if k in second {
      NoRoomTwice(u, found, second, k, Picked(found, first), limits);
    } else if Room(u, Picked(found, first) + Picked(found, second), found[k].context, limits) {
      PickedSplits(found, second, m);
      var a, b, c := Picked(found, first), Picked(found, second[..m]), Picked(found, second[m..]);
      assert a + (b + c) == (a + b) + c;
      RoomEarlier(u, a + b, c, found[k].context, limits);
    }
  }
}
