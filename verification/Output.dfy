/**
 Checking and rendering what a generator returned
 (services/answer-service/internal/application/output.go).
 */
module Output {
  import opened Prelude
  import opened Text
  import opened Fingerprints

  datatype Segment = Segment(text: string, ids: seq<string>)

  datatype OutputError = InvalidProviderOutput

  // ---------------------------------------------------------------------
  // What is accepted, and how it is shown

  predicate Unsafe(u: Unicode, c: char) {
    u.isControl(c) || u.isFormat(c) || c == '\U{2028}' || c == '\U{2029}'
  }

  predicate SafeText(u: Unicode, s: string) {
    forall i :: 0 <= i < |s| ==> !Unsafe(u, s[i])
  }

  function Find(evidence: seq<ContextEvidence>, id: string): Option<ContextEvidence> {
    if evidence == [] then None else if evidence[0].id == id then Some(evidence[0]) else Find(evidence[1..], id)
  }

  function Gap(u: Unicode): char -> bool {
    c => u.isSpace(c) || u.isControl(c) || u.isFormat(c)
  }

  function HumanField(u: Unicode, value: string): string {
    Join(Fields(value, Gap(u)), " ")
  }

  function PageRange(start: nat, end: nat): string {
    if start == 0 && end == 0 then ""
    else if end == 0 || end == start then "page " + Decimal(start)
    else "pages " + Decimal(start) + "-" + Decimal(end)
  }

  /** What precedes the text of a segment that cites this evidence first. */
  function Location(u: Unicode, e: ContextEvidence): string {
    var title, author, pages := HumanField(u, e.title), HumanField(u, e.author), PageRange(e.pageStart, e.pageEnd);
    if title == "" then ""
    else "This is described in " + (title + (if author == "" then "" else " by " + author) + (if pages == "" then ""
        else ", " + pages)) + ": "
  }

  function Grounded(u: Unicode, text: string, ids: seq<string>, evidence: seq<ContextEvidence>): string {
    if ids == [] || Find(evidence, ids[0]).None? then text else Location(u, Find(evidence, ids[0]).value) + text
  }

  function Shown(u: Unicode, values: seq<Segment>, evidence: seq<ContextEvidence>): seq<Segment> {
    seq(|values|, i requires 0 <= i < |values| =>
      Segment(Grounded(u, Trim(values[i].text, u.isSpace), values[i].ids, evidence), values[i].ids))
  }

  function TextBytes(values: seq<Segment>): nat {
    if values == [] then 0 else TextBytes(values[..|values| - 1]) + Size(values[|values| - 1].text)
  }

  predicate Cites(ids: seq<string>, evidence: seq<ContextEvidence>) {
    && (forall i :: 0 <= i < |ids| ==> Find(evidence, ids[i]).Some?)
    && (forall i, j :: 0 <= i < j < |ids| ==> ids[i] != ids[j])
  }

  predicate Accepted(u: Unicode, value: Segment, evidence: seq<ContextEvidence>, limits: Limits) {
    var text := Trim(value.text, u.isSpace);
    && text != "" && '\U{fffd}' !in text && SafeText(u, text)
    && 0 < |value.ids| <= limits.maximumCitations && Cites(value.ids, evidence)
  }

  predicate Acceptable(u: Unicode, values: seq<Segment>, evidence: seq<ContextEvidence>, limits: Limits) {
    && 0 < |values| <= limits.maximumSegments
    && (forall i :: 0 <= i < |values| ==> Accepted(u, values[i], evidence, limits))
    && TextBytes(Shown(u, values, evidence)) <= limits.maximumAnswerBytes
  }

  /** The declared outcome of validation. */
  function Validated(u: Unicode, values: seq<Segment>, evidence: seq<ContextEvidence>,
      limits: Limits): Result<seq<Segment>, OutputError> {
    if Acceptable(u, values, evidence, limits) then Ok(Shown(u, values, evidence)) else Err(InvalidProviderOutput)
  }

  // ---------------------------------------------------------------------
  // Rendering is safe and keeps the text

  /** The tables agree with ASCII and with the two separators as far as rendering needs. */
  ghost predicate SaneAscii(u: Unicode) {
    && Sane(u)
    && u.isSpace('\U{2028}') && u.isSpace('\U{2029}')
    && forall c: char :: ' ' <= c <= '~' ==> !u.isControl(c) && !u.isFormat(c)
  }

  lemma SafeJoin(u: Unicode, a: string, b: string)
    requires SafeText(u, a) && SafeText(u, b)
    ensures SafeText(u, a + b)
  {
  }

  lemma {:induction false} HumanFieldIsSafe(u: Unicode, words: seq<string>)
    requires SaneAscii(u) && Words(words, Gap(u))
    ensures SafeText(u, Join(words, " "))
    decreases |words|
  {
    if words != [] {
      assert Word(words[0], Gap(u));
      assert SafeText(u, words[0]);
      if |words| > 1 {
        assert Words(words[1..], Gap(u)) by {
          forall i | 0 <= i < |words| - 1 ensures Word(words[1..][i], Gap(u)) {
            assert Word(words[i + 1], Gap(u));
          }
        }
        HumanFieldIsSafe(u, words[1..]);
      }
    }
  }

  lemma AsciiIsSafe(u: Unicode, s: string)
    requires SaneAscii(u) && forall i :: 0 <= i < |s| ==> ' ' <= s[i] <= '~'
    ensures SafeText(u, s)
  {
  }

  lemma DecimalIsSafe(u: Unicode, n: nat)
    requires SaneAscii(u)
    ensures SafeText(u, Decimal(n))
  {
    DecimalIsDigits(n);
    AsciiIsSafe(u, Decimal(n));
  }

  lemma PageRangeIsSafe(u: Unicode, start: nat, end: nat)
    requires SaneAscii(u)
    ensures SafeText(u, PageRange(start, end))
  {
    hide Decimal, SafeText;
    AsciiIsSafe(u, "");
    AsciiIsSafe(u, "page ");
    AsciiIsSafe(u, "pages ");
    AsciiIsSafe(u, "-");
    DecimalIsSafe(u, start);
    DecimalIsSafe(u, end);
    SafeJoin(u, "page ", Decimal(start));
    SafeJoin(u, "pages ", Decimal(start));
    SafeJoin(u, "pages " + Decimal(start), "-");
    SafeJoin(u, "pages " + Decimal(start) + "-", Decimal(end));
  }

  lemma LocationIsSafe(u: Unicode, e: ContextEvidence)
    requires SaneAscii(u)
    ensures SafeText(u, Location(u, e))
  {
    hide SafeText, PageRange, Join, Fields;
    FieldsAreWords(e.title, Gap(u));
    HumanFieldIsSafe(u, Fields(e.title, Gap(u)));
    FieldsAreWords(e.author, Gap(u));
    HumanFieldIsSafe(u, Fields(e.author, Gap(u)));
    PageRangeIsSafe(u, e.pageStart, e.pageEnd);
    AsciiIsSafe(u, "");
    AsciiIsSafe(u, "This is described in ");
    AsciiIsSafe(u, " by ");
    AsciiIsSafe(u, ", ");
    AsciiIsSafe(u, ": ");
    var title, author, pages := HumanField(u, e.title), HumanField(u, e.author), PageRange(e.pageStart, e.pageEnd);
    SafeJoin(u, " by ", author);
    SafeJoin(u, ", ", pages);
    var who, pageText := (if author == "" then "" else " by " + author), (if pages == "" then "" else ", " + pages);
    SafeJoin(u, title, who);
    SafeJoin(u, title + who, pageText);
    SafeJoin(u, "This is described in ", title + who + pageText);
    SafeJoin(u, "This is described in " + (title + who + pageText), ": ");
  }

  /** An answer that is shown has no control, format or line separator character,
      whatever the evidence is called; it ends in the text that was checked, and
      cites evidence only, nothing twice. */
  lemma ShownIsSafe(u: Unicode, values: seq<Segment>, evidence: seq<ContextEvidence>, limits: Limits, i: nat)
    requires SaneAscii(u) && Acceptable(u, values, evidence, limits) && i < |values|
    ensures var shown := Shown(u, values, evidence)[i];
            var text := Trim(values[i].text, u.isSpace);
            && (forall c :: c in shown.text ==>
                  !u.isControl(c) && !u.isFormat(c) && c != '\U{2028}' && c != '\U{2029}')
            && |text| <= |shown.text| && shown.text[|shown.text| - |text|..] == text
            && shown.ids == values[i].ids && 0 < |shown.ids| <= limits.maximumCitations
            && (forall k :: 0 <= k < |shown.ids| ==> exists e :: e in evidence && e.id == shown.ids[k])
            && (forall k, l :: 0 <= k < l < |shown.ids| ==> shown.ids[k] != shown.ids[l])
  {
    hide SafeText, Location, Trim, SaneAscii;
    var value := values[i];
    assert Accepted(u, value, evidence, limits);
    var text := Trim(value.text, u.isSpace);
    LocationIsSafe(u, Find(evidence, value.ids[0]).value);
    SafeJoin(u, Location(u, Find(evidence, value.ids[0]).value), text);
    SafeMeans(u, Shown(u, values, evidence)[i].text);
    forall k | 0 <= k < |value.ids| ensures exists e :: e in evidence && e.id == value.ids[k] {
      FindFinds(evidence, value.ids[k]);
    }
  }

  lemma SafeMeans(u: Unicode, s: string)
    ensures SafeText(u, s) <==>
            forall c :: c in s ==> !u.isControl(c) && !u.isFormat(c) && c != '\U{2028}' && c != '\U{2029}'
  {
    assert forall i :: 0 <= i < |s| ==> s[i] in s;
  }

  /** What the generator returns is accepted exactly if it has segments, but not too
      many, each with a text of allowed characters that is not blank and with
      citations, but not too many, of evidence, none twice; and if it is not too long
      as it would be shown. */
  lemma AcceptableExactly(u: Unicode, values: seq<Segment>, evidence: seq<ContextEvidence>, limits: Limits)
    ensures Acceptable(u, values, evidence, limits) <==>
            && 0 < |values| <= limits.maximumSegments
            && (forall i :: 0 <= i < |values| ==> MayBeShown(u, values[i], evidence, limits))
            && TextBytes(Shown(u, values, evidence)) <= limits.maximumAnswerBytes
  {
    hide TextBytes, Shown, Accepted, MayBeShown;
    forall i | 0 <= i < |values|
      ensures Accepted(u, values[i], evidence, limits) <==> MayBeShown(u, values[i], evidence, limits)
    {
      AcceptedExactly(u, values[i], evidence, limits);
    }
  }

  predicate MayBeShown(u: Unicode, value: Segment, evidence: seq<ContextEvidence>, limits: Limits) {
    var text := Trim(value.text, u.isSpace);
    && !All(value.text, u.isSpace)
    && '\U{fffd}' !in text
    && (forall c :: c in text ==>
          !u.isControl(c) && !u.isFormat(c) && c != '\U{2028}' && c != '\U{2029}')
    && 0 < |value.ids| <= limits.maximumCitations
    && (forall k :: 0 <= k < |value.ids| ==> exists e :: e in evidence && e.id == value.ids[k])
    && (forall k, l :: 0 <= k < l < |value.ids| ==> value.ids[k] != value.ids[l])
  }

  lemma AcceptedExactly(u: Unicode, value: Segment, evidence: seq<ContextEvidence>, limits: Limits)
    ensures Accepted(u, value, evidence, limits) <==> MayBeShown(u, value, evidence, limits)
  {
    hide Trim, SafeText, All, Find;
    var a, b := TrimExactly(value.text, u.isSpace);
    SafeMeans(u, Trim(value.text, u.isSpace));
    forall k | 0 <= k < |value.ids|
      ensures Find(evidence, value.ids[k]).Some? <==> exists e :: e in evidence && e.id == value.ids[k]
    {
      FindFinds(evidence, value.ids[k]);
    }
    assert Cites(value.ids, evidence) <==>
           && (forall k :: 0 <= k < |value.ids| ==> exists e :: e in evidence && e.id == value.ids[k])
           && (forall k, l :: 0 <= k < l < |value.ids| ==> value.ids[k] != value.ids[l]);
  }

  // What stands before a text

  /** The location of evidence with a title: its words, those of its author if there
      are any, and its pages if there are any. */
  lemma LocationTells(u: Unicode, e: ContextEvidence) returns (title: string, author: string)
    requires Sane(u)
    ensures Fields(title, Gap(u)) == Fields(e.title, Gap(u)) && Fields(author, Gap(u)) == Fields(e.author, Gap(u))
    ensures title == "" <==> Fields(e.title, Gap(u)) == []
    ensures author == "" <==> Fields(e.author, Gap(u)) == []
    ensures Location(u, e) ==
            if title == "" then ""
            else
              var whose := if author == "" then title else title + (" by " + author);
              var place := if e.pageStart == 0 && e.pageEnd == 0 then whose
                           else whose + (", " + PageRange(e.pageStart, e.pageEnd));
              "This is described in " + place + ": "
  {
    hide Fields, Join;
    title, author := HumanField(u, e.title), HumanField(u, e.author);
    HumanFieldKeepsWords(u, e.title);
    HumanFieldKeepsWords(u, e.author);
    assert PageRange(e.pageStart, e.pageEnd) == "" <==> e.pageStart == 0 && e.pageEnd == 0;
    assert title + "" == title;
  }

  lemma HumanFieldKeepsWords(u: Unicode, value: string)
    requires Sane(u)
    ensures Fields(HumanField(u, value), Gap(u)) == Fields(value, Gap(u))
    ensures HumanField(u, value) == "" <==> Fields(value, Gap(u)) == []
  {
    hide Fields, Join;
    FieldsAreWords(value, Gap(u));
    FieldsOfJoin(Fields(value, Gap(u)), Gap(u));
    JoinIsNotEmpty(Fields(value, Gap(u)), Gap(u));
  }

  /** A range of pages, with a missing end filled in. */
  function Pages(start: nat, end: nat): (nat, nat) {
    (start, if end == 0 then start else end)
  }

  /** The text of a range tells which it is. */
  lemma PagesAreTold(start: nat, end: nat, start': nat, end': nat)
    ensures PageRange(start, end) == PageRange(start', end') <==> Pages(start, end) == Pages(start', end')
  {
    hide Decimal;
    if PageRange(start, end) == PageRange(start', end') {
      PageRangeStarts(start, end);
      PageRangeStarts(start', end');
      if PageRange(start, end) != "" {
        if Pages(start, end).0 == Pages(start, end).1 {
          assert ("page " + Decimal(start))[5..] == Decimal(start);
          assert ("page " + Decimal(start'))[5..] == Decimal(start');
          DecimalInjective(start, start');
        } else {
          assert ("pages " + Decimal(start) + "-" + Decimal(end))[6..] == Decimal(start) + ("-" + Decimal(end));
          assert ("pages " + Decimal(start') + "-" + Decimal(end'))[6..] == Decimal(start') + ("-" + Decimal(end'));
          DecimalCancels(start, start', "-" + Decimal(end), "-" + Decimal(end'));
          assert ("-" + Decimal(end))[1..] == Decimal(end) && ("-" + Decimal(end'))[1..] == Decimal(end');
          DecimalInjective(end, end');
        }
      }
    }
  }

  lemma PageRangeStarts(start: nat, end: nat)
    ensures PageRange(start, end) == "" <==> Pages(start, end) == (0, 0)
    ensures PageRange(start, end) != "" ==>
              |PageRange(start, end)| >= 5
              && (PageRange(start, end)[4] == ' ' <==> Pages(start, end).0 == Pages(start, end).1)
  {
    hide Decimal;
  }

  lemma {:induction false} FindFinds(evidence: seq<ContextEvidence>, id: string)
    ensures Find(evidence, id).Some? <==> exists e :: e in evidence && e.id == id
    ensures Find(evidence, id).Some? ==> Find(evidence, id).value in evidence && Find(evidence, id).value.id == id
    decreases |evidence|
  {
    if evidence != [] && evidence[0].id != id {
      FindFinds(evidence[1..], id);
      forall e | e in evidence && e.id == id ensures e in evidence[1..] {
        assert evidence == [evidence[0]] + evidence[1..];
      }
    }
  }

  /** Rendering is not idempotent, which is why the cache keeps what the generator
      said and not what was shown. */
  lemma RenderingTwiceDiffers(u: Unicode, text: string, ids: seq<string>, evidence: seq<ContextEvidence>)
    requires ids != [] && Find(evidence, ids[0]).Some? && HumanField(u, Find(evidence, ids[0]).value.title) != ""
    ensures Grounded(u, Grounded(u, text, ids, evidence), ids, evidence) != Grounded(u, text, ids, evidence)
  {
    hide HumanField, PageRange;
    assert |Location(u, Find(evidence, ids[0]).value)| > 0;
  }

  // ---------------------------------------------------------------------
  // The summary

  function Texts(u: Unicode, values: seq<Segment>): seq<string> {
    if values == [] then []
    else
      var text := Trim(values[0].text, u.isSpace);
      (if text == "" then [] else [text]) + Texts(u, values[1..])
  }

  /** All words of all segments, in order. */
  function AllWords(u: Unicode, values: seq<Segment>): seq<string> {
    if values == [] then [] else Fields(values[0].text, u.isSpace) + AllWords(u, values[1..])
  }

  lemma {:induction false} TrimKeepsWords(s: string, p: char -> bool)
    ensures Fields(Trim(s, p), p) == Fields(s, p)
  {
    TrimLeftKeepsWords(s, p);
    TrimRightKeepsWords(TrimLeft(s, p), p);
  }

  lemma {:induction false} TrimLeftKeepsWords(s: string, p: char -> bool)
    ensures Fields(TrimLeft(s, p), p) == Fields(s, p)
    decreases |s|
  {
    if s != "" && p(s[0]) {
      TrimLeftKeepsWords(s[1..], p);
    }
  }

  lemma {:induction false} TrimRightKeepsWords(s: string, p: char -> bool)
    ensures Fields(TrimRight(s, p), p) == Fields(s, p)
    decreases |s|
  {
    if s != "" && p(s[|s| - 1]) {
      var init := s[..|s| - 1];
      TrimRightKeepsWords(init, p);
      FieldsSplit(init, s[|s| - 1], "", p);
      assert init + ([s[|s| - 1]] + "") == s;
    }
  }

  lemma {:induction false} FieldsOfJoin(words: seq<string>, p: char -> bool)
    requires Words(words, p) && p(' ')
    ensures Fields(Join(words, " "), p) == words
    decreases |words|
  {
    if words != [] {
      assert Word(words[0], p);
      FieldsOfWord(words[0], p);
      if |words| > 1 {
        var rest := words[1..];
        forall i | 0 <= i < |rest| ensures Word(rest[i], p) {
          assert Word(words[i + 1], p);
        }
        FieldsOfJoin(rest, p);
        FieldsSplit(words[0], ' ', Join(rest, " "), p);
        assert words[0] + " " + Join(rest, " ") == words[0] + ([' '] + Join(rest, " "));
        assert words == [words[0]] + rest;
      }
    }
  }

  lemma {:induction false} TextsKeepWords(u: Unicode, values: seq<Segment>)
    requires u.isSpace(' ')
    ensures Fields(Join(Texts(u, values), " "), u.isSpace) == AllWords(u, values)
    decreases |values|
  {
    hide Trim;
    if values != [] {
      var text := Trim(values[0].text, u.isSpace);
      TrimKeepsWords(values[0].text, u.isSpace);
      TextsKeepWords(u, values[1..]);
      var rest := Texts(u, values[1..]);
      if text == "" {
        assert Texts(u, values) == rest;
        assert Fields(text, u.isSpace) == [];
      } else {
        assert ([text] + rest)[1..] == rest;
        if rest != [] {
          FieldsSplit(text, ' ', Join(rest, " "), u.isSpace);
          assert text + " " + Join(rest, " ") == text + ([' '] + Join(rest, " "));
        } else {
          assert Join([text], " ") == text;
        }
      }
    }
  }

  function Summary(u: Unicode, values: seq<Segment>, maximum: nat): (s: string)
    requires 0 < maximum
    ensures |s| <= maximum
  {
    var whole := Join(AllWords(u, values), " ");
    if |whole| <= maximum then whole else Trim(whole[..maximum - 1], u.isSpace) + "…"
  }

  /** A summary that fits has the words of the answer, every one and in order. */
  lemma SummaryKeepsWords(u: Unicode, values: seq<Segment>, maximum: nat)
    requires Sane(u) && 0 < maximum && |Join(AllWords(u, values), " ")| <= maximum
    ensures Fields(Summary(u, values, maximum), u.isSpace) == AllWords(u, values)
  {
    TextsKeepWords(u, values);
    FieldsAreWords(Join(Texts(u, values), " "), u.isSpace);
    FieldsOfJoin(AllWords(u, values), u.isSpace);
  }

  /** How far into words joined by spaces a cut comes: past the first `n`, and into
      the next by `part`. */
  predicate CutsAt(words: seq<string>, n: nat, part: string) {
    && n <= |words|
    && (part == "" || (n < |words| && |part| < |words[n]| && part == words[n][..|part|]))
  }

  function UpTo(words: seq<string>, n: nat, part: string): seq<string>
    requires n <= |words|
  {
    words[..n] + if part == "" then [] else [part]
  }

  lemma {:induction false} CutWords(words: seq<string>, k: nat, p: char -> bool) returns (n: nat, part: string)
    requires Words(words, p) && p(' ') && k <= |Join(words, " ")|
    ensures CutsAt(words, n, part)
    ensures Fields(Join(words, " ")[..k], p) == UpTo(words, n, part)
    ensures k <= |Join(UpTo(words, n, part), " ")| + 1 && (0 < k ==> UpTo(words, n, part) != [])
    decreases |words|
  {
    hide Fields;
    FieldsOpens("", p);
    if words == [] || k == 0 {
      n, part := 0, "";
      assert Join(words, " ")[..k] == "";
    } else {
      assert Word(words[0], p);
      JoinOpens(words, p);
      var whole := Join(words, " ");
      if k < |words[0]| {
        n, part := 0, words[0][..k];
        assert whole[..k] == part;
        FieldsOfWord(part, p);
      } else if |words| == 1 || k <= |words[0]| + 1 {
        n, part := 1, "";
        FieldsOfWord(words[0], p);
        FieldsSplit(words[0], ' ', "", p);
        assert whole[..k] == words[0] || whole[..k] == words[0] + ([' '] + "");
        assert UpTo(words, 1, "") == [words[0]];
      } else {
        CutFurther(words, k, p);
        var rest := words[1..];
        n, part := CutWords(rest, k - |words[0]| - 1, p);
        CutRest(words, n, part);
        n := n + 1;
      }
    }
  }

  lemma CutFurther(words: seq<string>, k: nat, p: char -> bool)
    requires Words(words, p) && p(' ') && |words| > 1 && |words[0]| + 1 < k <= |Join(words, " ")|
    ensures Words(words[1..], p) && k - |words[0]| - 1 <= |Join(words[1..], " ")|
    ensures Fields(Join(words, " ")[..k], p) ==
            [words[0]] + Fields(Join(words[1..], " ")[..k - |words[0]| - 1], p)
  {
    hide Fields;
    assert Word(words[0], p);
    JoinOpens(words, p);
    var m := k - |words[0]| - 1;
    var rest := Join(words[1..], " ");
    assert Join(words, " ") == words[0] + ([' '] + rest);
    assert Join(words, " ")[..k] == words[0] + ([' '] + rest[..m]);
    FieldsSplit(words[0], ' ', rest[..m], p);
    FieldsOfWord(words[0], p);
  }

  lemma CutRest(words: seq<string>, n: nat, part: string)
    requires |words| > 1 && CutsAt(words[1..], n, part)
    ensures CutsAt(words, n + 1, part)
    ensures UpTo(words, n + 1, part) == [words[0]] + UpTo(words[1..], n, part)
    ensures |Join(UpTo(words, n + 1, part), " ")| >= |words[0]| + |Join(UpTo(words[1..], n, part), " ")|
    ensures UpTo(words[1..], n, part) != [] ==>
              |Join(UpTo(words, n + 1, part), " ")| == |words[0]| + 1 + |Join(UpTo(words[1..], n, part), " ")|
  {
    assert words[..n + 1] == [words[0]] + words[1..][..n];
    assert UpTo(words, n + 1, part)[1..] == UpTo(words[1..], n, part);
  }

  /** A summary that does not fit is cut: it has the first words of the answer, the
      last of them perhaps in part, as far as they fit, and an ellipsis. */
  lemma SummaryIsCut(u: Unicode, values: seq<Segment>, maximum: nat) returns (n: nat, part: string, text: string)
    requires Sane(u) && 0 < maximum < |Join(AllWords(u, values), " ")|
    ensures Summary(u, values, maximum) == text + "…"
    ensures CutsAt(AllWords(u, values), n, part)
    ensures Fields(text, u.isSpace) == UpTo(AllWords(u, values), n, part)
    ensures maximum <= |Join(UpTo(AllWords(u, values), n, part), " ")| + 2
  {
    hide Fields, Trim, Join;
    TextsKeepWords(u, values);
    FieldsAreWords(Join(Texts(u, values), " "), u.isSpace);
    var words := AllWords(u, values);
    var cut := Join(words, " ")[..maximum - 1];
    n, part := CutWords(words, maximum - 1, u.isSpace);
    text := Trim(cut, u.isSpace);
    TrimKeepsWords(cut, u.isSpace);
  }

  // ---------------------------------------------------------------------
  // The algorithms

  method GroundedSegmentText(u: Unicode, text: string, ids: seq<string>, evidence: seq<ContextEvidence>)
      returns (grounded: string)
    ensures grounded == Grounded(u, text, ids, evidence)
  {
    if |ids| == 0 {
      return text;
    }
    var selected := ContextEvidence("", "", "", "", "", "", 0, 0);
    var i := 0;
    while i < |evidence|
      invariant 0 <= i <= |evidence| && Find(evidence[i..], ids[0]) == Find(evidence, ids[0])
      invariant selected.title == ""
    {
      if evidence[i].id == ids[0] {
        selected := evidence[i];
        break;
      }
      assert evidence[i..][1..] == evidence[i + 1..];
      i := i + 1;
    }
    var title := HumanField(u, selected.title);
    if title == "" {
      assert Find(evidence, ids[0]).Some? ==> Location(u, Find(evidence, ids[0]).value) + text == text;
      return text;
    }
    var pages := PageRange(selected.pageStart, selected.pageEnd);
    var location := title;
    var author := HumanField(u, selected.author);
    if author != "" {
      location := location + (" by " + author);
    }
    if pages != "" {
      location := location + (", " + pages);
    }
    assert title + "" == title && location + "" == location;
    return "This is described in " + location + ": " + text;
  }

  lemma TextBytesOfOneMore(values: seq<Segment>, more: Segment)
    ensures TextBytes(values + [more]) == TextBytes(values) + Size(more.text)
  {
    assert (values + [more])[..|values|] == values;
  }

  lemma {:induction false} TextBytesGrow(values: seq<Segment>, n: nat)
    requires n <= |values|
    ensures TextBytes(values[..n]) <= TextBytes(values)
    decreases |values|
  {
    if n < |values| {
      TextBytesGrow(values[..|values| - 1], n);
      assert values[..|values| - 1][..n] == values[..n];
    } else {
      assert values[..n] == values;
    }
  }

  method CheckCitations(ids: seq<string>, allowed: set<string>, evidence: seq<ContextEvidence>)
      returns (citations: Option<seq<string>>)
    requires forall id :: id in allowed <==> Find(evidence, id).Some?
    ensures citations == if Cites(ids, evidence) then Some(ids) else None
  {
    var seen: set<string> := {};
    var copy: seq<string> := [];
    for i := 0 to |ids|
      invariant copy == ids[..i] && Cites(ids[..i], evidence)
      invariant forall id :: id in seen <==> id in ids[..i]
    {
      if ids[i] !in allowed {
        return None;
      }
      if ids[i] in seen {
        return None;
      }
      seen := seen + {ids[i]};
      copy := copy + [ids[i]];
      assert ids[..i + 1] == ids[..i] + [ids[i]];
    }
    assert ids[..|ids|] == ids;
    return Some(copy);
  }

  lemma ShownAt(u: Unicode, values: seq<Segment>, evidence: seq<ContextEvidence>)
    ensures |Shown(u, values, evidence)| == |values|
    ensures forall i :: 0 <= i < |values| ==>
              Shown(u, values, evidence)[i] ==
                  Segment(Grounded(u, Trim(values[i].text, u.isSpace), values[i].ids, evidence), values[i].ids)
  {
  }

  lemma NoText()
    ensures TextBytes([]) == 0
  {
  }

  method ValidateSegments(u: Unicode, values: seq<Segment>, evidence: seq<ContextEvidence>, limits: Limits)
    returns (reply: Result<seq<Segment>, OutputError>)
    ensures reply == Validated(u, values, evidence, limits)
  {
    hide Grounded, Trim, Cites, SafeText, Shown, TextBytes, Size, Find;
    if |values| == 0 || |values| > limits.maximumSegments {
      return Err(InvalidProviderOutput);
    }
    var allowed := set e | e in evidence :: e.id;
    forall id ensures id in allowed <==> Find(evidence, id).Some? {
      FindFinds(evidence, id);
    }
    var total := 0;
    var result: seq<Segment> := [];
    ghost var shown := Shown(u, values, evidence);
    ShownAt(u, values, evidence);
    NoText();
    for i := 0 to |values|
      invariant result == shown[..i] && total == TextBytes(result) <= limits.maximumAnswerBytes
      invariant forall k :: 0 <= k < i ==> Accepted(u, values[k], evidence, limits)
    {
      var value := values[i];
      var text := Trim(value.text, u.isSpace);
      if text == "" || '\U{fffd}' in text || !SafeText(u, text) || |value.ids| == 0
          || |value.ids| > limits.maximumCitations {
        assert !Accepted(u, value, evidence, limits);
        return Err(InvalidProviderOutput);
      }
      var grounded := GroundedSegmentText(u, text, value.ids, evidence);
      total := total + Size(grounded);
      TextBytesOfOneMore(result, shown[i]);
      TextBytesGrow(shown, i + 1);
      assert shown[..i + 1] == shown[..i] + [shown[i]];
      if total > limits.maximumAnswerBytes {
        return Err(InvalidProviderOutput);
      }
      var citations := CheckCitations(value.ids, allowed, evidence);
      if citations.None? {
        assert !Accepted(u, value, evidence, limits);
        return Err(InvalidProviderOutput);
      }
      result := result + [Segment(grounded, citations.value)];
    }
    assert shown[..|values|] == shown;
    return Ok(result);
  }

  method CollectTexts(u: Unicode, values: seq<Segment>) returns (parts: seq<string>)
    ensures parts == Texts(u, values)
  {
    hide Trim;
    parts := [];
    for i := 0 to |values|
      invariant parts + Texts(u, values[i..]) == Texts(u, values)
    {
      var text := Trim(values[i].text, u.isSpace);
      assert values[i..][1..] == values[i + 1..];
      if text != "" {
        parts := parts + [text];
      }
    }
    assert parts + [] == parts;
  }

  method SummarizeSegments(u: Unicode, values: seq<Segment>, maximum: nat) returns (summary: string)
    requires Sane(u) && 0 < maximum
    ensures summary == Summary(u, values, maximum)
  {
    hide Trim, Texts, Fields;
    if |values| == 0 {
      return "";
    }
    var parts := CollectTexts(u, values);
    TextsKeepWords(u, values);
    summary := Join(parts, " ");
    summary := Join(Fields(summary, u.isSpace), " ");
    if |summary| <= maximum {
      return summary;
    }
    return Trim(summary[..maximum - 1], u.isSpace) + "…";
  }
}
