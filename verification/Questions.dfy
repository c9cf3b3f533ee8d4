/**
 What makes two questions ask for the same answer, in terms of their words
 (services/answer-service/internal/application/cache.go).

 The cache compares modes, topics and guards. This module says what that comes to
 for the words of two questions, and what the words of a question are.
 */
module Questions {
  import opened Prelude
  import opened Text
  import opened Fingerprints
  import opened Guards

  // ---------------------------------------------------------------------
  // The words of a question

  predicate Plain(u: Unicode, w: string) {
    w != "" && forall i :: 0 <= i < |w| ==> (u.isLetter(w[i]) || u.isNumber(w[i])) && u.toLower(w[i]) == w[i]
  }

  lemma {:induction false} PlainIsClean(u: Unicode, w: string)
    requires forall i :: 0 <= i < |w| ==> (u.isLetter(w[i]) || u.isNumber(w[i])) && u.toLower(w[i]) == w[i]
    ensures Cleaned(u, w) == w
    decreases |w|
  {
    if w != "" {
      PlainIsClean(u, w[1..]);
      assert w == [w[0]] + w[1..];
    }
  }

  /** A question's words are those that it is made of: small letters and numbers,
      with any character of another kind before the next. */
  lemma {:induction false} WordsAreRead(u: Unicode, word: string, gap: char, rest: string)
    requires Sane(u) && Plain(u, word)
    requires var c := u.toLower(gap); !u.isLetter(c) && !u.isNumber(c)
    ensures QueryWords(u, word + ([gap] + rest)) == [word] + QueryWords(u, rest)
    ensures QueryWords(u, [gap] + rest) == QueryWords(u, rest)
    ensures QueryWords(u, word) == [word] && QueryWords(u, "") == []
  {
    hide Fields;
    PlainIsClean(u, word);
    CleanedJoins(u, word, [gap] + rest);
    assert ([gap] + rest)[1..] == rest && Cleaned(u, [gap] + rest) == [' '] + Cleaned(u, rest);
    FieldsSplit(word, ' ', Cleaned(u, rest), u.isSpace);
    FieldsSplit("", ' ', Cleaned(u, rest), u.isSpace);
    assert "" + ([' '] + Cleaned(u, rest)) == [' '] + Cleaned(u, rest);
    FieldsOpens("", u.isSpace);
    FieldsOfWord(word, u.isSpace);
  }

  // ---------------------------------------------------------------------
  // Content

  predicate Listed(x: Lexicon, w: string) {
    || w in x.intent || w in x.examples || w in x.steps || w in x.comparison
    || w in x.trouble || w in x.risks || w in x.otherModes
  }

  /** They share all words that are in none of the lists. */
  ghost predicate SameContent(x: Lexicon, a: seq<string>, b: seq<string>) {
    forall w :: !Listed(x, w) ==> (w in a <==> w in b)
  }

  lemma TopicsAreContent(x: Lexicon, a: seq<string>, b: seq<string>)
    ensures Topics(x, a) == Topics(x, b) <==> SameContent(x, a, b)
  {
    if Topics(x, a) == Topics(x, b) {
      forall w | !Listed(x, w) ensures w in a <==> w in b {
        assert w in Topics(x, a) <==> w in a;
        assert w in Topics(x, b) <==> w in b;
      }
    }
  }

  // ---------------------------------------------------------------------
  // Modes

  predicate Uses(words: seq<string>, list: set<string>) {
    exists i :: 0 <= i < |words| && words[i] in list
  }

  /** They use, or do not use, words of the same lists. */
  ghost predicate SameModes(x: Lexicon, a: seq<string>, b: seq<string>) {
    && (Uses(a, x.examples) || Follows(a, "sample", "code") <==> Uses(b, x.examples) || Follows(b, "sample", "code"))
    && (Uses(a, x.steps) <==> Uses(b, x.steps))
    && (Uses(a, x.comparison) <==> Uses(b, x.comparison))
    && (Uses(a, x.trouble) <==> Uses(b, x.trouble))
    && (Uses(a, x.risks) <==> Uses(b, x.risks))
  }

  ghost predicate Follows(words: seq<string>, first: string, second: string) {
    exists before, after :: words == before + [first, second] + after
  }

  lemma PhraseFollows(words: seq<string>, first: string, second: string)
    ensures HasPhrase(words, first, second) <==> Follows(words, first, second)
  {
    if i :| 0 <= i < |words| - 1 && words[i] == first && words[i + 1] == second {
      assert words == words[..i] + [first, second] + words[i + 2..];
    }
    if before, after :| words == before + [first, second] + after {
      assert words[|before|] == first && words[|before| + 1] == second;
    }
  }

  lemma ModesAreUses(x: Lexicon, words: seq<string>)
    ensures var modes := Modes(x, words);
            && (Examples in modes <==> Uses(words, x.examples) || Follows(words, "sample", "code"))
            && (Steps in modes <==> Uses(words, x.steps))
            && (Comparison in modes <==> Uses(words, x.comparison))
            && (Troubleshooting in modes <==> Uses(words, x.trouble))
            && (Risks in modes <==> Uses(words, x.risks))
            && (Overview in modes <==>
                !(Examples in modes || Steps in modes || Comparison in modes || Troubleshooting in modes
                  || Risks in modes))
  {
    PhraseFollows(words, "sample", "code");
  }

  lemma ModesAreSame(x: Lexicon, a: seq<string>, b: seq<string>)
    ensures Modes(x, a) == Modes(x, b) <==> SameModes(x, a, b)
  {
    hide Modes, Uses, Follows;
    ModesAreUses(x, a);
    ModesAreUses(x, b);
    if SameModes(x, a, b) {
      forall m: Mode ensures m in Modes(x, a) <==> m in Modes(x, b) {
        match m
        case Overview =>
        case Examples =>
        case Steps =>
        case Comparison =>
        case Troubleshooting =>
        case Risks =>
      }
    }
  }

  // ---------------------------------------------------------------------
  // Guards

  /** The guard word turns the meaning of a question: without punctuation around it
      it is a negation, or names a language with a symbol, or has a digit. */
  predicate Turns(u: Unicode, x: Lexicon, raw: string) {
    var word := Text.Trim(raw, Punctuation());
    || (word != "" && Lower(u, word) in x.negations)
    || Symbolic(u, Text.Trim(word, u.isSpace))
    || exists i :: 0 <= i < |word| && u.isDigit(word[i])
  }

  /** How it is compared: a language with its symbol, any other by its query words. */
  predicate Reads(u: Unicode, raw: string, form: string) {
    var word := Text.Trim(Text.Trim(raw, Punctuation()), u.isSpace);
    && form != ""
    && if Symbolic(u, word) then form == Lower(u, word) else form == NormalizedQuery(u, raw)
  }

  predicate TurnedBy(u: Unicode, x: Lexicon, question: string, form: string) {
    exists raw :: raw in RawGuardWords(u, question) && Turns(u, x, raw) && Reads(u, raw, form)
  }

  /** What turns the one turns the other. */
  ghost predicate SameTurns(u: Unicode, x: Lexicon, a: string, b: string) {
    forall form :: TurnedBy(u, x, a, form) <==> TurnedBy(u, x, b, form)
  }

  lemma GuardIsTurn(u: Unicode, x: Lexicon, question: string, form: string)
    ensures form in GuardTokens(u, x, question) <==> TurnedBy(u, x, question, form)
  {
    hide Fields, Symbolic, Text.Trim;
    if raw :| raw in RawGuardWords(u, question) && Turns(u, x, raw) && Reads(u, raw, form) {
      assert GuardToken(u, x, raw);
      assert NormalizedGuard(u, raw) == form;
    }
  }

  lemma GuardsAreTurns(u: Unicode, x: Lexicon, a: string, b: string)
    ensures GuardTokens(u, x, a) == GuardTokens(u, x, b) <==> SameTurns(u, x, a, b)
  {
    hide GuardTokens, TurnedBy;
    forall form ensures form in GuardTokens(u, x, a) <==> TurnedBy(u, x, a, form)
                ensures form in GuardTokens(u, x, b) <==> TurnedBy(u, x, b, form) {
      GuardIsTurn(u, x, a, form);
      GuardIsTurn(u, x, b, form);
    }
  }

  /** The guard words of a question are what stands between characters that no guard
      word has. */
  lemma GuardWordsAreRead(u: Unicode, word: string, gap: char, rest: string)
    requires Word(word, OutsideGuardWord(u)) && OutsideGuardWord(u)(gap)
    ensures RawGuardWords(u, word + ([gap] + rest)) == [word] + RawGuardWords(u, rest)
    ensures RawGuardWords(u, [gap] + rest) == RawGuardWords(u, rest)
    ensures RawGuardWords(u, word) == [word] && RawGuardWords(u, "") == []
  {
    hide Fields, Word;
    FieldsSplit(word, gap, rest, OutsideGuardWord(u));
    FieldsSplit("", gap, rest, OutsideGuardWord(u));
    assert "" + ([gap] + rest) == [gap] + rest;
    FieldsOpens("", OutsideGuardWord(u));
    FieldsOfWord(word, OutsideGuardWord(u));
  }

  // ---------------------------------------------------------------------
  // Questions on two subjects

  const GO := "explain go"
  const RUST := "explain rust"

  lemma LettersArePlain(u: Unicode, w: string)
    requires PlainAscii(u) && Letters(w)
    ensures Plain(u, w) && Word(w, OutsideGuardWord(u))
  {
  }

  lemma TwoWords(u: Unicode, a: string, b: string)
    requires PlainAscii(u) && Letters(a) && Letters(b)
    ensures QueryWords(u, a + ([' '] + b)) == [a, b] && RawGuardWords(u, a + ([' '] + b)) == [a, b]
  {
    hide Fields, Cleaned, QueryWords, RawGuardWords;
    LettersArePlain(u, a);
    LettersArePlain(u, b);
    WordsAreRead(u, a, ' ', b);
    WordsAreRead(u, b, ' ', "");
    GuardWordsAreRead(u, a, ' ', b);
    GuardWordsAreRead(u, b, ' ', "");
  }

  lemma SubjectWords(u: Unicode)
    requires PlainAscii(u)
    ensures QueryWords(u, GO) == ["explain", "go"] && QueryWords(u, RUST) == ["explain", "rust"]
    ensures RawGuardWords(u, GO) == ["explain", "go"] && RawGuardWords(u, RUST) == ["explain", "rust"]
    ensures !Listed(ENGLISH, "go") && "go" in QueryWords(u, GO) && "go" !in QueryWords(u, RUST)
  {
    hide QueryWords, RawGuardWords;
    TwoWords(u, "explain", "go");
    TwoWords(u, "explain", "rust");
    assert GO == "explain" + ([' '] + "go") && RUST == "explain" + ([' '] + "rust");
    assert QueryWords(u, GO)[1] == "go";
  }

  /** Two questions with the same modes and guards that differ in their content. */
  lemma SubjectsTellApart(u: Unicode)
    requires PlainAscii(u)
    ensures SameModes(ENGLISH, QueryWords(u, GO), QueryWords(u, RUST)) && SameTurns(u, ENGLISH, GO, RUST)
    ensures !SameContent(ENGLISH, QueryWords(u, GO), QueryWords(u, RUST))
  {
    hide QueryWords, RawGuardWords, SameModes, TurnedBy;
    SubjectWords(u);
    NoModes("explain", "go");
    NoModes("explain", "rust");
    ModelessAlike(ENGLISH, ["explain", "go"], ["explain", "rust"]);
    forall form ensures !TurnedBy(u, ENGLISH, GO, form) && !TurnedBy(u, ENGLISH, RUST, form) {
      NothingTurns(u, GO, "explain", "go", form);
      NothingTurns(u, RUST, "explain", "rust", form);
    }
  }

  predicate OnModeList(x: Lexicon, w: string) {
    w in x.examples || w in x.steps || w in x.comparison || w in x.trouble || w in x.risks
  }

  lemma NoModes(a: string, b: string)
    requires a in {"explain", "go", "rust"} && b in {"explain", "go", "rust"}
    ensures forall w :: w in [a, b] ==> !OnModeList(ENGLISH, w) && w != "sample"
  {
  }

  lemma ModelessAlike(x: Lexicon, a: seq<string>, b: seq<string>)
    requires forall w :: w in a || w in b ==> !OnModeList(x, w) && w != "sample"
    ensures SameModes(x, a, b)
  {
    NoUse(x, a);
    NoUse(x, b);
    hide Follows, Uses;
  }

  lemma NoUse(x: Lexicon, words: seq<string>)
    requires forall w :: w in words ==> !OnModeList(x, w) && w != "sample"
    ensures !Uses(words, x.examples) && !Uses(words, x.steps) && !Uses(words, x.comparison)
    ensures !Uses(words, x.trouble) && !Uses(words, x.risks) && !Follows(words, "sample", "code")
  {
    FollowsIsIn(words, "sample", "code");
    assert forall i :: 0 <= i < |words| ==> words[i] in words;
  }

  lemma NothingTurns(u: Unicode, question: string, a: string, b: string, form: string)
    requires PlainAscii(u) && RawGuardWords(u, question) == [a, b]
    requires Letters(a) && Letters(b) && a !in ENGLISH.negations && b !in ENGLISH.negations
    ensures !TurnedBy(u, ENGLISH, question, form)
  {
    hide RawGuardWords, Turns, Reads;
    NoTurn(u, a);
    NoTurn(u, b);
  }

  lemma FollowsIsIn(words: seq<string>, first: string, second: string)
    ensures Follows(words, first, second) ==> first in words
  {
    if before, after :| words == before + [first, second] + after {
      assert words[|before|] == first;
    }
  }

  lemma NoTurn(u: Unicode, w: string)
    requires PlainAscii(u) && Letters(w) && w !in ENGLISH.negations
    ensures !Turns(u, ENGLISH, w)
  {
    NothingToTrim(w, Punctuation());
    NothingToTrim(w, u.isSpace);
    assert Lower(u, w) == w;
  }
}
