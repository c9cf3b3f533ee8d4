/**
 Words that a cached answer must share with the question, because they turn its
 meaning: negations, numbers and versions, and languages with a symbol in their name
 (services/answer-service/internal/application/cache.go, guardTokens).
 */
module Guards {
  import opened Prelude
  import opened Text
  import opened Fingerprints

  function Lower(u: Unicode, s: string): string {
    seq(|s|, i requires 0 <= i < |s| => u.toLower(s[i]))
  }

  predicate Alphanumeric(u: Unicode, c: char) {
    u.isLetter(c) || u.isNumber(c)
  }

  predicate Punctuates(c: char) {
    c == '_' || c == '-' || c == '/' || c == '.' || c == ':'
  }

  function Punctuation(): char -> bool {
    c => Punctuates(c)
  }

  function OutsideGuardWord(u: Unicode): char -> bool {
    c => !(Alphanumeric(u, c) || Punctuates(c) || c == '+' || c == '#')
  }

  function RawGuardWords(u: Unicode, question: string): seq<string> {
    Fields(question, OutsideGuardWord(u))
  }

  /** A word such as c++ or f#. */
  predicate Symbolic(u: Unicode, word: string) {
    && word != "" && Alphanumeric(u, word[0])
    && (forall i :: 0 <= i < |word| ==> Alphanumeric(u, word[i]) || word[i] == '+' || word[i] == '#')
    && (exists i :: 0 <= i < |word| && !Alphanumeric(u, word[i]))
  }

  function SymbolicLanguageGuard(u: Unicode, raw: string): Option<string> {
    var word := Text.Trim(Text.Trim(raw, Punctuation()), u.isSpace);
    if Symbolic(u, word) then Some(Lower(u, word)) else None
  }

  predicate GuardToken(u: Unicode, x: Lexicon, raw: string) {
    SymbolicLanguageGuard(u, raw).Some? ||
    var word := Text.Trim(raw, Punctuation());
    word != "" && (Lower(u, word) in x.negations || exists i :: 0 <= i < |word| && u.isDigit(word[i]))
  }

  function NormalizedGuard(u: Unicode, raw: string): string {
    var symbolic := SymbolicLanguageGuard(u, raw);
    if symbolic.Some? then symbolic.value else Join(QueryWords(u, raw), " ")
  }

  function GuardTokens(u: Unicode, x: Lexicon, question: string): set<string> {
    set raw | raw in RawGuardWords(u, question) && NormalizedGuard(u, raw) != ""
        && GuardToken(u, x, raw) :: NormalizedGuard(u, raw)
  }

  // ---------------------------------------------------------------------
  // Guards tell questions apart that normalize alike

  ghost predicate PlainAscii(u: Unicode) {
    && Sane(u)
    && (forall c: char :: 'a' <= c <= 'z' ==> u.isLetter(c) && !u.isNumber(c) && !u.isDigit(c) && u.toLower(c) == c)
    && !u.isLetter('#') && !u.isNumber('#') && !u.isSpace('#') && u.toLower('#') == '#'
    && !u.isLetter(' ') && !u.isNumber(' ') && u.toLower(' ') == ' '
  }

  const SHARP := "c# guide"
  const PLAIN := "c guide"

  /** Two questions, one normalized form, different guards. */
  lemma GuardsTellApart(u: Unicode)
    requires PlainAscii(u)
    ensures QueryWords(u, SHARP) == QueryWords(u, PLAIN)
    ensures GuardTokens(u, ENGLISH, SHARP) != GuardTokens(u, ENGLISH, PLAIN)
  {
    hide *;
    CleanQuestions(u);
    SharpWords(u);
    PlainWords(u);
    SharpGuard(u);
    PlainGuardless(u);
    OneGuardMore(u, SHARP, "c#", "guide", PLAIN, "c", "guide");
  }

  lemma PlainGuardless(u: Unicode)
    requires PlainAscii(u)
    ensures !GuardToken(u, ENGLISH, "c") && !GuardToken(u, ENGLISH, "guide")
  {
    hide GuardToken;
    NoGuard(u, "c");
    NoGuard(u, "guide");
  }

  lemma OneGuardMore(u: Unicode, a: string, x: string, y: string, b: string, v: string, w: string)
    requires RawGuardWords(u, a) == [x, y] && GuardToken(u, ENGLISH, x) && NormalizedGuard(u, x) != ""
    requires RawGuardWords(u, b) == [v, w] && !GuardToken(u, ENGLISH, v) && !GuardToken(u, ENGLISH, w)
    ensures GuardTokens(u, ENGLISH, a) != GuardTokens(u, ENGLISH, b)
  {
    hide RawGuardWords, GuardToken, NormalizedGuard;
    assert RawGuardWords(u, a)[0] == x;
    assert NormalizedGuard(u, x) in GuardTokens(u, ENGLISH, a);
    assert GuardTokens(u, ENGLISH, b) == {};
  }

  lemma CleanQuestions(u: Unicode)
    requires PlainAscii(u)
    ensures QueryWords(u, SHARP) == QueryWords(u, PLAIN)
  {
    CleanedJoins(u, "c#", " guide");
    CleanedJoins(u, "c", " guide");
    assert SHARP == "c#" + " guide" && PLAIN == "c" + " guide";
    assert Cleaned(u, "c") == "c" by { assert "c"[1..] == ""; }
    assert Cleaned(u, "c#") == "c " by { assert "c#"[1..] == "#" && "#"[1..] == ""; }
    assert Cleaned(u, " guide") == " " + Cleaned(u, "guide") by { assert " guide"[1..] == "guide"; }
    var rest := Cleaned(u, "guide");
    assert Cleaned(u, SHARP) == "c" + ([' '] + (" " + rest));
    assert Cleaned(u, PLAIN) == "c" + ([' '] + rest);
    FieldsSplit("c", ' ', " " + rest, u.isSpace);
    FieldsSplit("c", ' ', rest, u.isSpace);
    assert (" " + rest)[1..] == rest;
  }

  lemma {:induction false} CleanedJoins(u: Unicode, a: string, b: string)
    ensures Cleaned(u, a + b) == Cleaned(u, a) + Cleaned(u, b)
    decreases |a|
  {
    if a == "" {
      assert a + b == b;
    } else {
      assert (a + b)[0] == a[0] && (a + b)[1..] == a[1..] + b;
      CleanedJoins(u, a[1..], b);
    }
  }

  /** Plain small letters. */
  predicate Letters(w: string) {
    w != "" && forall i :: 0 <= i < |w| ==> 'a' <= w[i] <= 'z'
  }

  lemma LetterWord(u: Unicode, w: string)
    requires PlainAscii(u) && Letters(w)
    ensures Word(w, OutsideGuardWord(u)) && Word(w, u.isSpace)
  {
  }

  lemma TwoFields(a: string, b: string, separator: char -> bool)
    requires Word(a, separator) && Word(b, separator) && separator(' ')
    ensures Fields(a + ([' '] + b), separator) == [a, b]
  {
    hide Fields, Word;
    FieldsSplit(a, ' ', b, separator);
    FieldsOfWord(a, separator);
    FieldsOfWord(b, separator);
  }

  lemma SharpWords(u: Unicode)
    requires PlainAscii(u)
    ensures RawGuardWords(u, SHARP) == ["c#", "guide"]
  {
    hide Fields;
    LetterWord(u, "guide");
    assert Word("c#", OutsideGuardWord(u));
    assert OutsideGuardWord(u)(' ');
    TwoFields("c#", "guide", OutsideGuardWord(u));
    assert SHARP == "c#" + ([' '] + "guide");
  }

  lemma PlainWords(u: Unicode)
    requires PlainAscii(u)
    ensures RawGuardWords(u, PLAIN) == ["c", "guide"]
  {
    hide Fields;
    LetterWord(u, "c");
    LetterWord(u, "guide");
    assert OutsideGuardWord(u)(' ');
    TwoFields("c", "guide", OutsideGuardWord(u));
    assert PLAIN == "c" + ([' '] + "guide");
  }

  lemma NothingToTrim(s: string, p: char -> bool)
    requires s != "" && !p(s[0]) && !p(s[|s| - 1])
    ensures Text.Trim(s, p) == s
  {
  }

  lemma SharpGuard(u: Unicode)
    requires PlainAscii(u)
    ensures GuardToken(u, ENGLISH, "c#") && NormalizedGuard(u, "c#") == "c#"
  {
    NothingToTrim("c#", Punctuation());
    NothingToTrim("c#", u.isSpace);
    assert !Alphanumeric(u, "c#"[1]) && Symbolic(u, "c#");
    assert Lower(u, "c#") == "c#";
  }

  lemma NoGuard(u: Unicode, w: string)
    requires PlainAscii(u) && Letters(w) && w !in ENGLISH.negations
    ensures !GuardToken(u, ENGLISH, w)
  {
    NothingToTrim(w, Punctuation());
    NothingToTrim(w, u.isSpace);
    assert Lower(u, w) == w;
  }
}
