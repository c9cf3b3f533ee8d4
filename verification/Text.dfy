/**
 The string functions that the Answer service relies on, and the two framings
 that it feeds to its hash
 (services/answer-service/internal/application/cache.go, fingerprintFields and %q).

 A string is its sequence of Unicode characters. The tables that classify
 characters are a parameter.
 */
module Text {

  datatype Unicode = Unicode(
    isLetter: char -> bool, isNumber: char -> bool, isDigit: char -> bool, isSpace: char -> bool, isPrint: char -> bool,
    isControl: char -> bool, isFormat: char -> bool, toLower: char -> char)

  ghost predicate Sane(u: Unicode) {
    u.isSpace(' ') && forall c: char :: u.isLetter(c) || u.isNumber(c) ==> !u.isSpace(c)
  }

  /** Bytes of one character in UTF-8. */
  function Width(c: char): (w: nat)
    ensures 1 <= w <= 4
  {
    if c < '\U{80}' then 1 else if c < '\U{800}' then 2 else if c < '\U{10000}' then 3 else 4
  }

  /** len(s) */
  function Size(s: string): nat {
    if s == "" then 0 else Width(s[0]) + Size(s[1..])
  }

  lemma {:induction false} SizeAtLeastRunes(s: string)
    ensures |s| <= Size(s)
  {
    if s != "" {
      SizeAtLeastRunes(s[1..]);
    }
  }

  /** Two strings of equal size cannot start the same text unless they are equal. */
  lemma {:induction false} SizedCancels(a: string, b: string, x: string, y: string)
    requires a + x == b + y && Size(a) == Size(b)
    ensures a == b && x == y
    decreases |a|
  {
    if a == "" {
      SizeAtLeastRunes(b);
      assert a + x == x && b + y == y;
    } else {
      SizeAtLeastRunes(a);
      assert b != "";
      assert (a + x)[0] == a[0] && (b + y)[0] == b[0];
      assert (a + x)[1..] == a[1..] + x && (b + y)[1..] == b[1..] + y;
      SizedCancels(a[1..], b[1..], x, y);
    }
  }

  predicate All(s: string, p: char -> bool) {
    forall i :: 0 <= i < |s| ==> p(s[i])
  }

  predicate Stops(s: string, p: char -> bool) {
    s == "" || !p(s[0])
  }

  lemma RunOpens(a: string, x: string, p: char -> bool)
    requires All(a, p) && Stops(x, p)
    ensures a == "" <==> Stops(a + x, p)
  {
    assert a == "" ==> a + x == x;
    assert a != "" ==> (a + x)[0] == a[0];
  }

  /** The longest run of p's characters at the start of a text is unique. */
  lemma {:induction false} RunCancels(a: string, b: string, x: string, y: string, p: char -> bool)
    requires a + x == b + y && All(a, p) && All(b, p) && Stops(x, p) && Stops(y, p)
    ensures a == b && x == y
    decreases |a|
  {
    RunOpens(a, x, p);
    RunOpens(b, y, p);
    if a == "" || b == "" {
      assert "" + x == x && "" + y == y;
    } else {
      assert (a + x)[0] == a[0] && (b + y)[0] == b[0];
      assert (a + x)[1..] == a[1..] + x && (b + y)[1..] == b[1..] + y;
      RunCancels(a[1..], b[1..], x, y, p);
    }
  }

  // ---------------------------------------------------------------------
  // Words

  function Run(s: string, stop: char -> bool): (n: nat)
    ensures n <= |s| && (forall i :: 0 <= i < n ==> !stop(s[i])) && (n < |s| ==> stop(s[n]))
  {
    if s == "" || stop(s[0]) then 0 else 1 + Run(s[1..], stop)
  }

  /** strings.FieldsFunc; strings.Fields when the separators are the spaces. */
  function Fields(s: string, separator: char -> bool): seq<string>
    decreases |s|
  {
    if s == "" then []
    else if separator(s[0]) then Fields(s[1..], separator)
    else
      var n := Run(s, separator);
      [s[..n]] + Fields(s[n..], separator)
  }

  predicate Word(w: string, separator: char -> bool) {
    w != "" && All(w, c => !separator(c))
  }

  predicate Words(ws: seq<string>, separator: char -> bool) {
    forall i :: 0 <= i < |ws| ==> Word(ws[i], separator)
  }

  lemma {:induction false} FieldsAreWords(s: string, separator: char -> bool)
    ensures Words(Fields(s, separator), separator)
    decreases |s|
  {
    if s != "" {
      if separator(s[0]) {
        FieldsAreWords(s[1..], separator);
      } else {
        var n := Run(s, separator);
        FieldsAreWords(s[n..], separator);
        assert Word(s[..n], separator);
      }
    }
  }

  lemma FieldsOpens(s: string, p: char -> bool)
    ensures s == "" ==> Fields(s, p) == []
    ensures s != "" && p(s[0]) ==> Fields(s, p) == Fields(s[1..], p)
    ensures s != "" && !p(s[0]) ==> 0 < Run(s, p) && Fields(s, p) == [s[..Run(s, p)]] + Fields(s[Run(s, p)..], p)
  {
  }

  lemma {:induction false} FieldsSplit(a: string, c: char, b: string, p: char -> bool)
    requires p(c)
    ensures Fields(a + ([c] + b), p) == Fields(a, p) + Fields(b, p)
    decreases |a|
  {
    hide Fields, Run;
    var whole := a + ([c] + b);
    FieldsOpens(whole, p);
    FieldsOpens(a, p);
    if a == "" {
      assert whole[1..] == b;
    } else if p(a[0]) {
      assert whole[1..] == a[1..] + ([c] + b);
      FieldsSplit(a[1..], c, b, p);
    } else {
      RunSplit(a, c, b, p);
      var n := Run(a, p);
      assert whole[..n] == a[..n] && whole[n..] == a[n..] + ([c] + b);
      FieldsSplit(a[n..], c, b, p);
    }
  }

  lemma {:induction false} RunSplit(a: string, c: char, b: string, p: char -> bool)
    requires p(c)
    ensures Run(a + ([c] + b), p) == Run(a, p)
    decreases |a|
  {
    if a != "" && !p(a[0]) {
      assert (a + ([c] + b))[1..] == a[1..] + ([c] + b);
      RunSplit(a[1..], c, b, p);
    } else if a == "" {
      assert (a + ([c] + b))[0] == c;
    }
  }

  lemma {:induction false} FieldsOfWord(w: string, p: char -> bool)
    requires Word(w, p)
    ensures Fields(w, p) == [w]
  {
    RunOfWord(w, p);
    assert w[..|w|] == w && w[|w|..] == "";
  }

  lemma {:induction false} RunOfWord(w: string, p: char -> bool)
    requires All(w, c => !p(c))
    ensures Run(w, p) == |w|
    decreases |w|
  {
    if w != "" {
      assert All(w[1..], c => !p(c));
      RunOfWord(w[1..], p);
    }
  }

  function Join(ws: seq<string>, gap: string): string {
    if ws == [] then "" else if |ws| == 1 then ws[0] else ws[0] + gap + Join(ws[1..], gap)
  }

  function NotSpace(): char -> bool { c => c != ' ' }

  lemma JoinIsNotEmpty(ws: seq<string>, separator: char -> bool)
    requires Words(ws, separator)
    ensures Join(ws, " ") == "" <==> ws == []
  {
    assert ws != [] ==> Word(ws[0], separator);
  }

  /** Joining words that have no space of their own is injective. */
  lemma {:induction false} JoinCancels(a: seq<string>, b: seq<string>, separator: char -> bool)
    requires Join(a, " ") == Join(b, " ") && separator(' ') && Words(a, separator) && Words(b, separator)
    ensures a == b
    decreases |a|
  {
    JoinIsNotEmpty(a, separator);
    JoinIsNotEmpty(b, separator);
    if a != [] {
      hide Join, Words;
      JoinOpens(a, separator);
      JoinOpens(b, separator);
      RunCancels(a[0], b[0], JoinRest(a), JoinRest(b), NotSpace());
      if |a| > 1 {
        assert JoinRest(a)[1..] == Join(a[1..], " ") && JoinRest(b)[1..] == Join(b[1..], " ");
        JoinCancels(a[1..], b[1..], separator);
      }
      assert a == [a[0]] + a[1..] && b == [b[0]] + b[1..];
    }
  }

  function JoinRest(ws: seq<string>): string
    requires ws != []
  {
    if |ws| == 1 then "" else " " + Join(ws[1..], " ")
  }

  lemma JoinOpens(ws: seq<string>, separator: char -> bool)
    requires ws != [] && Words(ws, separator) && separator(' ')
    ensures Join(ws, " ") == ws[0] + JoinRest(ws)
    ensures All(ws[0], NotSpace()) && Stops(JoinRest(ws), NotSpace())
    ensures Words(ws[1..], separator)
  {
    assert Word(ws[0], separator);
    assert forall i :: 0 <= i < |ws| - 1 ==> ws[1..][i] == ws[i + 1];
  }

  function TrimLeft(s: string, space: char -> bool): (t: string)
    ensures |t| <= |s|
  {
    if s != "" && space(s[0]) then TrimLeft(s[1..], space) else s
  }

  function TrimRight(s: string, space: char -> bool): (t: string)
    ensures |t| <= |s|
  {
    if s != "" && space(s[|s| - 1]) then TrimRight(s[..|s| - 1], space) else s
  }

  /** strings.TrimSpace */
  function Trim(s: string, space: char -> bool): (t: string)
    ensures |t| <= |s|
  {
    TrimRight(TrimLeft(s, space), space)
  }

  lemma {:induction false} TrimLeftExactly(s: string, space: char -> bool) returns (a: string)
    ensures s == a + TrimLeft(s, space) && All(a, space)
    ensures TrimLeft(s, space) != "" ==> !space(TrimLeft(s, space)[0])
    decreases |s|
  {
    a := "";
    if s != "" && space(s[0]) {
      var rest := TrimLeftExactly(s[1..], space);
      a := [s[0]] + rest;
    }
  }

  lemma {:induction false} TrimRightExactly(s: string, space: char -> bool) returns (b: string)
    ensures s == TrimRight(s, space) + b && All(b, space)
    ensures TrimRight(s, space) != "" ==> !space(TrimRight(s, space)[|TrimRight(s, space)| - 1])
    decreases |s|
  {
    b := "";
    if s != "" && space(s[|s| - 1]) {
      var rest := TrimRightExactly(s[..|s| - 1], space);
      b := rest + [s[|s| - 1]];
      assert s == s[..|s| - 1] + [s[|s| - 1]];
    }
  }

  /** What is trimmed off is space, and what stays has none at its ends. */
  lemma TrimExactly(s: string, space: char -> bool) returns (a: string, b: string)
    ensures var t := Trim(s, space);
            && s == a + t + b && All(a, space) && All(b, space)
            && (t != "" ==> !space(t[0]) && !space(t[|t| - 1]))
            && (t == "" <==> All(s, space))
  {
    hide TrimLeft, TrimRight;
    a := TrimLeftExactly(s, space);
    b := TrimRightExactly(TrimLeft(s, space), space);
    var t := Trim(s, space);
    if t != "" {
      assert TrimLeft(s, space)[0] == t[0];
      assert s[|a|] == t[0];
    }
  }

  // ---------------------------------------------------------------------
  // Decimal numbers

  function Digit(n: nat): char
    requires n < 10
  {
    ['0', '1', '2', '3', '4', '5', '6', '7', '8', '9'][n]
  }

  function IsDigit(): char -> bool { c => '0' <= c <= '9' }

  function Decimal(n: nat): string {
    if n < 10 then [Digit(n)] else Decimal(n / 10) + [Digit(n % 10)]
  }

  function Signed(n: int): string {
    if n < 0 then "-" + Decimal(-n) else Decimal(n)
  }

  lemma {:induction false} DecimalIsDigits(n: nat)
    ensures Decimal(n) != "" && All(Decimal(n), IsDigit())
  {
    if n >= 10 {
      DecimalIsDigits(n / 10);
    }
  }

  lemma DecimalEnds(n: nat)
    ensures var s := Decimal(n);
            |s| > 0 && s[|s| - 1] == Digit(n % 10) && s[..|s| - 1] == (if n < 10 then "" else Decimal(n / 10))
                && (|s| == 1 <==> n < 10)
  {
    DecimalIsDigits(n / 10);
  }

  lemma DigitInjective(m: nat, n: nat)
    requires m < 10 && n < 10 && Digit(m) == Digit(n)
    ensures m == n
  {
  }

  lemma {:induction false} DecimalInjective(m: nat, n: nat)
    requires Decimal(m) == Decimal(n)
    ensures m == n
  {
    hide Digit;
    DecimalEnds(m);
    DecimalEnds(n);
    var a, b := Decimal(m), Decimal(n);
    DigitInjective(m % 10, n % 10);
    if m >= 10 && n >= 10 {
      DecimalInjective(m / 10, n / 10);
    }
  }

  lemma SignedInjective(m: int, n: int)
    requires Signed(m) == Signed(n)
    ensures m == n
  {
    DecimalIsDigits(if m < 0 then -m else m);
    DecimalIsDigits(if n < 0 then -n else n);
    assert m < 0 ==> Signed(m)[0] == '-' && Signed(m)[1..] == Decimal(-m);
    assert n < 0 ==> Signed(n)[0] == '-' && Signed(n)[1..] == Decimal(-n);
    if m < 0 && n < 0 {
      DecimalInjective(-m, -n);
    } else if m >= 0 && n >= 0 {
      DecimalInjective(m, n);
    }
  }

  lemma SignedIsNotEmpty(n: int)
    ensures Signed(n) != ""
  {
    DecimalIsDigits(if n < 0 then -n else n);
  }

  lemma DecimalCancels(m: nat, n: nat, x: string, y: string)
    requires Decimal(m) + x == Decimal(n) + y && Stops(x, IsDigit()) && Stops(y, IsDigit())
    ensures m == n && x == y
  {
    DecimalIsDigits(m);
    DecimalIsDigits(n);
    RunCancels(Decimal(m), Decimal(n), x, y, IsDigit());
    DecimalInjective(m, n);
  }

  // ---------------------------------------------------------------------
  // Length-prefixed framing

  function Framed(values: seq<string>): string {
    if values == [] then "" else Decimal(Size(values[0])) + (":" + (values[0] + Framed(values[1..])))
  }

  /** Any two lists of values frame to the same text only if they are equal. */
  lemma {:induction false} FramedInjective(a: seq<string>, b: seq<string>)
    requires Framed(a) == Framed(b)
    ensures a == b
    decreases |a|
  {
    if a == [] || b == [] {
      assert a != [] ==> Framed(a) != "" by { FramedIsNotEmpty(a); }
      assert b != [] ==> Framed(b) != "" by { FramedIsNotEmpty(b); }
    } else {
      var x, y := a[0] + Framed(a[1..]), b[0] + Framed(b[1..]);
      DecimalCancels(Size(a[0]), Size(b[0]), ":" + x, ":" + y);
      assert (":" + x)[1..] == x && (":" + y)[1..] == y;
      SizedCancels(a[0], b[0], Framed(a[1..]), Framed(b[1..]));
      FramedInjective(a[1..], b[1..]);
      assert a == [a[0]] + a[1..] && b == [b[0]] + b[1..];
    }
  }

  lemma FramedIsNotEmpty(a: seq<string>)
    ensures a != [] ==> Framed(a) != ""
  {
    if a != [] {
      DecimalIsDigits(Size(a[0]));
    }
  }

  // ---------------------------------------------------------------------
  // Go's %q

  function HexDigit(n: nat): char
    requires n < 16
  {
    "0123456789abcdef"[n]
  }

  function Hex(n: nat, digits: nat): (s: string)
    ensures |s| == digits
  {
    if digits == 0 then "" else Hex(n / 16, digits - 1) + [HexDigit(n % 16)]
  }

  function Power16(k: nat): nat {
    if k == 0 then 1 else 16 * Power16(k - 1)
  }

  lemma {:induction false} HexInjective(m: nat, n: nat, digits: nat)
    requires Hex(m, digits) == Hex(n, digits) && m < Power16(digits) && n < Power16(digits)
    ensures m == n
    decreases digits
  {
    if digits > 0 {
      var a, b := Hex(m, digits), Hex(n, digits);
      assert a[digits - 1] == HexDigit(m % 16) && b[digits - 1] == HexDigit(n % 16);
      assert a[..digits - 1] == Hex(m / 16, digits - 1) && b[..digits - 1] == Hex(n / 16, digits - 1);
      HexInjective(m / 16, n / 16, digits - 1);
    }
  }

  /** The letter that follows the backslash, for the characters that have one. */
  function Short(c: char): (letter: char) {
    if c == '\U{7}' then 'a' else if c == '\U{8}' then 'b' else if c == '\U{c}' then 'f'
    else if c == '\n' then 'n' else if c == '\r' then 'r' else if c == '\t' then 't'
    else if c == '\U{b}' then 'v' else 'x'
  }

  function Escaped(u: Unicode, c: char): (code: string) {
    if c == '"' || c == '\\' then ['\\', c]
    else if u.isPrint(c) then [c]
    else if Short(c) != 'x' then ['\\', Short(c)]
    else if c < ' ' || c == '\U{7f}' then "\\x" + Hex(c as nat, 2)
    else if c < '\U{10000}' then "\\u" + Hex(c as nat, 4)
    else "\\U" + Hex(c as nat, 8)
  }

  function Body(u: Unicode, s: string): string {
    if s == "" then "" else Escaped(u, s[0]) + Body(u, s[1..])
  }

  function Quote(u: Unicode, s: string): string {
    "\"" + (Body(u, s) + "\"")
  }

  function Quoted(u: Unicode, values: seq<string>): string {
    if values == [] then "" else Quote(u, values[0]) + Quoted(u, values[1..])
  }

  /** How many characters the escape that starts here has. */
  function CodeLength(s: string): nat
    requires s != "" && (s[0] == '\\' ==> |s| > 1)
  {
    if s[0] != '\\' then 1 else if s[1] == 'x' then 4 else if s[1] == 'u' then 6 else if s[1] == 'U' then 10 else 2
  }

  lemma EscapeShape(u: Unicode, c: char, x: string)
    ensures var s := Escaped(u, c) + x;
            && |Escaped(u, c)| > 0 && Escaped(u, c)[0] != '"'
            && (s[0] == '\\' ==> |s| > 1)
            && |Escaped(u, c)| == CodeLength(s)
  {
    var code := Escaped(u, c);
    assert (code + x)[0] == code[0];
    assert |code| > 1 ==> (code + x)[1] == code[1];
  }

  lemma EscapeInjective(u: Unicode, c: char, d: char)
    requires Escaped(u, c) == Escaped(u, d)
    ensures c == d
  {
    var a, b := Escaped(u, c), Escaped(u, d);
    if |a| >= 4 {
      assert a[2..] == Hex(c as nat, |a| - 2) && b[2..] == Hex(d as nat, |a| - 2);
      assert Power16(2) == 256;
      assert Power16(4) == 65536;
      assert Power16(8) == 4294967296 by {
        assert Power16(6) == 16777216;
      }
      HexInjective(c as nat, d as nat, |a| - 2);
    } else {
      assert a[0] == b[0];
      assert |a| == 2 ==> a[1] == b[1];
    }
  }

  /** No escape opens another one. */
  lemma EscapeCancels(u: Unicode, c: char, d: char, x: string, y: string)
    requires Escaped(u, c) + x == Escaped(u, d) + y
    ensures c == d && x == y
  {
    EscapeShape(u, c, x);
    EscapeShape(u, d, y);
    var s := Escaped(u, c) + x;
    var n := CodeLength(s);
    assert s[..n] == Escaped(u, c) && s[..n] == Escaped(u, d);
    assert s[n..] == x && s[n..] == y;
    EscapeInjective(u, c, d);
  }

  lemma Regroup(a: string, b: string, c: string)
    ensures (a + b) + c == a + (b + c)
  {
  }

  lemma BodyOpens(u: Unicode, a: string, x: string)
    ensures var s := Body(u, a) + ("\"" + x);
            && (a == "" <==> s[0] == '"')
            && (a != "" ==> s == Escaped(u, a[0]) + (Body(u, a[1..]) + ("\"" + x)))
  {
    hide Escaped, CodeLength;
    if a != "" {
      var rest := Body(u, a[1..]);
      EscapeShape(u, a[0], rest + ("\"" + x));
      Regroup(Escaped(u, a[0]), rest, "\"" + x);
    }
  }

  lemma {:induction false} BodyCancels(u: Unicode, a: string, b: string, x: string, y: string)
    requires Body(u, a) + ("\"" + x) == Body(u, b) + ("\"" + y)
    ensures a == b && x == y
    decreases |a|
  {
    hide Escaped;
    BodyOpens(u, a, x);
    BodyOpens(u, b, y);
    if a == "" {
      assert ("\"" + x)[1..] == x && ("\"" + y)[1..] == y;
      assert "" + ("\"" + x) == "\"" + x && "" + ("\"" + y) == "\"" + y;
    } else {
      var v, w := Body(u, a[1..]) + ("\"" + x), Body(u, b[1..]) + ("\"" + y);
      EscapeCancels(u, a[0], b[0], v, w);
      BodyCancels(u, a[1..], b[1..], x, y);
      assert a == [a[0]] + a[1..] && b == [b[0]] + b[1..];
    }
  }

  lemma QuoteTail(u: Unicode, a: string, x: string)
    ensures (Quote(u, a) + x)[1..] == Body(u, a) + ("\"" + x)
  {
    hide Body;
  }

  lemma QuoteCancels(u: Unicode, a: string, b: string, x: string, y: string)
    requires Quote(u, a) + x == Quote(u, b) + y
    ensures a == b && x == y
  {
    hide Body;
    QuoteTail(u, a, x);
    QuoteTail(u, b, y);
    BodyCancels(u, a, b, x, y);
  }

  /** Quoted values written one after the other can be told apart again. */
  lemma {:induction false} QuotedInjective(u: Unicode, a: seq<string>, b: seq<string>)
    requires Quoted(u, a) == Quoted(u, b)
    ensures a == b
    decreases |a|
  {
    if a != [] && b != [] {
      QuoteCancels(u, a[0], b[0], Quoted(u, a[1..]), Quoted(u, b[1..]));
      QuotedInjective(u, a[1..], b[1..]);
      assert a == [a[0]] + a[1..] && b == [b[0]] + b[1..];
    }
  }

  // ---------------------------------------------------------------------
  // sort.Strings

  /** UTF-8 keeps the order of characters, so comparing bytes compares these. */
  predicate AtMost(a: string, b: string)
    decreases |a|
  {
    a == "" || (b != "" && (a[0] < b[0] || (a[0] == b[0] && AtMost(a[1..], b[1..]))))
  }

  lemma {:induction false} AtMostTotal(a: string, b: string)
    ensures AtMost(a, b) || AtMost(b, a)
    ensures AtMost(a, b) && AtMost(b, a) ==> a == b
    decreases |a|
  {
    if a != "" && b != "" {
      AtMostTotal(a[1..], b[1..]);
      assert a == [a[0]] + a[1..] && b == [b[0]] + b[1..];
    }
  }

  lemma {:induction false} AtMostTransitive(a: string, b: string, c: string)
    requires AtMost(a, b) && AtMost(b, c)
    ensures AtMost(a, c)
    decreases |a|
  {
    if a != "" && a[0] == b[0] == c[0] {
      AtMostTransitive(a[1..], b[1..], c[1..]);
    }
  }

  predicate Sorted(s: seq<string>) {
    forall i, j :: 0 <= i < j < |s| ==> AtMost(s[i], s[j])
  }

  function Insert(x: string, s: seq<string>): seq<string> {
    if s == [] || AtMost(x, s[0]) then [x] + s else [s[0]] + Insert(x, s[1..])
  }

  function Sort(s: seq<string>): seq<string> {
    if s == [] then [] else Insert(s[0], Sort(s[1..]))
  }

  lemma {:induction false} InsertAdds(x: string, s: seq<string>)
    ensures multiset(Insert(x, s)) == multiset(s) + multiset{x}
    decreases |s|
  {
    if s != [] && !AtMost(x, s[0]) {
      InsertAdds(x, s[1..]);
      assert s == [s[0]] + s[1..];
    }
  }

  lemma {:induction false} InsertSorts(x: string, s: seq<string>)
    requires Sorted(s)
    ensures Sorted(Insert(x, s))
    decreases |s|
  {
    if s == [] {
    } else if AtMost(x, s[0]) {
      forall i | 0 <= i < |s| ensures AtMost(x, s[i]) {
        if i > 0 {
          AtMostTransitive(x, s[0], s[i]);
        }
      }
    } else {
      hide AtMost;
      var rest := s[1..];
      InsertSorts(x, rest);
      InsertAdds(x, rest);
      AtMostTotal(x, s[0]);
      var r := Insert(x, rest);
      forall i | 0 <= i < |r| ensures AtMost(s[0], r[i]) {
        assert r[i] in multiset(r);
        if r[i] != x {
          assert r[i] in multiset(rest);
          var k :| 0 <= k < |rest| && rest[k] == r[i];
          assert s[k + 1] == r[i];
        }
      }
    }
  }

  lemma {:induction false} SortSorts(s: seq<string>)
    ensures Sorted(Sort(s)) && multiset(Sort(s)) == multiset(s)
    decreases |s|
  {
    if s != [] {
      SortSorts(s[1..]);
      InsertSorts(s[0], Sort(s[1..]));
      InsertAdds(s[0], Sort(s[1..]));
      assert s == [s[0]] + s[1..];
    }
  }

  lemma {:induction false} SortedUnique(a: seq<string>, b: seq<string>)
    requires Sorted(a) && Sorted(b) && multiset(a) == multiset(b)
    ensures a == b
    decreases |a|
  {
    assert |a| == |multiset(a)| == |b|;
    if a != [] {
      assert a[0] in multiset(b) && b[0] in multiset(a);
      assert AtMost(b[0], a[0]) by { AtMostTotal(a[0], a[0]); }
      assert AtMost(a[0], b[0]) by { AtMostTotal(b[0], b[0]); }
      AtMostTotal(a[0], b[0]);
      assert a == [a[0]] + a[1..] && b == [b[0]] + b[1..];
      assert multiset(a[1..]) == multiset(a) - multiset{a[0]};
      SortedUnique(a[1..], b[1..]);
    }
  }

  /** Sorted lists are equal exactly when the lists are permutations. */
  lemma SortEqual(a: seq<string>, b: seq<string>)
    ensures Sort(a) == Sort(b) <==> multiset(a) == multiset(b)
  {
    SortSorts(a);
    SortSorts(b);
    if multiset(a) == multiset(b) {
      SortedUnique(Sort(a), Sort(b));
    }
  }
}
