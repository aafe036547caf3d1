/** Compiler errors and their rendering as text: the kind of the error, a
    locator line, the offending source line, and a caret under the column. */
module Errors {

  datatype LexicalErrorKind =
    | UnexpectedCharacter
    | InvalidFloatLiteral
    | InvalidCharLiteral
    | InvalidStringLiteral
    | InvalidEscapeCode

  datatype ErrorKind = Lexical(lexical: LexicalErrorKind) | Syntax

  /** An error at a line and character of a named input; `line` is the text of
      the offending source line. */
  datatype Error = Error(kind: ErrorKind, lineNumber: nat, charNumber: nat, line: string, inputSourceName: string)

  // ---------------------------------------------------------------------------
  // Text helpers

  predicate IsDigits(s: string)
  {
    forall i :: 0 <= i < |s| ==> '0' <= s[i] <= '9'
  }

  function DigitChar(d: nat): (c: char)
    requires d < 10
    ensures '0' <= c <= '9' && c as int - '0' as int == d
  {
    (d + '0' as int) as char
  }

  /** Decimal notation of `n`, as Rust's `Display` writes an unsigned integer. */
  function NatToString(n: nat): (s: string)
    ensures |s| >= 1 && IsDigits(s)
    ensures s[0] == '0' ==> n == 0 && s == "0"
    decreases n
  {
    if n < 10 then [DigitChar(n)] else NatToString(n / 10) + [DigitChar(n % 10)]
  }

  /** The value of a string of decimal digits. */
  function ParseDecimal(s: string): nat
    requires IsDigits(s)
    decreases |s|
  {
    if s == [] then 0 else ParseDecimal(s[..|s| - 1]) * 10 + (s[|s| - 1] as int - '0' as int)
  }

  /** Reading the decimal notation of `n` gives back `n`. */
  lemma {:induction false} NatToStringRoundTrip(n: nat)
    ensures ParseDecimal(NatToString(n)) == n
    decreases n
  {
    if n >= 10 {
      var s := NatToString(n);
      assert s[..|s| - 1] == NatToString(n / 10);
      NatToStringRoundTrip(n / 10);
    }
  }

  lemma NatToStringInjective(m: nat, n: nat)
    ensures NatToString(m) == NatToString(n) <==> m == n
  {
    NatToStringRoundTrip(m);
    NatToStringRoundTrip(n);
  }

  /** `" ".repeat(n)` */
  function Spaces(n: nat): (s: string)
    ensures |s| == n && forall i :: 0 <= i < n ==> s[i] == ' '
  {
    if n == 0 then "" else Spaces(n - 1) + " "
  }

  /** The text followed by a line break, as `writeln!` writes it. */
  function Line(s: string): string
  {
    s + "\n"
  }

  /** The index of the first `c` in `s`, or |s| when there is none. */
  function IndexOf(s: string, c: char): (i: nat)
    ensures i <= |s|
    ensures forall j :: 0 <= j < i ==> s[j] != c
    ensures i < |s| ==> s[i] == c
    decreases |s|
  {
    if s == [] then 0
    else if s[0] == c then 0
    else
      var i := IndexOf(s[1..], c);
      assert forall j :: 1 <= j < i + 1 ==> s[j] == s[1..][j - 1];
      i + 1
  }

  lemma IndexOfAfter(a: string, c: char, x: string)
    requires c !in a
    ensures IndexOf(a + [c] + x, c) == |a|
  {
    var s := a + [c] + x;
    var i := IndexOf(s, c);
    assert s[|a|] == c;
    assert forall j :: 0 <= j < |a| ==> s[j] == a[j];
  }

  /** Two texts cut at their first `c` agree on both sides of it. */
  lemma SplitAtFirst(a1: string, x1: string, a2: string, x2: string, c: char)
    requires c !in a1 && c !in a2
    requires a1 + [c] + x1 == a2 + [c] + x2
    ensures a1 == a2 && x1 == x2
  {
    IndexOfAfter(a1, c, x1);
    IndexOfAfter(a2, c, x2);
    var s := a1 + [c] + x1;
    assert s[..|a1|] == a1 && s[|a1| + 1..] == x1;
    assert s[..|a2|] == a2 && s[|a2| + 1..] == x2;
  }

  /** The lines of a text, each without its line break; a last line with no
      line break counts too. */
  function Lines(s: string): seq<string>
    decreases |s|
  {
    if s == [] then []
    else
      var i := IndexOf(s, '\n');
      if i == |s| then [s] else [s[..i]] + Lines(s[i + 1..])
  }

  lemma LinesOfLine(a: string, rest: string)
    requires '\n' !in a
    ensures Lines(Line(a) + rest) == [a] + Lines(rest)
  {
    var s := Line(a) + rest;
    assert s == a + ['\n'] + rest;
    IndexOfAfter(a, '\n', rest);
    assert s[..|a|] == a && s[|a| + 1..] == rest;
  }

  // ---------------------------------------------------------------------------
  // Rendering

  /** `Display` of a lexical error kind. */
  function LexicalErrorKindToString(k: LexicalErrorKind): string
  {
    match k
    case UnexpectedCharacter => "unexpected character in input"
    case InvalidFloatLiteral => "invalid floating-point literal"
    case InvalidCharLiteral => "invalid character literal"
    case InvalidStringLiteral => "invalid string literal"
    case InvalidEscapeCode => "invalid escape code"
  }

  /** `Display` of an error kind. */
  function ErrorKindToString(k: ErrorKind): string
  {
    match k
    case Lexical(l) => "Lexical error: " + LexicalErrorKindToString(l) + "."
    case Syntax => "Syntax error: ..."
  }

  /** The locator line: `> name:line:char`. */
  function Locator(e: Error): string
  {
    "> " + e.inputSourceName + ":" + NatToString(e.lineNumber) + ":" + NatToString(e.charNumber)
  }

  /** The caret line: a bar, one space per character before the error, a caret. */
  function CaretLine(charNumber: nat): (s: string)
    ensures |s| == charNumber + 2
    ensures s[0] == '|' && s[charNumber + 1] == '^'
    ensures forall i :: 1 <= i <= charNumber ==> s[i] == ' '
  {
    "|" + Spaces(charNumber) + "^"
  }

  /** `Display` of an error: four lines, each ending in a line break. */
  function ErrorToString(e: Error): string
  {
    Line(ErrorKindToString(e.kind)) + Line(Locator(e)) + Line("| " + e.line) + Line(CaretLine(e.charNumber))
  }

  // ---------------------------------------------------------------------------
  // Properties

  /** The five lexical messages are pairwise distinct. */
  lemma LexicalMessagesDistinct(a: LexicalErrorKind, b: LexicalErrorKind)
    ensures LexicalErrorKindToString(a) == LexicalErrorKindToString(b) <==> a == b
  {
  }

  /** Different kinds read differently: their texts even differ in length. */
  lemma ErrorKindTextDistinct(k: ErrorKind, k': ErrorKind)
    ensures ErrorKindToString(k) == ErrorKindToString(k') <==> k == k'
    ensures k != k' ==> |ErrorKindToString(k)| != |ErrorKindToString(k')|
  {
    assert |"Lexical error: "| == 15 && |"Syntax error: ..."| == 17;
    assert |ErrorKindToString(k)| == KindTextLength(k);
    assert |ErrorKindToString(k')| == KindTextLength(k');
  }

  /** The length of each kind's text, all different. */
  function KindTextLength(k: ErrorKind): nat
  {
    match k
    case Syntax => 17
    case Lexical(UnexpectedCharacter) => 45
    case Lexical(InvalidFloatLiteral) => 46
    case Lexical(InvalidCharLiteral) => 41
    case Lexical(InvalidStringLiteral) => 38
    case Lexical(InvalidEscapeCode) => 35
  }

  /** No kind's text holds a line break. */
  lemma ErrorKindTextOneLine(k: ErrorKind)
    ensures '\n' !in ErrorKindToString(k)
  {
    match k
    case Syntax =>
    case Lexical(l) =>
      assert '\n' !in LexicalErrorKindToString(l) by {
        match l
        case UnexpectedCharacter =>
        case InvalidFloatLiteral =>
        case InvalidCharLiteral =>
        case InvalidStringLiteral =>
        case InvalidEscapeCode =>
      }
  }

  lemma DigitsHaveNoSeparator(s: string)
    requires IsDigits(s)
    ensures '\n' !in s && ':' !in s
  {
  }

  /** An error whose source name and line text hold no line break, and whose
      source name holds no colon, so that its rendering can be read back. */
  predicate Readable(e: Error)
  {
    '\n' !in e.line && '\n' !in e.inputSourceName && ':' !in e.inputSourceName
  }

  /** The four lines an error renders to, without their line breaks. */
  function RenderedLines(e: Error): seq<string>
  {
    [ErrorKindToString(e.kind), Locator(e), "| " + e.line,
     CaretLine(e.charNumber)]
  }

  /** The rendering is exactly four lines, each with its line break: the kind,
      the locator `> name:line:char`, the source line after `| `, and the
      caret line. */
  lemma ErrorToStringLines(e: Error)
    requires '\n' !in e.line && '\n' !in e.inputSourceName
    ensures var s := ErrorToString(e);
      s[|s| - 1] == '\n' &&
      Lines(s) == [ErrorKindToString(e.kind), Locator(e), "| " + e.line, CaretLine(e.charNumber)]
      == RenderedLines(e)
  {
    ErrorKindTextOneLine(e.kind);
    DigitsHaveNoSeparator(NatToString(e.lineNumber));
    DigitsHaveNoSeparator(NatToString(e.charNumber));
    var l := Locator(e);
    assert '\n' !in l;
    LinesOfFour(ErrorKindToString(e.kind), l, "| " + e.line, CaretLine(e.charNumber));
  }

  /** Texts written one per line, each followed by a line break. */
  function Join(ls: seq<string>): string
    decreases |ls|
  {
    if ls == [] then "" else Line(ls[0]) + Join(ls[1..])
  }

  /** Splitting lines written one per line gives them back. */
  lemma {:induction false} LinesOfJoin(ls: seq<string>)
    requires forall i :: 0 <= i < |ls| ==> '\n' !in ls[i]
    ensures Lines(Join(ls)) == ls
    decreases |ls|
  {
    if ls != [] {
      LinesOfLine(ls[0], Join(ls[1..]));
      LinesOfJoin(ls[1..]);
    }
  }

  lemma LinesOfFour(a: string, b: string, c: string, d: string)
    requires '\n' !in a && '\n' !in b && '\n' !in c && '\n' !in d
    ensures Lines(Line(a) + Line(b) + Line(c) + Line(d)) == [a, b, c, d]
  {
    var ls := [a, b, c, d];
    assert ls[1..] == [b, c, d] && [b, c, d][1..] == [c, d] && [c, d][1..] == [d] && [d][1..] == [];
    assert Join([d]) == Line(d) + "";
    assert Join([c, d]) == Line(c) + Join([d]);
    assert Join([b, c, d]) == Line(b) + Join([c, d]);
    assert Join(ls) == Line(a) + Join([b, c, d]);
    assert Line(a) + Line(b) + Line(c) + Line(d) == Join(ls);
    LinesOfJoin(ls);
  }

  /** Two locator lines are equal exactly when they name the same source
      and the same line and character numbers, given names without colons. */
  lemma LocatorInjective(e1: Error, e2: Error)
    requires ':' !in e1.inputSourceName && ':' !in e2.inputSourceName
    ensures Locator(e1) == Locator(e2) <==>
      e1.inputSourceName == e2.inputSourceName && e1.lineNumber == e2.lineNumber && e1.charNumber == e2.charNumber
  {
    if Locator(e1) == Locator(e2) {
      var n1, l1, c1 := e1.inputSourceName, NatToString(e1.lineNumber), NatToString(e1.charNumber);
      var n2, l2, c2 := e2.inputSourceName, NatToString(e2.lineNumber), NatToString(e2.charNumber);
      assert Locator(e1)[2..] == n1 + [':'] + (l1 + [':'] + c1);
      assert Locator(e2)[2..] == n2 + [':'] + (l2 + [':'] + c2);
      SplitAtFirst(n1, l1 + [':'] + c1, n2, l2 + [':'] + c2, ':');
      DigitsHaveNoSeparator(l1);
      DigitsHaveNoSeparator(l2);
      SplitAtFirst(l1, c1, l2, c2, ':');
      NatToStringInjective(e1.lineNumber, e2.lineNumber);
      NatToStringInjective(e1.charNumber, e2.charNumber);
    }
  }

  /** Two readable errors render to the same text exactly when they are equal:
      the rendering depends on nothing but the fields, and every field can be
      read back from it. */
  lemma ErrorToStringInjective(e1: Error, e2: Error)
    requires Readable(e1) && Readable(e2)
    ensures ErrorToString(e1) == ErrorToString(e2) <==> e1 == e2
  {
    if ErrorToString(e1) == ErrorToString(e2) {
      var r1, r2 := RenderedLines(e1), RenderedLines(e2);
      assert r1 == r2 by {
        ErrorToStringLines(e1);
        ErrorToStringLines(e2);
      }
      assert r1[0] == r2[0] && r1[1] == r2[1] && r1[2] == r2[2] && r1[3] == r2[3];
      ErrorKindTextDistinct(e1.kind, e2.kind);
      assert r1[2][2..] == e1.line && r2[2][2..] == e2.line;
      LocatorInjective(e1, e2);
    }
  }
}
