/** Properties of the lexer's steps: position bookkeeping, whitespace
    skipping, the operator table, the panicking leads, and the effects of the
    step back in the conditional consume. */
module LexProperties {
  import opened Options
  import opened Tokens
  import opened Lex

  // ---------------------------------------------------------------------------
  // Position bookkeeping

  /** The number of newline bytes in `s`. */
  function NewlineCount(s: seq<Byte>): nat
    decreases |s|
  {
    if s == [] then 0
    else NewlineCount(s[..|s| - 1]) + (if ByteToChar(s[|s| - 1]) == '\n' then 1 else 0)
  }

  /** Whether `s` holds a newline byte. */
  predicate HasNewline(s: seq<Byte>)
  {
    exists i :: 0 <= i < |s| && ByteToChar(s[i]) == '\n'
  }

  /** The number of bytes after the last newline of `s` (all of `s` when it holds none). */
  function TailLength(s: seq<Byte>): nat
    decreases |s|
  {
    if s == [] then 0
    else if ByteToChar(s[|s| - 1]) == '\n' then 0
    else TailLength(s[..|s| - 1]) + 1
  }

  lemma {:induction false} TailLengthNoNewline(s: seq<Byte>)
    requires !HasNewline(s)
    ensures TailLength(s) == |s|
    decreases |s|
  {
    if s != [] {
      var t := s[..|s| - 1];
      assert !HasNewline(t) by {
        forall i | 0 <= i < |t| ensures ByteToChar(t[i]) != '\n' {
          assert t[i] == s[i];
        }
      }
      TailLengthNoNewline(t);
    }
  }

  lemma HasNewlineSnoc(s: seq<Byte>)
    requires s != []
    ensures HasNewline(s) <==> HasNewline(s[..|s| - 1]) || ByteToChar(s[|s| - 1]) == '\n'
  {
  }

  /** Consuming the bytes of `s` raises the line counter by the number of
      newlines in `s`; the character counter ends as the number of bytes after
      the last newline, or grows by |s| when `s` holds no newline. */
  lemma {:induction false} TrackAllCounts(p: Position, s: seq<Byte>)
    ensures TrackAll(p, s).lineNumber == p.lineNumber + NewlineCount(s)
    ensures TrackAll(p, s).charNumber == if HasNewline(s) then TailLength(s) else p.charNumber + |s|
    decreases |s|
  {
    if s != [] {
      var t := s[..|s| - 1];
      TrackAllCounts(p, t);
      HasNewlineSnoc(s);
      if !HasNewline(s) {
        TailLengthNoNewline(s);
      }
    }
  }

  lemma TrackAllSnoc(p: Position, s: seq<Byte>, b: Byte)
    ensures TrackAll(p, s + [b]) == Track(TrackAll(p, s), ByteToChar(b))
  {
    assert (s + [b])[..|s|] == s;
  }

  // ---------------------------------------------------------------------------
  // Whitespace skipping

  predicate IsBlankByte(b: Byte)
  {
    IsWhitespace(ByteToChar(b))
  }

  predicate AllBlank(s: seq<Byte>)
  {
    forall i :: 0 <= i < |s| ==> IsBlankByte(s[i])
  }

  /** Whether every byte of `input` from index `lo` up to `hi` is blank. */
  predicate BlankBetween(input: seq<Byte>, lo: nat, hi: nat)
    requires lo <= hi <= |input|
  {
    forall i :: lo <= i < hi ==> IsBlankByte(input[i])
  }

  /** The index of the first byte at or after `pos` that is not whitespace,
      or |input| when there is none. */
  function FirstNonBlank(input: seq<Byte>, pos: nat): (k: nat)
    requires pos <= |input|
    ensures pos <= k <= |input|
    ensures BlankBetween(input, pos, k)
    ensures k < |input| ==> !IsBlankByte(input[k])
    decreases |input| - pos
  {
    if pos == |input| || !IsBlankByte(input[pos]) then pos else FirstNonBlank(input, pos + 1)
  }

  /** The state in which `next` reads the lead byte at index `k`: every blank
      byte from the read index up to `k` has been consumed and tracked. */
  function SkipTo(input: seq<Byte>, st: LexState, k: nat): LexState
    requires st.pos <= k <= |input|
  {
    LexState(k, TrackAll(st.at, input[st.pos..k]))
  }

  lemma {:induction false} ScanSkipsPrefix(input: seq<Byte>, st: LexState, j: nat)
    requires st.pos <= j <= |input|
    requires BlankBetween(input, st.pos, j)
    ensures Scan(input, st) == Scan(input, SkipTo(input, st, j))
    decreases j - st.pos
  {
    if j > st.pos {
      ScanSkipsPrefix(input, st, j - 1);
      assert input[st.pos..j] == input[st.pos..j - 1] + [input[j - 1]];
      TrackAllSnoc(st.at, input[st.pos..j - 1], input[j - 1]);
    }
  }

  /** `next` consumes the blank bytes before a token, each tracked; the outcome
      is that of reading the first byte that is not blank. */
  lemma ScanSkipsBlanks(input: seq<Byte>, st: LexState)
    requires st.pos <= |input|
    ensures Scan(input, st) == Scan(input, SkipTo(input, st, FirstNonBlank(input, st.pos)))
  {
    ScanSkipsPrefix(input, st, FirstNonBlank(input, st.pos));
  }

  /** What one call of `next` produces, from where the first non-blank byte is:
      nothing when only blanks remain (with all of them consumed and tracked),
      a panic when that byte has no case, and otherwise a token whose lexeme is
      that byte alone, whose kind is spelled starting with it, and whose counters
      are the lexer's counters after the call. */
  lemma ScanOutcome(input: seq<Byte>, st: LexState)
    requires st.pos <= |input|
    ensures
      var k := FirstNonBlank(input, st.pos);
      var (r, st') := Scan(input, st);
      (r == Exhausted <==> k == |input|) &&
      (r == Exhausted ==> st' == LexState(|input|, TrackAll(st.at, input[st.pos..]))) &&
      (r == Panic <==> k < |input| && ClassifyLead(ByteToChar(input[k])) == Unhandled) &&
      (r.Emit? ==>
        k < |input| &&
        r.token.lexeme == [ByteToChar(input[k])] &&
        Spelling(r.token.tokType)[0] == ByteToChar(input[k]) &&
        r.token.lineNumber == st'.at.lineNumber && r.token.charNumber == st'.at.charNumber)
  {
    var k := FirstNonBlank(input, st.pos);
    ScanSkipsBlanks(input, st);
    if k == |input| {
      assert input[st.pos..k] == input[st.pos..];
    }
  }

  // ---------------------------------------------------------------------------
  // The operator table

  /** Every kind's lead character dispatches back to that kind: directly for a
      one-character kind, and through a conditional consume of the second
      character (or of the continuation) for the two kinds of a pair. */
  lemma ClassifySpelling(k: TokenType)
    ensures var lead := ClassifyLead(Spelling(k)[0]);
      (|Spelling(k)| == 1 && Continuation(k) == None ==> lead == Single(k)) &&
      (Continuation(k).Some? ==> lead.Pair? && lead.short == k && lead.next == Continuation(k).value) &&
      (|Spelling(k)| == 2 ==> lead.Pair? && lead.long == k && lead.next == Spelling(k)[1])
  {
  }

  /** The bytes of an ASCII string. */
  function Encode(s: string): (b: seq<Byte>)
    requires forall i :: 0 <= i < |s| ==> s[i] as int < 256
    ensures |b| == |s| && forall i :: 0 <= i < |s| ==> ByteToChar(b[i]) == s[i]
  {
    if s == [] then [] else [s[0] as int] + Encode(s[1..])
  }

  /** Whether the bytes after a kind's spelling start with its continuation. */
  predicate Extends(k: TokenType, rest: seq<Byte>)
  {
    Continuation(k).Some? && rest != [] && ByteToChar(rest[0]) == Continuation(k).value
  }

  /** The bytes `next` consumes for kind `k` after the blanks `w`: the blanks,
      the spelling, and for a short form whose continuation is missing, the byte
      read and stepped back over (the counters keep it). */
  function Consumed(w: seq<Byte>, k: TokenType, rest: seq<Byte>): seq<Byte>
  {
    w + Encode(Spelling(k)) + (if Continuation(k).Some? && rest != [] then rest[..1] else [])
  }

  /** Started anywhere, at the index |u| after the bytes `u` already read,
      the call skips the blanks `w` and reads the first byte of `rest`. */
  lemma ScanAfterBlanks(u: seq<Byte>, w: seq<Byte>, rest: seq<Byte>, p: Position)
    requires AllBlank(w)
    ensures Scan(u + w + rest, LexState(|u|, p)) == Scan(u + w + rest, LexState(|u| + |w|, TrackAll(p, w)))
  {
    var input := u + w + rest;
    assert BlankBetween(input, |u|, |u| + |w|) by {
      forall i | |u| <= i < |u| + |w| ensures IsBlankByte(input[i]) {
        assert input[i] == w[i - |u|];
      }
    }
    ScanSkipsPrefix(input, LexState(|u|, p), |u| + |w|);
    assert input[|u|..|u| + |w|] == w;
  }

  /** A one-character operator lead yields its kind, whatever follows; the
      counters are those after the lead. The call may start at any read index
      |u|, so this holds of every token of an input, not only the first. */
  lemma ScanSingle(u: seq<Byte>, w: seq<Byte>, b: Byte, rest: seq<Byte>, p: Position, k: TokenType)
    requires AllBlank(w)
    requires ClassifyLead(ByteToChar(b)) == Single(k)
    ensures var at := TrackAll(p, w + [b]);
      Scan(u + w + [b] + rest, LexState(|u|, p)) ==
      (Emit(Token(k, [ByteToChar(b)], at.lineNumber, at.charNumber)), LexState(|u| + |w| + 1, at))
  {
    var input := u + w + [b] + rest;
    assert input == u + w + ([b] + rest);
    ScanAfterBlanks(u, w, [b] + rest, p);
    assert input[|u| + |w|] == b;
    TrackAllSnoc(p, w, b);
  }

  /** A pair lead followed by its continuation yields the long kind; both
      bytes are consumed and tracked; the lexeme is still the lead alone. */
  lemma ScanPairLong(u: seq<Byte>, w: seq<Byte>, b: Byte, c: Byte, rest: seq<Byte>, p: Position)
    requires AllBlank(w)
    requires ClassifyLead(ByteToChar(b)).Pair? && ClassifyLead(ByteToChar(b)).next == ByteToChar(c)
    ensures var at := TrackAll(p, w + [b, c]);
      Scan(u + w + [b, c] + rest, LexState(|u|, p)) ==
      (Emit(Token(ClassifyLead(ByteToChar(b)).long, [ByteToChar(b)], at.lineNumber, at.charNumber)),
       LexState(|u| + |w| + 2, at))
  {
    var input := u + w + [b, c] + rest;
    assert input == u + w + ([b, c] + rest);
    ScanAfterBlanks(u, w, [b, c] + rest, p);
    assert input[|u| + |w|] == b && input[|u| + |w| + 1] == c;
    TrackAllSnoc(p, w, b);
    assert w + [b, c] == (w + [b]) + [c];
    TrackAllSnoc(p, w + [b], c);
  }

  /** A pair lead not followed by its continuation yields the short kind. The
      byte after the lead, if any, is read and tracked, and the read index is
      stepped back onto it; at the end of input the read index is stepped back
      onto the lead itself. */
  lemma ScanPairShort(u: seq<Byte>, w: seq<Byte>, b: Byte, rest: seq<Byte>, p: Position)
    requires AllBlank(w)
    requires ClassifyLead(ByteToChar(b)).Pair?
    requires rest != [] ==> ByteToChar(rest[0]) != ClassifyLead(ByteToChar(b)).next
    ensures var at := TrackAll(p, w + [b] + (if rest == [] then [] else rest[..1]));
      Scan(u + w + [b] + rest, LexState(|u|, p)) ==
      (Emit(Token(ClassifyLead(ByteToChar(b)).short, [ByteToChar(b)], at.lineNumber, at.charNumber)),
       LexState(if rest == [] then |u| + |w| else |u| + |w| + 1, at))
  {
    var input := u + w + [b] + rest;
    assert input == u + w + ([b] + rest);
    ScanAfterBlanks(u, w, [b] + rest, p);
    assert input[|u| + |w|] == b;
    TrackAllSnoc(p, w, b);
    if rest != [] {
      assert input[|u| + |w| + 1] == rest[0];
      assert w + [b] + rest[..1] == (w + [b]) + [rest[0]];
      TrackAllSnoc(p, w + [b], rest[0]);
    } else {
      assert w + [b] + [] == w + [b];
    }
  }

  /** What `ScanOperator` promises for kind `k`. */
  predicate ScansAs(u: seq<Byte>, w: seq<Byte>, k: TokenType, rest: seq<Byte>, p: Position)
  {
    var input := u + w + Encode(Spelling(k)) + rest;
    var at := TrackAll(p, Consumed(w, k, rest));
    var pos := |u| + |w| + |Spelling(k)| - (if Continuation(k).Some? && rest == [] then 1 else 0);
    Scan(input, LexState(|u|, p)) == (Emit(Token(k, [Spelling(k)[0]], at.lineNumber, at.charNumber)), LexState(pos, at))
  }

  lemma ScanOperatorLong(u: seq<Byte>, w: seq<Byte>, k: TokenType, rest: seq<Byte>, p: Position)
    requires AllBlank(w) && |Spelling(k)| == 2
    ensures ScansAs(u, w, k, rest, p)
  {
    var sp := Encode(Spelling(k));
    ClassifySpelling(k);
    assert sp == [sp[0], sp[1]];
    assert u + w + sp + rest == u + w + [sp[0], sp[1]] + rest;
    assert Continuation(k) == None;
    assert Consumed(w, k, rest) == w + [sp[0], sp[1]];
    ScanPairLong(u, w, sp[0], sp[1], rest, p);
  }

  lemma ScanOperatorShort(u: seq<Byte>, w: seq<Byte>, k: TokenType, rest: seq<Byte>, p: Position)
    requires AllBlank(w) && !Extends(k, rest) && Continuation(k).Some?
    ensures ScansAs(u, w, k, rest, p)
  {
    var sp := Encode(Spelling(k));
    ClassifySpelling(k);
    assert sp == [sp[0]];
    assert u + w + sp + rest == u + w + [sp[0]] + rest;
    assert Consumed(w, k, rest) == w + [sp[0]] + (if rest == [] then [] else rest[..1]);
    ScanPairShort(u, w, sp[0], rest, p);
  }

  lemma ScanOperatorSingle(u: seq<Byte>, w: seq<Byte>, k: TokenType, rest: seq<Byte>, p: Position)
    requires AllBlank(w) && |Spelling(k)| == 1 && Continuation(k) == None
    ensures ScansAs(u, w, k, rest, p)
  {
    var sp := Encode(Spelling(k));
    ClassifySpelling(k);
    assert sp == [sp[0]];
    assert u + w + sp + rest == u + w + [sp[0]] + rest;
    assert Consumed(w, k, rest) == w + [sp[0]];
    assert ClassifyLead(ByteToChar(sp[0])) == Single(k);
    ScanSingle(u, w, sp[0], rest, p, k);
  }

  /** Scanning an operator after blanks `w`, from any read index |u|, followed
      by anything that does not extend it, yields its kind with the lead
      character as lexeme, and leaves the read index after the spelling, except
      that a short form at the very end of input steps back onto its own lead
      byte. */
  lemma ScanOperator(u: seq<Byte>, w: seq<Byte>, k: TokenType, rest: seq<Byte>, p: Position)
    requires AllBlank(w)
    requires !Extends(k, rest)
    ensures
      var input := u + w + Encode(Spelling(k)) + rest;
      var at := TrackAll(p, Consumed(w, k, rest));
      var pos := |u| + |w| + |Spelling(k)| - (if Continuation(k).Some? && rest == [] then 1 else 0);
      Scan(input, LexState(|u|, p)) == (Emit(Token(k, [Spelling(k)[0]], at.lineNumber, at.charNumber)), LexState(pos, at))
  {
    if |Spelling(k)| == 2 {
      ScanOperatorLong(u, w, k, rest, p);
    } else if Continuation(k).Some? {
      ScanOperatorShort(u, w, k, rest, p);
    } else {
      ScanOperatorSingle(u, w, k, rest, p);
    }
  }

  /** A lead byte with no case (a digit, a letter, `!`, `;`, a quote, ...)
      ends the call in a panic, after the blanks and the lead were consumed. */
  lemma ScanPanics(u: seq<Byte>, w: seq<Byte>, b: Byte, rest: seq<Byte>, p: Position)
    requires AllBlank(w)
    requires ClassifyLead(ByteToChar(b)) == Unhandled
    ensures Scan(u + w + [b] + rest, LexState(|u|, p)) == (Panic, LexState(|u| + |w| + 1, TrackAll(p, w + [b])))
  {
    var input := u + w + [b] + rest;
    assert input == u + w + ([b] + rest);
    ScanAfterBlanks(u, w, [b] + rest, p);
    assert input[|u| + |w|] == b;
    TrackAllSnoc(p, w, b);
  }

  // ---------------------------------------------------------------------------
  // Concrete consequences of the step back

  /** The `simple_tokens` test in src/lex.rs: `=` alone is Assign, lexeme `=`,
      line 1, character 1; the read index is back at 0. */
  lemma AssignAlone()
    ensures Scan([61], Start()) == (Emit(Token(Assign, "=", 1, 1)), LexState(0, Position(1, 1)))
  {
  }

  /** Because the step back also happens at the end of input, the next call
      reads the same `=` again and yields a second Assign, one character later. */
  lemma AssignAloneAgain()
    ensures Scan([61], LexState(0, Position(1, 1))).0 == Emit(Token(Assign, "=", 1, 2))
  {
  }

  /** The byte peeked after a short form is tracked twice: on `-` then a
      newline, Minus is reported on line 2, and the call after it, reading the
      newline again, ends the input on line 3 at index 2. */
  lemma PeekedByteTrackedTwice()
    ensures Scan([45, 10], Start()) == (Emit(Token(Minus, "-", 2, 0)), LexState(1, Position(2, 0)))
    ensures Scan([45, 10], LexState(1, Position(2, 0))) == (Exhausted, LexState(2, Position(3, 0)))
  {
  }

  /** The `simple_tokens` test in src/lex.rs, run through the class: a new
      lexer over `=` yields Assign, lexeme `=`, on line 1 at character 1. */
  method SimpleTokens() returns (r: NextOutcome)
    ensures r == Emit(Token(Assign, "=", 1, 1))
  {
    var l := new Lexer([61]);
    r := l.Next();
    AssignAlone();
  }
}
