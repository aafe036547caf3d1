/** The partial tokenizer: a byte reader with a read index, a line counter and
    a character counter, and the dispatch of `next` on a token's lead character.

    The functions describe each step on a value of the lexer's state; the class
    `Lexer` performs the same steps in place, and each of its methods is proved
    against the function of the same step. */
module Lex {
  import opened Options
  import opened Tokens

  /** One byte of input. */
  type Byte = b: int | 0 <= b < 256

  /** The lexer reads one byte at a time and casts it to a character. */
  function ByteToChar(b: Byte): char
  {
    b as char
  }

  /** Rust's `char::is_whitespace` on the characters a byte can be cast to. */
  predicate IsWhitespace(c: char)
  {
    var n := c as int;
    (9 <= n <= 13) || n == 0x20 || n == 0x85 || n == 0xA0
  }

  predicate IsAsciiDigit(c: char)
  {
    '0' <= c <= '9'
  }

  predicate IsAsciiLetter(c: char)
  {
    'a' <= c <= 'z' || 'A' <= c <= 'Z'
  }

  /** The two counters the lexer maintains. */
  datatype Position = Position(lineNumber: nat, charNumber: nat)

  /** The whole state of a lexer besides its input: the read index and the counters. */
  datatype LexState = LexState(pos: nat, at: Position)

  /** What one call of `next` produces: end of input (`None`), a token
      (`Some(Ok(token))`), or the panic of `unimplemented!()`. */
  datatype NextOutcome = Exhausted | Emit(token: Token) | Panic

  /** A new lexer reads from the start, on line 1, before character 1. */
  function Start(): LexState
  {
    LexState(0, Position(1, 0))
  }

  /** The counters after consuming the character `c`. */
  function Track(p: Position, c: char): Position
  {
    if c == '\n' then Position(p.lineNumber + 1, 0) else Position(p.lineNumber, p.charNumber + 1)
  }

  /** The counters after consuming every byte of `s`, first to last. */
  function TrackAll(p: Position, s: seq<Byte>): Position
    decreases |s|
  {
    if s == [] then p else Track(TrackAll(p, s[..|s| - 1]), ByteToChar(s[|s| - 1]))
  }

  /** Reading one byte without position tracking: the byte at the read index,
      or nothing at the end of input. */
  function ReadRaw(input: seq<Byte>, pos: nat): Option<char>
    requires pos <= |input|
  {
    if pos < |input| then Some(ByteToChar(input[pos])) else None
  }

  /** `next_char`: read one byte and, if there was one, move past it and track it. */
  function ReadChar(input: seq<Byte>, st: LexState): (r: (Option<char>, LexState))
    requires st.pos <= |input|
    ensures r.1.pos <= |input|
    ensures st.pos == |input| ==> r.0 == None && r.1 == st
    ensures st.pos < |input| ==>
      var c := ByteToChar(input[st.pos]);
      r.0 == Some(c) && r.1.pos == st.pos + 1 &&
      (c == '\n' ==> r.1.at == Position(st.at.lineNumber + 1, 0)) &&
      (c != '\n' ==> r.1.at == Position(st.at.lineNumber, st.at.charNumber + 1))
  {
    match ReadRaw(input, st.pos)
    case None => (None, st)
    case Some(c) => (Some(c), LexState(st.pos + 1, Track(st.at, c)))
  }

  /** `next_char_if_equals`: read one byte; unless it is `target`, step the
      read index back by one. The counters are not stepped back, and the read
      index is stepped back even when nothing was read at the end of input.
      The step back fails only at index 0, which a non-empty input never
      reaches here. */
  function ReadCharIfEquals(input: seq<Byte>, st: LexState, target: char): (r: (bool, LexState))
    requires 0 < |input| && st.pos <= |input|
    ensures r.1.pos <= |input|
    ensures r.0 <==> st.pos < |input| && ByteToChar(input[st.pos]) == target
    ensures r.0 ==> r.1.pos == st.pos + 1
    ensures !r.0 ==> r.1.pos == (if st.pos < |input| then st.pos else st.pos - 1)
    ensures r.1.at == (if st.pos < |input| then Track(st.at, ByteToChar(input[st.pos])) else st.at)
  {
    var (c, st1) := ReadChar(input, st);
    var equal := c == Some(target);
    if equal then (true, st1) else (false, LexState(st1.pos - 1, st1.at))
  }

  /** How `next` treats a lead character. */
  datatype Lead =
    | Single(kind: TokenType)
    | Pair(next: char, long: TokenType, short: TokenType)
    | Blank
    | Unhandled

  /** The dispatch table of `next`: a one-character operator, a lead that a
      conditional consume of `next` turns into a two-character operator,
      whitespace, or a character whose case is `unimplemented!()`. */
  function ClassifyLead(c: char): (r: Lead)
    ensures r == Blank <==> IsWhitespace(c)
    ensures IsAsciiDigit(c) || IsAsciiLetter(c) ==> r == Unhandled
    ensures r.Single? ==> Spelling(r.kind) == [c] && Continuation(r.kind) == None
    ensures r.Pair? ==>
      Spelling(r.short) == [c] && Spelling(r.long) == [c, r.next] && Continuation(r.short) == Some(r.next)
  {
    if c == '=' then Pair('=', Equivalent, Assign)
    else if c == ':' then Single(Colon)
    else if c == ',' then Single(Comma)
    else if c == '(' then Single(OpenBracket)
    else if c == ')' then Single(CloseBracket)
    else if c == '[' then Single(OpenSquare)
    else if c == ']' then Single(CloseSquare)
    else if c == '+' then Single(Plus)
    else if c == '-' then Pair('>', Arrow, Minus)
    else if c == '*' then Single(Times)
    else if c == '/' then Single(Divide)
    else if c == '<' then Pair('=', LessThanOrEqual, LessThan)
    else if c == '>' then Pair('=', GreaterThanOrEqual, GreaterThan)
    else if IsAsciiDigit(c) then Unhandled
    else if IsAsciiLetter(c) then Unhandled
    else if IsWhitespace(c) then Blank
    else Unhandled
  }

  /** The token built from the lead character and the counters at that point. */
  function MakeToken(k: TokenType, lead: char, at: Position): Token
  {
    Token(k, [lead], at.lineNumber, at.charNumber)
  }

  /** `Iterator::next`: read a lead character, skipping whitespace, and
      dispatch on it. Returns the outcome and the state afterwards. */
  function Scan(input: seq<Byte>, st: LexState): (r: (NextOutcome, LexState))
    requires st.pos <= |input|
    ensures r.1.pos <= |input|
    decreases |input| - st.pos
  {
    var (c, st1) := ReadChar(input, st);
    match c
    case None => (Exhausted, st1)
    case Some(lead) =>
      match ClassifyLead(lead)
      case Blank => Scan(input, st1)
      case Unhandled => (Panic, st1)
      case Single(k) => (Emit(MakeToken(k, lead, st1.at)), st1)
      case Pair(next, long, short) =>
        var (equal, st2) := ReadCharIfEquals(input, st1, next);
        (Emit(MakeToken(if equal then long else short, lead, st2.at)), st2)
  }

  /** A lexer over an in-memory input. The reader of the source becomes the
      input bytes and the read index `pos`. */
  class Lexer {
    const input: seq<Byte>
    var pos: nat
    var lineNumber: nat
    var charNumber: nat

    ghost predicate Valid()
      reads this
    {
      pos <= |input|
    }

    /** The lexer's state as a value. */
    function State(): LexState
      reads this
    {
      LexState(pos, Position(lineNumber, charNumber))
    }

    /** `Lexer::new` */
    constructor (input: seq<Byte>)
      ensures Valid() && this.input == input && State() == Start()
    {
      this.input := input;
      pos := 0;
      lineNumber := 1;
      charNumber := 0;
    }

    /** `next_char_no_position_update`: the read index moves, the counters do not. */
    method NextCharNoPositionUpdate() returns (c: Option<char>)
      requires Valid()
      modifies this`pos
      ensures Valid()
      ensures c == ReadRaw(input, old(pos))
      ensures pos == if c.Some? then old(pos) + 1 else old(pos)
    {
      if pos < |input| {
        c := Some(ByteToChar(input[pos]));
        pos := pos + 1;
      } else {
        c := None;
      }
    }

    /** `update_position_tracking` */
    method UpdatePositionTracking(c: char)
      modifies this`lineNumber, this`charNumber
      ensures Position(lineNumber, charNumber) == Track(old(Position(lineNumber, charNumber)), c)
    {
      charNumber := charNumber + 1;
      if c == '\n' {
        lineNumber := lineNumber + 1;
        charNumber := 0;
      }
    }

    /** `next_char` */
    method NextChar() returns (c: Option<char>)
      requires Valid()
      modifies this
      ensures Valid()
      ensures (c, State()) == ReadChar(input, old(State()))
    {
      c := NextCharNoPositionUpdate();
      if c.Some? {
        UpdatePositionTracking(c.value);
      }
    }

    /** `next_char_if_equals`; the step back of the reader is `pos := pos - 1`. */
    method NextCharIfEquals(target: char) returns (equal: bool)
      requires Valid() && 0 < |input|
      modifies this
      ensures Valid()
      ensures (equal, State()) == ReadCharIfEquals(input, old(State()), target)
    {
      var c := NextChar();
      equal := c == Some(target);
      if !equal {
        pos := pos - 1;
      }
    }

    /** `Iterator::next`. The source skips whitespace by calling itself again;
        here a loop reads until a character that is not whitespace. */
    method Next() returns (r: NextOutcome)
      requires Valid()
      modifies this
      ensures Valid()
      ensures (r, State()) == Scan(input, old(State()))
    {
      ghost var before := State();
      var c := NextChar();
      while c.Some? && IsWhitespace(c.value)
        invariant Valid() && before.pos <= |input|
        invariant Scan(input, old(State())) == Scan(input, before)
        invariant (c, State()) == ReadChar(input, before)
        decreases |input| - before.pos
      {
        before := State();
        c := NextChar();
      }
      if c.None? {
        return Exhausted;
      }
      var lead := c.value;
      var kind: TokenType;
      match ClassifyLead(lead) {
        case Single(k) =>
          kind := k;
        case Pair(next, long, short) =>
          var equal := NextCharIfEquals(next);
          kind := if equal then long else short;
        case _ =>
          // an unhandled lead: digits, letters and every other byte
          return Panic;
      }
      r := Emit(MakeToken(kind, lead, Position(lineNumber, charNumber)));
    }
  }
}
