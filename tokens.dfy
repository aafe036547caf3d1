/** Token kinds and tokens produced by the lexer.

    The repository's own token declaration lists a single keyword kind that the
    lexer never uses; the kinds below are the ones the lexer's dispatch emits. */
module Tokens {
  import opened Options

  datatype TokenType =
    | Equivalent | Assign
    | Colon | Comma
    | OpenBracket | CloseBracket | OpenSquare | CloseSquare
    | Plus | Arrow | Minus | Times | Divide
    | LessThan | LessThanOrEqual | GreaterThan | GreaterThanOrEqual

  /** A token: its kind, its lexeme, and the lexer's line and character
      counters at the moment the token was built. */
  datatype Token = Token(tokType: TokenType, lexeme: string, lineNumber: nat, charNumber: nat)

  /** The operator text each kind stands for: one character for the short
      forms, two for the long forms. */
  function Spelling(k: TokenType): (s: string)
    ensures 1 <= |s| <= 2
    ensures forall i :: 0 <= i < |s| ==> s[i] as int < 128
  {
    match k
    case Equivalent => "=="
    case Assign => "="
    case Colon => ":"
    case Comma => ","
    case OpenBracket => "("
    case CloseBracket => ")"
    case OpenSquare => "["
    case CloseSquare => "]"
    case Plus => "+"
    case Arrow => "->"
    case Minus => "-"
    case Times => "*"
    case Divide => "/"
    case LessThan => "<"
    case LessThanOrEqual => "<="
    case GreaterThan => ">"
    case GreaterThanOrEqual => ">="
  }

  /** The character that, written right after a short form, makes a longer
      operator of it; None for kinds that no character extends. */
  function Continuation(k: TokenType): Option<char>
  {
    match k
    case Assign => Some('=')
    case Minus => Some('>')
    case LessThan => Some('=')
    case GreaterThan => Some('=')
    case _ => None
  }
}
