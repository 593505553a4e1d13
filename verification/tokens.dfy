/**
 * Token classes, tokens and lexical diagnostics of the TINY scanner
 * (TINY_Compiler/Scanner.cs, lines 8-31 and the two messages at lines 114 and 152).
 */
module Tokens {

  datatype Option<+T> = None | Some(value: T)

  /** The closed set of token classes, in the order the source declares them. */
  datatype TokenClass =
    // reserved words
    | T_INT | T_FLOAT | T_STRING_KEY | T_READ | T_WRITE | T_REPEAT | T_UNTIL
    | T_IF | T_ELSEIF | T_ELSE | T_THEN | T_RETURN | T_ENDL | T_MAIN
    // operators and punctuation
    | T_ASSIGN | T_NOTEQUAL | T_AND | T_OR
    | T_PLUS | T_MINUS | T_TIMES | T_DIVIDE | T_LESSTHAN | T_GREATERTHAN | T_EQUAL
    | T_LPAREN | T_RPAREN | T_LCURLY | T_RCURLY | T_COMMA | T_SEMICOLON
    // literals
    | T_NUMBER | T_IDENTIFIER | T_STRING
    // never emitted
    | COMMENT | WHITESPACE | ERROR

  /** The classes that may appear in the scanner's token list. */
  predicate Emittable(c: TokenClass) {
    c != COMMENT && c != WHITESPACE && c != ERROR
  }

  /** A recognised lexical unit: the exact text consumed and its class. */
  datatype Token = Token(lex: string, tokenType: TokenClass)

  /**
   * A lexical diagnostic, kept structured.  `UnterminatedComment(k)` stands for
   * "Lexical Error: Unterminated multi-line comment starting at index k";
   * `Unrecognized(k, c)` for "Lexical Error: Unrecognized token at index k: 'c'".
   */
  datatype LexError =
    | UnterminatedComment(start: nat)
    | Unrecognized(index: nat, ch: char)
  {
    /** The source offset the diagnostic reports. */
    function Offset(): nat {
      match this
      case UnterminatedComment(k) => k
      case Unrecognized(k, _) => k
    }
  }
}
