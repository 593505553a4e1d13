/**
 * Whole scans of small sources, derived from the properties of the scan one step at a
 * time. For each cursor the scan visits, one lemma states what the first-character
 * dispatch recognises there and another fixes the scan from that cursor onwards.
 */
module Examples {
  import opened Tokens
  import opened Recognizers
  import opened Classification
  import opened Scanning
  import opened ScanProperties

  lemma ScanEnd(s: string)
    ensures ScanFrom(s, |s|) == Output([], [], [])
  {
  }

  /** At `p`, away from a comment opening, the dispatch recognises class `t` over `[p, q)`. */
  predicate Emits(s: string, p: nat, q: nat, t: TokenClass)
  {
    p < q <= |s| && t != WHITESPACE && !CommentOpensAt(s, p) && Classify(s, p) == Some(Munch(t, q - p))
  }

  /** The token recognised at `p`, in front of a rest of the scan with no token. */
  lemma EmitOnto0(s: string, p: nat, q: nat, t: TokenClass, lex: string, es: seq<LexError>)
    requires Emits(s, p, q, t) && s[p..q] == lex && ScanFrom(s, q) == Output([], [], es)
    ensures ScanFrom(s, p) == Output([Token(lex, t)], [p], es)
  {
    ScanEmitsRecognized(s, p, q, t);
  }

  /** The token recognised at `p`, in front of a rest of the scan with one token. */
  lemma EmitOnto1(s: string, p: nat, q: nat, t: TokenClass, lex: string, t1: Token, p1: nat, es: seq<LexError>)
    requires Emits(s, p, q, t) && s[p..q] == lex && ScanFrom(s, q) == Output([t1], [p1], es)
    ensures ScanFrom(s, p) == Output([Token(lex, t), t1], [p, p1], es)
  {
    ScanEmitsRecognized(s, p, q, t);
  }

  /** The token recognised at `p`, in front of a rest of the scan with two tokens. */
  lemma EmitOnto2(s: string, p: nat, q: nat, t: TokenClass, lex: string, t1: Token, p1: nat, t2: Token, p2: nat, es: seq<LexError>)
    requires Emits(s, p, q, t) && s[p..q] == lex && ScanFrom(s, q) == Output([t1, t2], [p1, p2], es)
    ensures ScanFrom(s, p) == Output([Token(lex, t), t1, t2], [p, p1, p2], es)
  {
    ScanEmitsRecognized(s, p, q, t);
  }

  /** Reporting the character at `p` in front of a rest of the scan that is one token. */
  lemma ReportBefore(s: string, p: nat, c: char, t: Token, q: nat)
    requires p < |s| && !CommentOpensAt(s, p) && Classify(s, p).None? && s[p] == c
    requires ScanFrom(s, p + 1) == Output([t], [q], [])
    ensures ScanFrom(s, p) == Output([t], [q], [Unrecognized(p, c)])
  {
    ScanReportsUnrecognized(s, p);
  }

  // ---------------------------------------------------------------------------
  // Reserved words

  lemma ElseifAt0(s: string)
    requires s == "elseif"
    ensures Emits(s, 0, 6, T_ELSEIF) && s[0..6] == "elseif"
  {
    assert IdentLength(s, 0) == 6 && s[0..6] == "elseif" && ReservedAt(s, 0);
  }

  /** A reserved word standing alone becomes its own class. */
  lemma ElseifIsReserved(s: string)
    requires s == "elseif"
    ensures Scan(s) == Output([Token("elseif", T_ELSEIF)], [0], [])
  {
    ElseifAt0(s);
    ScanEnd(s);
    EmitOnto0(s, 0, 6, T_ELSEIF, "elseif", []);
  }

  lemma IffyAt0(s: string)
    requires s == "iffy"
    ensures Emits(s, 0, 4, T_IDENTIFIER) && s[0..4] == "iffy"
  {
    assert IdentLength(s, 0) == 4 && s[0..4] == "iffy";
  }

  /** A word that merely begins with a reserved word is one identifier, not split. */
  lemma IffyIsIdentifier(s: string)
    requires s == "iffy"
    ensures Scan(s) == Output([Token("iffy", T_IDENTIFIER)], [0], [])
  {
    IffyAt0(s);
    ScanEnd(s);
    EmitOnto0(s, 0, 4, T_IDENTIFIER, "iffy", []);
  }

  // ---------------------------------------------------------------------------
  // The underscore: a word character for the boundary of the reserved-word rules,
  // but matched by no rule.

  lemma UnderscoreAt0(s: string)
    requires s == "x_int"
    ensures Emits(s, 0, 1, T_IDENTIFIER) && s[0..1] == "x"
  {
    assert IdentLength(s, 0) == 1 && s[0..1] == "x";
  }

  lemma UnderscoreAt1(s: string)
    requires s == "x_int"
    ensures !CommentOpensAt(s, 1) && Classify(s, 1).None? && s[1] == '_'
  {
  }

  lemma UnderscoreAt2(s: string)
    requires s == "x_int"
    ensures Emits(s, 2, 5, T_IDENTIFIER) && s[2..5] == "int"
  {
    assert IdentLength(s, 2) == 3 && s[2..5] == "int" && WordAt(s, 1);
  }

  lemma UnderscoreFrom2(s: string)
    requires s == "x_int"
    ensures ScanFrom(s, 2) == Output([Token("int", T_IDENTIFIER)], [2], [])
  {
    UnderscoreAt2(s);
    ScanEnd(s);
    EmitOnto0(s, 2, 5, T_IDENTIFIER, "int", []);
  }

  lemma UnderscoreFrom1(s: string)
    requires s == "x_int"
    ensures ScanFrom(s, 1) == Output([Token("int", T_IDENTIFIER)], [2], [Unrecognized(1, '_')])
  {
    UnderscoreAt1(s);
    UnderscoreFrom2(s);
    ReportBefore(s, 1, '_', Token("int", T_IDENTIFIER), 2);
  }

  /** In `x_int` the underscore is reported and the `int` after it is an identifier. */
  lemma UnderscoreBlocksKeyword(s: string)
    requires s == "x_int"
    ensures Scan(s) ==
      Output([Token("x", T_IDENTIFIER), Token("int", T_IDENTIFIER)], [0, 2], [Unrecognized(1, '_')])
  {
    UnderscoreAt0(s);
    UnderscoreFrom1(s);
    EmitOnto1(s, 0, 1, T_IDENTIFIER, "x", Token("int", T_IDENTIFIER), 2, [Unrecognized(1, '_')]);
  }

  /** A lone `3` at the start of `3int` or `3.` is a one-digit number. */
  lemma DigitAt0(s: string)
    requires s == "3int" || s == "3."
    ensures Emits(s, 0, 1, T_NUMBER) && s[0..1] == "3"
  {
    assert Run(s, 0, Digit) == 1 && s[0..1] == "3";
  }

  lemma DigitAt1(s: string)
    requires s == "3int"
    ensures Emits(s, 1, 4, T_IDENTIFIER) && s[1..4] == "int"
  {
    assert IdentLength(s, 1) == 3 && s[1..4] == "int" && WordAt(s, 0);
  }

  lemma DigitFrom1(s: string)
    requires s == "3int"
    ensures ScanFrom(s, 1) == Output([Token("int", T_IDENTIFIER)], [1], [])
  {
    DigitAt1(s);
    ScanEnd(s);
    EmitOnto0(s, 1, 4, T_IDENTIFIER, "int", []);
  }

  /** A digit is a word character too: in `3int` the word after the number is an identifier. */
  lemma DigitBlocksKeyword(s: string)
    requires s == "3int"
    ensures Scan(s) == Output([Token("3", T_NUMBER), Token("int", T_IDENTIFIER)], [0, 1], [])
  {
    DigitAt0(s);
    DigitFrom1(s);
    EmitOnto1(s, 0, 1, T_NUMBER, "3", Token("int", T_IDENTIFIER), 1, []);
  }

  // ---------------------------------------------------------------------------
  // Two-character operators

  lemma NotEqualAt0(s: string)
    requires s == "a<>b"
    ensures Emits(s, 0, 1, T_IDENTIFIER) && s[0..1] == "a"
  {
    assert IdentLength(s, 0) == 1 && s[0..1] == "a";
  }

  lemma NotEqualAt1(s: string)
    requires s == "a<>b"
    ensures Emits(s, 1, 3, T_NOTEQUAL) && s[1..3] == "<>"
  {
    assert s[1..3] == "<>";
  }

  lemma NotEqualAt3(s: string)
    requires s == "a<>b"
    ensures Emits(s, 3, 4, T_IDENTIFIER) && s[3..4] == "b"
  {
    assert IdentLength(s, 3) == 1 && s[3..4] == "b";
  }

  lemma NotEqualFrom3(s: string)
    requires s == "a<>b"
    ensures ScanFrom(s, 3) == Output([Token("b", T_IDENTIFIER)], [3], [])
  {
    NotEqualAt3(s);
    ScanEnd(s);
    EmitOnto0(s, 3, 4, T_IDENTIFIER, "b", []);
  }

  lemma NotEqualFrom1(s: string)
    requires s == "a<>b"
    ensures ScanFrom(s, 1) == Output([Token("<>", T_NOTEQUAL), Token("b", T_IDENTIFIER)], [1, 3], [])
  {
    NotEqualAt1(s);
    NotEqualFrom3(s);
    EmitOnto1(s, 1, 3, T_NOTEQUAL, "<>", Token("b", T_IDENTIFIER), 3, []);
  }

  /** The two-character operator wins over its one-character prefix. */
  lemma NotEqualIsOneToken(s: string)
    requires s == "a<>b"
    ensures Scan(s) ==
      Output([Token("a", T_IDENTIFIER), Token("<>", T_NOTEQUAL), Token("b", T_IDENTIFIER)], [0, 1, 3], [])
  {
    NotEqualAt0(s);
    NotEqualFrom1(s);
    EmitOnto2(s, 0, 1, T_IDENTIFIER, "a", Token("<>", T_NOTEQUAL), 1, Token("b", T_IDENTIFIER), 3, []);
  }

  // ---------------------------------------------------------------------------
  // Numbers

  lemma FractionAt0(s: string)
    requires s == "3.14"
    ensures Emits(s, 0, 4, T_NUMBER) && s[0..4] == "3.14"
  {
    assert Run(s, 0, Digit) == 1 && Run(s, 2, Digit) == 2 && s[0..4] == "3.14";
  }

  /** A fraction needs a digit after the point: `3.14` is one number. */
  lemma NumberWithFraction(s: string)
    requires s == "3.14"
    ensures Scan(s) == Output([Token("3.14", T_NUMBER)], [0], [])
  {
    FractionAt0(s);
    ScanEnd(s);
    EmitOnto0(s, 0, 4, T_NUMBER, "3.14", []);
  }

  lemma TrailingPointAt1(s: string)
    requires s == "3."
    ensures !CommentOpensAt(s, 1) && Classify(s, 1).None? && s[1] == '.'
  {
  }

  lemma TrailingPointFrom1(s: string)
    requires s == "3."
    ensures ScanFrom(s, 1) == Output([], [], [Unrecognized(1, '.')])
  {
    TrailingPointAt1(s);
    ScanReportsUnrecognized(s, 1);
    ScanEnd(s);
  }

  /** A bare trailing point is not part of the number and is reported. */
  lemma NumberWithTrailingPoint(s: string)
    requires s == "3."
    ensures Scan(s) == Output([Token("3", T_NUMBER)], [0], [Unrecognized(1, '.')])
  {
    DigitAt0(s);
    TrailingPointFrom1(s);
    EmitOnto0(s, 0, 1, T_NUMBER, "3", [Unrecognized(1, '.')]);
  }

  // ---------------------------------------------------------------------------
  // Comments

  lemma ClosedAt0(s: string)
    requires s == "x /* hi */ y"
    ensures Emits(s, 0, 1, T_IDENTIFIER) && s[0..1] == "x"
  {
    assert IdentLength(s, 0) == 1 && s[0..1] == "x";
  }

  lemma ClosedAt1(s: string)
    requires s == "x /* hi */ y"
    ensures !CommentOpensAt(s, 1) && Classify(s, 1) == Some(Munch(WHITESPACE, 1))
  {
    assert Run(s, 2, Blank) == 0;
    assert Run(s, 1, Blank) == 1;
  }

  lemma ClosedAt2(s: string)
    requires s == "x /* hi */ y"
    ensures CommentOpensAt(s, 2) && CloseAt(s, 8) && forall j :: 4 <= j < 8 ==> !CloseAt(s, j)
  {
  }

  lemma ClosedAt10(s: string)
    requires s == "x /* hi */ y"
    ensures !CommentOpensAt(s, 10) && Classify(s, 10) == Some(Munch(WHITESPACE, 1))
  {
    assert Run(s, 11, Blank) == 0;
    assert Run(s, 10, Blank) == 1;
  }

  lemma ClosedAt11(s: string)
    requires s == "x /* hi */ y"
    ensures Emits(s, 11, 12, T_IDENTIFIER) && s[11..12] == "y"
  {
    assert IdentLength(s, 11) == 1 && s[11..12] == "y";
  }

  lemma ClosedFrom11(s: string)
    requires s == "x /* hi */ y"
    ensures ScanFrom(s, 11) == Output([Token("y", T_IDENTIFIER)], [11], [])
  {
    ClosedAt11(s);
    ScanEnd(s);
    EmitOnto0(s, 11, 12, T_IDENTIFIER, "y", []);
  }

  lemma ClosedFrom10(s: string)
    requires s == "x /* hi */ y"
    ensures ScanFrom(s, 10) == Output([Token("y", T_IDENTIFIER)], [11], [])
  {
    ClosedAt10(s);
    ScanDropsWhitespace(s, 10, 11);
    ClosedFrom11(s);
  }

  lemma ClosedFrom2(s: string)
    requires s == "x /* hi */ y"
    ensures ScanFrom(s, 2) == Output([Token("y", T_IDENTIFIER)], [11], [])
  {
    ClosedAt2(s);
    ScanSkipsClosedComment(s, 2, 8);
    ClosedFrom10(s);
  }

  lemma ClosedFrom1(s: string)
    requires s == "x /* hi */ y"
    ensures ScanFrom(s, 1) == Output([Token("y", T_IDENTIFIER)], [11], [])
  {
    ClosedAt1(s);
    ScanDropsWhitespace(s, 1, 2);
    ClosedFrom2(s);
  }

  /** A closed comment and the blanks around it leave only the words outside it. */
  lemma ClosedComment(s: string)
    requires s == "x /* hi */ y"
    ensures Scan(s) == Output([Token("x", T_IDENTIFIER), Token("y", T_IDENTIFIER)], [0, 11], [])
  {
    ClosedAt0(s);
    ClosedFrom1(s);
    EmitOnto1(s, 0, 1, T_IDENTIFIER, "x", Token("y", T_IDENTIFIER), 11, []);
  }

  lemma UnclosedAt0(s: string)
    requires s == "x /* hi" || s == "x /*"
    ensures Emits(s, 0, 1, T_IDENTIFIER) && s[0..1] == "x"
  {
    assert IdentLength(s, 0) == 1 && s[0..1] == "x";
  }

  lemma UnclosedAt1(s: string)
    requires s == "x /* hi" || s == "x /*"
    ensures !CommentOpensAt(s, 1) && Classify(s, 1) == Some(Munch(WHITESPACE, 1))
  {
    assert Run(s, 2, Blank) == 0;
    assert Run(s, 1, Blank) == 1;
  }

  lemma UnclosedAt2(s: string)
    requires s == "x /* hi"
    ensures CommentOpensAt(s, 2) && Max(2 + 2, |s| - 1) == 6 && forall j :: 4 <= j < |s| ==> !CloseAt(s, j)
  {
  }

  lemma UnclosedAt6(s: string)
    requires s == "x /* hi"
    ensures Emits(s, 6, 7, T_IDENTIFIER) && s[6..7] == "i"
  {
    assert IdentLength(s, 6) == 1 && s[6..7] == "i";
  }

  lemma UnclosedFrom6(s: string)
    requires s == "x /* hi"
    ensures ScanFrom(s, 6) == Output([Token("i", T_IDENTIFIER)], [6], [])
  {
    UnclosedAt6(s);
    ScanEnd(s);
    EmitOnto0(s, 6, 7, T_IDENTIFIER, "i", []);
  }

  lemma UnclosedFrom2(s: string)
    requires s == "x /* hi"
    ensures ScanFrom(s, 2) == Output([Token("i", T_IDENTIFIER)], [6], [UnterminatedComment(2)])
  {
    UnclosedAt2(s);
    ScanReportsUnclosedComment(s, 2);
    UnclosedFrom6(s);
  }

  lemma UnclosedFrom1(s: string)
    requires s == "x /* hi"
    ensures ScanFrom(s, 1) == Output([Token("i", T_IDENTIFIER)], [6], [UnterminatedComment(2)])
  {
    UnclosedAt1(s);
    ScanDropsWhitespace(s, 1, 2);
    UnclosedFrom2(s);
  }

  /**
   * An unclosed comment is reported once, and its last character is scanned again:
   * an `x`, a blank, the opening marker, a blank and `hi` yield the identifiers `x` and `i`.
   */
  lemma UnclosedCommentRescansLastCharacter(s: string)
    requires s == "x /* hi"
    ensures Scan(s) ==
      Output([Token("x", T_IDENTIFIER), Token("i", T_IDENTIFIER)], [0, 6], [UnterminatedComment(2)])
  {
    UnclosedAt0(s);
    UnclosedFrom1(s);
    EmitOnto1(s, 0, 1, T_IDENTIFIER, "x", Token("i", T_IDENTIFIER), 6, [UnterminatedComment(2)]);
  }

  lemma MarkerAt2(s: string)
    requires s == "x /*"
    ensures CommentOpensAt(s, 2) && Max(2 + 2, |s| - 1) == |s|
  {
  }

  lemma MarkerFrom2(s: string)
    requires s == "x /*"
    ensures ScanFrom(s, 2) == Output([], [], [UnterminatedComment(2)])
  {
    MarkerAt2(s);
    ScanReportsUnclosedComment(s, 2);
    ScanEnd(s);
    assert [UnterminatedComment(2)] + [] == [UnterminatedComment(2)];
  }

  lemma MarkerFrom1(s: string)
    requires s == "x /*"
    ensures ScanFrom(s, 1) == Output([], [], [UnterminatedComment(2)])
  {
    UnclosedAt1(s);
    ScanDropsWhitespace(s, 1, 2);
    MarkerFrom2(s);
  }

  /**
   * An opening marker at the very end of the input is reported once and nothing is
   * scanned again: `x`, a blank and the marker yield only the identifier `x`.
   */
  lemma UnclosedMarkerAtEnd(s: string)
    requires s == "x /*"
    ensures Scan(s) == Output([Token("x", T_IDENTIFIER)], [0], [UnterminatedComment(2)])
  {
    UnclosedAt0(s);
    MarkerFrom1(s);
    EmitOnto0(s, 0, 1, T_IDENTIFIER, "x", [UnterminatedComment(2)]);
  }

  // ---------------------------------------------------------------------------
  // Characters no rule matches

  /** A lone colon, ampersand or bar matches nothing and is reported. */
  lemma LoneHalfReported(s: string)
    requires s == ":" || s == "&" || s == "|"
    ensures Scan(s) == Output([], [], [Unrecognized(0, s[0])])
  {
    ScanReportsUnrecognized(s, 0);
    ScanEnd(s);
  }

  lemma UnclosedStringAt0(s: string)
    requires s == "\"a"
    ensures !CommentOpensAt(s, 0) && Classify(s, 0).None? && s[0] == '"'
  {
    assert Run(s, 1, NotQuote) == 1;
  }

  lemma UnclosedStringAt1(s: string)
    requires s == "\"a"
    ensures Emits(s, 1, 2, T_IDENTIFIER) && s[1..2] == "a"
  {
    assert IdentLength(s, 1) == 1 && s[1..2] == "a";
  }

  lemma UnclosedStringFrom1(s: string)
    requires s == "\"a"
    ensures ScanFrom(s, 1) == Output([Token("a", T_IDENTIFIER)], [1], [])
  {
    UnclosedStringAt1(s);
    ScanEnd(s);
    EmitOnto0(s, 1, 2, T_IDENTIFIER, "a", []);
  }

  /** A string literal without its closing quote matches nothing: the quote is reported. */
  lemma UnclosedString(s: string)
    requires s == "\"a"
    ensures Scan(s) == Output([Token("a", T_IDENTIFIER)], [1], [Unrecognized(0, '"')])
  {
    UnclosedStringAt0(s);
    UnclosedStringFrom1(s);
    ReportBefore(s, 0, '"', Token("a", T_IDENTIFIER), 1);
  }
}
