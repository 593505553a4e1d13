/**
 * Properties of the scan of TINY_Compiler/Scanner.cs (lines 87-157): what the comment
 * path, the error path and the token path do, and what every emitted token is.
 */
module ScanProperties {
  import opened Tokens
  import opened Recognizers
  import opened Rules
  import opened Classification
  import opened Scanning

  /** An empty source yields no token and no diagnostic. */
  lemma ScanEmpty()
    ensures Scan("") == Output([], [], [])
  {
  }

  /**
   * A comment closed by a first closing marker at `q` produces nothing: the scan from
   * the opening marker is the scan from just past the closing one.
   */
  lemma ScanSkipsClosedComment(s: string, p: nat, q: nat)
    requires CommentOpensAt(s, p) && p + 2 <= q && CloseAt(s, q)
    requires forall j :: p + 2 <= j < q ==> !CloseAt(s, j)
    ensures ScanFrom(s, p) == ScanFrom(s, q + 2)
  {
    var c := CommentEnd(s, p + 2);
    assert c.terminated;
    assert c.next - 2 == q;
    ScanSkips(s, p, c.next);
  }

  /**
   * A comment with no closing marker after it yields exactly one diagnostic naming its
   * start, and scanning resumes at `max(p + 2, |s| - 1)`: when at least one character follows
   * the opening marker, the last character of the input is scanned again.
   */
  lemma ScanReportsUnclosedComment(s: string, p: nat)
    requires CommentOpensAt(s, p)
    requires forall j :: p + 2 <= j < |s| ==> !CloseAt(s, j)
    ensures var q := Max(p + 2, |s| - 1);
      var rest := ScanFrom(s, q);
      ScanFrom(s, p) == Output(rest.tokens, rest.positions, [UnterminatedComment(p)] + rest.errors)
  {
    var c := CommentEnd(s, p + 2);
    assert !c.terminated;
    ScanReports(s, p, c.next, UnterminatedComment(p));
  }

  /** A comment opening is never read as the operators `/` and `*`: no token starts inside it. */
  lemma CommentNotTokenized(s: string, p: nat)
    requires CommentOpensAt(s, p)
    ensures forall i :: 0 <= i < |ScanFrom(s, p).positions| ==> ScanFrom(s, p).positions[i] >= p + 2
  {
    var st := StepAt(s, p);
    ScanFromWellFormed(s, st.next);
    assert ScanFrom(s, p).positions == ScanFrom(s, st.next).positions;
  }

  /** The step taken where nothing is recognised. */
  lemma StepUnrecognized(s: string, p: nat)
    requires p < |s| && !CommentOpensAt(s, p) && Classify(s, p).None?
    ensures StepAt(s, p) == Step(p + 1, None, Some(Unrecognized(p, s[p])))
  {
    BestMatchIsClassify(s, p);
    UnmatchedStep(s, p);
  }

  /**
   * Where nothing is recognised, the scan reports the offset and the character and
   * moves on by exactly one character.
   */
  lemma ScanReportsUnrecognized(s: string, p: nat)
    requires p < |s| && !CommentOpensAt(s, p) && Classify(s, p).None?
    ensures var rest := ScanFrom(s, p + 1);
      ScanFrom(s, p) == Output(rest.tokens, rest.positions, [Unrecognized(p, s[p])] + rest.errors)
  {
    StepUnrecognized(s, p);
    ScanReports(s, p, p + 1, Unrecognized(p, s[p]));
  }

  /** The step taken where something is recognised over `[p, q)`. */
  lemma StepRecognized(s: string, p: nat, q: nat, t: TokenClass)
    requires p < |s| && p <= q && !CommentOpensAt(s, p) && Classify(s, p) == Some(Munch(t, q - p))
    ensures q <= |s|
    ensures StepAt(s, p) == Step(q, if t == WHITESPACE then None else Some(Token(s[p..q], t)), None)
  {
    BestMatchIsClassify(s, p);
    MatchedStep(s, p, q, t);
  }

  /** Where whitespace is recognised over `[p, q)`, the scan drops it and resumes at `q`. */
  lemma ScanDropsWhitespace(s: string, p: nat, q: nat)
    requires p < |s| && p <= q && !CommentOpensAt(s, p) && Classify(s, p) == Some(Munch(WHITESPACE, q - p))
    ensures q <= |s| && ScanFrom(s, p) == ScanFrom(s, q)
  {
    StepRecognized(s, p, q, WHITESPACE);
    ScanSkips(s, p, q);
  }

  /**
   * Where anything else is recognised over `[p, q)`, the scan emits that slice as a
   * token and resumes at `q`.
   */
  lemma ScanEmitsRecognized(s: string, p: nat, q: nat, t: TokenClass)
    requires p < |s| && p <= q && !CommentOpensAt(s, p) && Classify(s, p) == Some(Munch(t, q - p))
    requires t != WHITESPACE
    ensures q <= |s|
    ensures var rest := ScanFrom(s, q);
      ScanFrom(s, p) == Output([Token(s[p..q], t)] + rest.tokens, [p] + rest.positions, rest.errors)
  {
    StepRecognized(s, p, q, t);
    ScanEmits(s, p, q, Token(s[p..q], t));
  }

  /** Token `t` is what one step of the scan emits at offset `pos`. */
  predicate Emitted(s: string, pos: nat, t: Token) {
    pos < |s| && StepAt(s, pos).token == Some(t)
  }

  /** Every token of a scan is emitted by the step taken at its own offset. */
  lemma {:induction false} TokenEmitted(s: string, p: nat, i: nat)
    requires p <= |s| && i < |ScanFrom(s, p).tokens|
    ensures Emitted(s, ScanFrom(s, p).positions[i], ScanFrom(s, p).tokens[i])
    decreases |s| - p
  {
    var st := StepAt(s, p);
    var rest := ScanFrom(s, st.next);
    var r := ScanFrom(s, p);
    if st.token.Some? {
      assert r.tokens == [st.token.value] + rest.tokens && r.positions == [p] + rest.positions;
      if i > 0 {
        TokenEmitted(s, st.next, i - 1);
      }
    } else {
      assert r.tokens == rest.tokens && r.positions == rest.positions;
      TokenEmitted(s, st.next, i);
    }
  }

  /** A token a step emits is what the first-character dispatch recognises there. */
  lemma EmittedIsClassified(s: string, pos: nat, t: Token)
    requires Emitted(s, pos, t)
    ensures !CommentOpensAt(s, pos)
    ensures pos + |t.lex| <= |s| && t.lex == s[pos..pos + |t.lex|]
    ensures Classify(s, pos) == Some(Munch(t.tokenType, |t.lex|))
  {
    TokenStepSelected(s, pos, t);
    BestMatchIsClassify(s, pos);
  }

  /** Every token of the scan is what the first-character dispatch recognises at its offset. */
  lemma EveryTokenClassified(s: string, i: nat)
    requires i < |Scan(s).tokens|
    ensures var t, pos := Scan(s).tokens[i], Scan(s).positions[i];
      pos < |s| && !CommentOpensAt(s, pos) && Classify(s, pos) == Some(Munch(t.tokenType, |t.lex|))
  {
    TokenEmitted(s, 0, i);
    EmittedIsClassified(s, Scan(s).positions[i], Scan(s).tokens[i]);
  }

  /** The classes of the reserved words. */
  predicate IsReservedClass(t: TokenClass) {
    t in {T_INT, T_FLOAT, T_STRING_KEY, T_READ, T_WRITE, T_REPEAT, T_UNTIL,
          T_IF, T_ELSEIF, T_ELSE, T_THEN, T_RETURN, T_ENDL, T_MAIN}
  }

  lemma KeywordClassIsReserved(w: string)
    requires KeywordClass(w).Some?
    ensures IsReservedClass(KeywordClass(w).value)
  {
  }

  /** Away from a letter, nothing is recognised as a reserved word or an identifier. */
  lemma NonLetterClass(s: string, pos: nat)
    requires pos < |s| && !IsLetter(s[pos]) && Classify(s, pos).Some?
    ensures !IsReservedClass(Classify(s, pos).value.tokenType)
    ensures Classify(s, pos).value.tokenType != T_IDENTIFIER
  {
  }

  /** A token emitted at a letter is the identifier-shaped word there, classed by the letter case. */
  lemma EmittedAtLetter(s: string, pos: nat, t: Token)
    requires Emitted(s, pos, t) && IsLetter(s[pos])
    ensures |t.lex| == IdentLength(s, pos) && t.lex == s[pos..pos + IdentLength(s, pos)]
    ensures t.tokenType == LetterClass(s, pos)
  {
    EmittedIsClassified(s, pos, t);
    ClassifyLetter(s, pos);
  }

  /** A token emitted away from a letter is neither a reserved word nor an identifier. */
  lemma EmittedElsewhere(s: string, pos: nat, t: Token)
    requires Emitted(s, pos, t) && !IsLetter(s[pos])
    ensures !IsReservedClass(t.tokenType) && t.tokenType != T_IDENTIFIER
  {
    EmittedIsClassified(s, pos, t);
    NonLetterClass(s, pos);
  }

  /** A reserved word classed by the letter case is that word, standing alone. */
  lemma LetterClassReserved(s: string, pos: nat)
    requires pos < |s| && IsLetter(s[pos])
    ensures var n := IdentLength(s, pos); var w := s[pos..pos + n];
      IsReservedClass(LetterClass(s, pos)) ==>
        KeywordClass(w) == Some(LetterClass(s, pos)) && !WordAt(s, pos - 1) && !WordAt(s, pos + n)
  {
  }

  /** An identifier classed by the letter case is not a reserved word standing alone. */
  lemma LetterClassIdentifier(s: string, pos: nat)
    requires pos < |s| && IsLetter(s[pos])
    ensures var n := IdentLength(s, pos); var w := s[pos..pos + n];
      LetterClass(s, pos) == T_IDENTIFIER ==> KeywordClass(w).None? || WordAt(s, pos - 1) || WordAt(s, pos + n)
  {
    if ReservedAt(s, pos) {
      KeywordClassIsReserved(s[pos..pos + IdentLength(s, pos)]);
    }
  }

  /**
   * A reserved-word token is exactly that word with no word character on either side;
   * an identifier token is never a reserved word standing alone and is never followed
   * by a letter or digit (it is not split).
   */
  predicate WholeWord(s: string, pos: nat, t: Token) {
    && (IsReservedClass(t.tokenType) ==>
          KeywordClass(t.lex) == Some(t.tokenType) && !WordAt(s, pos - 1) && !WordAt(s, pos + |t.lex|))
    && (t.tokenType == T_IDENTIFIER ==>
          && (KeywordClass(t.lex).None? || WordAt(s, pos - 1) || WordAt(s, pos + |t.lex|))
          && (pos + |t.lex| < |s| ==> !IsAlphaNum(s[pos + |t.lex|])))
  }

  /** The word the letter case classes is whole. */
  lemma LetterWordWhole(s: string, pos: nat, t: Token)
    requires pos < |s| && IsLetter(s[pos])
    requires |t.lex| == IdentLength(s, pos) && t.lex == s[pos..pos + IdentLength(s, pos)]
    requires t.tokenType == LetterClass(s, pos)
    ensures WholeWord(s, pos, t)
  {
    LetterClassReserved(s, pos);
    LetterClassIdentifier(s, pos);
  }

  /** Every token a step emits is whole in the sense of `WholeWord`. */
  lemma EmittedWord(s: string, pos: nat, t: Token)
    requires Emitted(s, pos, t)
    ensures WholeWord(s, pos, t)
  {
    if IsLetter(s[pos]) {
      EmittedAtLetter(s, pos, t);
      LetterWordWhole(s, pos, t);
    } else {
      EmittedElsewhere(s, pos, t);
    }
  }

  /** Reserved words are recognised only as whole words, wherever a token stands in the scan. */
  lemma WholeWordsOnly(s: string, i: nat)
    requires i < |Scan(s).tokens|
    ensures WholeWord(s, Scan(s).positions[i], Scan(s).tokens[i])
  {
    TokenEmitted(s, 0, i);
    EmittedWord(s, Scan(s).positions[i], Scan(s).tokens[i]);
  }

  /**
   * What justifies a diagnostic: a character is reported only where no comment opens
   * and nothing is recognised, and a comment only where no closing marker follows it.
   */
  predicate Justified(s: string, e: LexError) {
    match e
    case Unrecognized(k, c) => k < |s| && s[k] == c && !CommentOpensAt(s, k) && Classify(s, k).None?
    case UnterminatedComment(k) =>
      k < |s| && CommentOpensAt(s, k) && forall j :: k + 2 <= j < |s| ==> !CloseAt(s, j)
  }

  /** A diagnostic about a character: the step at `k` took the error path. */
  lemma UnrecognizedJustified(s: string, k: nat, c: char)
    requires k < |s| && StepAt(s, k).error == Some(Unrecognized(k, c))
    ensures Justified(s, Unrecognized(k, c))
  {
    StepFacts(s, k);
    var m := BestMatch(s, k);
    BestMatchFits(s, k);
    assert StepAt(s, k) == MatchStep(s, k, m);
    assert m.None?;
    BestMatchIsClassify(s, k);
  }

  /** A diagnostic about a comment: the step at `k` found no closing marker. */
  lemma UnclosedJustified(s: string, k: nat)
    requires k < |s| && StepAt(s, k).error == Some(UnterminatedComment(k))
    ensures Justified(s, UnterminatedComment(k))
  {
    StepFacts(s, k);
    CommentStep(s, k);
  }

  /** Every diagnostic of a scan is justified by the text at its offset. */
  lemma ErrorJustified(s: string, p: nat, i: nat)
    requires p <= |s| && i < |ScanFrom(s, p).errors|
    ensures Justified(s, ScanFrom(s, p).errors[i])
  {
    ErrorReported(s, p, i);
    match ScanFrom(s, p).errors[i]
    case Unrecognized(k, c) => UnrecognizedJustified(s, k, c);
    case UnterminatedComment(k) => UnclosedJustified(s, k);
  }

  /** Every diagnostic of the whole scan is justified by the text at its offset. */
  lemma EveryErrorJustified(s: string)
    ensures forall i :: 0 <= i < |Scan(s).errors| ==> Justified(s, Scan(s).errors[i])
  {
    forall i | 0 <= i < |Scan(s).errors|
      ensures Justified(s, Scan(s).errors[i])
    {
      ErrorJustified(s, 0, i);
    }
  }
}
