/**
 * What one call of `StartScanning` (TINY_Compiler/Scanner.cs, lines 87-157) computes,
 * as functions of the source string: the comment skip (lines 96-117), one iteration
 * of the main loop, and the whole scan.
 */
module Scanning {
  import opened Tokens
  import opened Recognizers
  import opened Rules
  import opened Classification

  function Max(a: int, b: int): int { if a < b then b else a }

  // The opening marker (slash, star) starts at `p`.
  predicate CommentOpensAt(s: string, p: nat) { PairAt(s, p, '/', '*') }

  // The closing marker (star, slash) starts at `q`.
  predicate CloseAt(s: string, q: nat) { PairAt(s, q, '*', '/') }

  /** Where the comment loop leaves the cursor and whether it saw the closing marker. */
  datatype CommentScan = CommentScan(next: nat, terminated: bool)

  /**
   * The inner loop of lines 101-110, run from cursor `i`: it stops just past the first
   * closing marker at or after `i`, or, when there is none, at `max(i, |s| - 1)`.
   */
  function CommentEnd(s: string, i: nat): (r: CommentScan)
    requires i <= |s|
    ensures r.next <= |s|
    ensures r.terminated ==>
      i + 2 <= r.next && CloseAt(s, r.next - 2) && forall j :: i <= j < r.next - 2 ==> !CloseAt(s, j)
    ensures !r.terminated ==>
      r.next == Max(i, |s| - 1) && forall j :: i <= j < |s| ==> !CloseAt(s, j)
    decreases |s| - i
  {
    if i + 1 < |s| then
      if s[i] == '*' && s[i + 1] == '/' then CommentScan(i + 2, true) else CommentEnd(s, i + 1)
    else CommentScan(i, false)
  }

  /** The effect of one iteration of the main loop: the new cursor, the token and the diagnostic it adds. */
  datatype Step = Step(next: nat, token: Option<Token>, error: Option<LexError>)

  /** The selection `m` at `p` names a non-empty slice inside the source. */
  predicate Fits(s: string, p: nat, m: Option<Hit>) {
    m.Some? ==> 1 <= m.value.length && p + m.value.length <= |s|
  }

  /**
   * What the main loop does with the selection `m` made at `p` away from a comment:
   * emit the selected slice (whitespace is dropped), or report the character at `p`.
   */
  function MatchStep(s: string, p: nat, m: Option<Hit>): (r: Step)
    requires p < |s| && Fits(s, p, m)
    ensures p < r.next <= |s|
  {
    match m
    case None => Step(p + 1, None, Some(Unrecognized(p, s[p])))
    case Some(h) =>
      var lex := s[p..p + h.length];
      Step(p + h.length, if h.tokenType == WHITESPACE then None else Some(Token(lex, h.tokenType)), None)
  }

  /** The selection of the table always fits. */
  lemma BestMatchFits(s: string, p: nat)
    requires p <= |s|
    ensures Fits(s, p, BestMatch(s, p))
  {
  }

  /**
   * One iteration of the main loop at cursor `p`: the comment path, the path that
   * emits a token or drops whitespace, and the path that reports one character.
   */
  function StepAt(s: string, p: nat): (r: Step)
    requires p < |s|
    ensures p < r.next <= |s|
  {
    if CommentOpensAt(s, p) then
      var c := CommentEnd(s, p + 2);
      Step(c.next, None, if c.terminated then None else Some(UnterminatedComment(p)))
    else
      BestMatchFits(s, p);
      MatchStep(s, p, BestMatch(s, p))
  }

  /** The step taken at a comment opening. */
  lemma CommentStep(s: string, p: nat)
    requires p < |s| && CommentOpensAt(s, p)
    ensures var c := CommentEnd(s, p + 2);
      StepAt(s, p) == Step(c.next, None, if c.terminated then None else Some(UnterminatedComment(p)))
  {
  }

  /** What is done with a selection of class `t` over `[p, q)`. */
  lemma MatchStepMatched(s: string, p: nat, m: Option<Hit>, q: nat, t: TokenClass)
    requires p < |s| && p <= q && Fits(s, p, m) && Project(m) == Some(Munch(t, q - p))
    ensures q <= |s|
    ensures MatchStep(s, p, m) == Step(q, if t == WHITESPACE then None else Some(Token(s[p..q], t)), None)
  {
  }

  /** A token produced from a selection is the selected slice, of the selected class. */
  lemma MatchStepToken(s: string, p: nat, m: Option<Hit>, t: Token)
    requires p < |s| && Fits(s, p, m) && MatchStep(s, p, m).token == Some(t)
    ensures Project(m) == Some(Munch(t.tokenType, |t.lex|))
    ensures p + |t.lex| <= |s| && t.lex == s[p..p + |t.lex|]
  {
  }

  /** A step that emits a token does not start at a comment opening and emits what the table selects. */
  lemma TokenStepSelected(s: string, p: nat, t: Token)
    requires p < |s| && StepAt(s, p).token == Some(t)
    ensures !CommentOpensAt(s, p)
    ensures Project(BestMatch(s, p)) == Some(Munch(t.tokenType, |t.lex|))
    ensures p + |t.lex| <= |s| && t.lex == s[p..p + |t.lex|]
  {
    BestMatchFits(s, p);
    MatchStepToken(s, p, BestMatch(s, p), t);
  }

  /** The step taken where the table selects a match over `[p, q)`. */
  lemma MatchedStep(s: string, p: nat, q: nat, t: TokenClass)
    requires p < |s| && p <= q && !CommentOpensAt(s, p) && Project(BestMatch(s, p)) == Some(Munch(t, q - p))
    ensures q <= |s|
    ensures StepAt(s, p) == Step(q, if t == WHITESPACE then None else Some(Token(s[p..q], t)), None)
  {
    var m := BestMatch(s, p);
    BestMatchFits(s, p);
    assert StepAt(s, p) == MatchStep(s, p, m);
    MatchStepMatched(s, p, m, q, t);
  }

  /** The step taken where no rule of the table matches. */
  lemma UnmatchedStep(s: string, p: nat)
    requires p < |s| && !CommentOpensAt(s, p) && BestMatch(s, p).None?
    ensures StepAt(s, p) == Step(p + 1, None, Some(Unrecognized(p, s[p])))
  {
  }

  /** The two outputs of a scan; `positions[i]` is the offset where `tokens[i]` was matched. */
  datatype Output = Output(tokens: seq<Token>, positions: seq<nat>, errors: seq<LexError>)

  /** A diagnostic describes what is really at its offset. */
  predicate Describes(s: string, e: LexError) {
    match e
    case UnterminatedComment(k) => CommentOpensAt(s, k)
    case Unrecognized(k, c) => k < |s| && s[k] == c
  }

  /**
   * Tokens are slices of the source found at or after `p`, in increasing and
   * non-overlapping order, and never of a non-emitted class.
   */
  ghost predicate TokensWellFormed(s: string, p: nat, r: Output) {
    && |r.tokens| == |r.positions|
    && (forall i :: 0 <= i < |r.tokens| ==> p <= r.positions[i] && SliceAt(s, r.positions[i], r.tokens[i]))
    && (forall i :: 0 < i < |r.tokens| ==> r.positions[i - 1] + |r.tokens[i - 1].lex| <= r.positions[i])
  }

  /** `t` is a non-empty slice of `s` starting at `pos`, of a class that may be emitted. */
  predicate SliceAt(s: string, pos: nat, t: Token) {
    && |t.lex| >= 1
    && pos + |t.lex| <= |s|
    && t.lex == s[pos..pos + |t.lex|]
    && Emittable(t.tokenType)
  }

  /** Diagnostics report offsets at or after `p`, strictly increasing, and describe what is there. */
  ghost predicate ErrorsWellFormed(s: string, p: nat, r: Output) {
    && (forall i :: 0 <= i < |r.errors| ==> p <= r.errors[i].Offset() < |s| && Describes(s, r.errors[i]))
    && (forall i, j :: 0 <= i < j < |r.errors| ==> r.errors[i].Offset() < r.errors[j].Offset())
  }

  ghost predicate WellFormed(s: string, p: nat, r: Output) {
    TokensWellFormed(s, p, r) && ErrorsWellFormed(s, p, r)
  }

  /** Prepends what one step adds at cursor `p` to the output of the rest of the scan. */
  function Emit(p: nat, st: Step, rest: Output): Output {
    Output(
      (if st.token.Some? then [st.token.value] else []) + rest.tokens,
      (if st.token.Some? then [p] else []) + rest.positions,
      (if st.error.Some? then [st.error.value] else []) + rest.errors)
  }

  /** What every step promises about the token it adds. */
  predicate TokenStep(s: string, p: nat, st: Step) {
    && p < st.next <= |s|
    && (st.token.Some? ==> st.next == p + |st.token.value.lex| && SliceAt(s, p, st.token.value))
  }

  /** What every step promises about the diagnostic it adds. */
  predicate ErrorStep(s: string, p: nat, st: Step) {
    && p < st.next <= |s|
    && (st.error.Some? ==> st.error.value.Offset() == p && Describes(s, st.error.value))
  }

  /**
   * Every step moves forward and adds at most one thing: a token that is the slice it
   * consumed, or a true diagnostic about the cursor; a comment opening is never a token.
   */
  lemma StepFacts(s: string, p: nat)
    requires p < |s|
    ensures var r := StepAt(s, p);
      && (CommentOpensAt(s, p) ==> p + 2 <= r.next && r.token.None?)
      && TokenStep(s, p, r) && ErrorStep(s, p, r)
      && (r.error.Some? ==> r.token.None?)
      && (r.error == Some(Unrecognized(p, s[p])) ==> r.next == p + 1)
  {
    if !CommentOpensAt(s, p) && BestMatch(s, p).Some? {
      TableClasses(BestMatch(s, p).value.index);
    }
  }

  /** Prepending a token that ends where the rest begins keeps the token list well formed. */
  lemma PrependToken(s: string, p: nat, t: Token, rest: Output)
    requires SliceAt(s, p, t) && TokensWellFormed(s, p + |t.lex|, rest)
    ensures TokensWellFormed(s, p, Output([t] + rest.tokens, [p] + rest.positions, rest.errors))
  {
    var ts, ps := [t] + rest.tokens, [p] + rest.positions;
    forall i | 0 <= i < |ts|
      ensures p <= ps[i] && SliceAt(s, ps[i], ts[i])
    {
      if i > 0 {
        assert ts[i] == rest.tokens[i - 1] && ps[i] == rest.positions[i - 1];
      }
    }
    forall i | 0 < i < |ts|
      ensures ps[i - 1] + |ts[i - 1].lex| <= ps[i]
    {
      assert ps[i] == rest.positions[i - 1];
      if i > 1 {
        assert ts[i - 1] == rest.tokens[i - 2] && ps[i - 1] == rest.positions[i - 2];
      }
    }
  }

  lemma EmitTokens(s: string, p: nat, st: Step, rest: Output)
    requires TokenStep(s, p, st) && TokensWellFormed(s, st.next, rest)
    ensures TokensWellFormed(s, p, Emit(p, st, rest))
  {
    if st.token.Some? {
      PrependToken(s, p, st.token.value, rest);
    }
  }

  lemma EmitErrors(s: string, p: nat, st: Step, rest: Output)
    requires ErrorStep(s, p, st) && ErrorsWellFormed(s, st.next, rest)
    ensures ErrorsWellFormed(s, p, Emit(p, st, rest))
  {
    var r := Emit(p, st, rest);
    if st.error.Some? {
      assert r.errors == [st.error.value] + rest.errors;
      forall i, j | 0 <= i < j < |r.errors|
        ensures r.errors[i].Offset() < r.errors[j].Offset()
      {
        assert r.errors[j] == rest.errors[j - 1];
      }
    }
  }

  /** The scan from cursor `p` to the end of the string. */
  function ScanFrom(s: string, p: nat): (r: Output)
    requires p <= |s|
    ensures |r.tokens| == |r.positions|
    ensures |r.tokens| + |r.errors| <= |s| - p
    decreases |s| - p
  {
    if p == |s| then Output([], [], [])
    else
      var st := StepAt(s, p);
      StepFacts(s, p);
      Emit(p, st, ScanFrom(s, st.next))
  }

  /** One step of the scan, unfolded. */
  lemma ScanFromUnfold(s: string, p: nat)
    requires p < |s|
    ensures ScanFrom(s, p) == Emit(p, StepAt(s, p), ScanFrom(s, StepAt(s, p).next))
  {
  }

  /** A step that adds nothing leaves the scan from its cursor unchanged. */
  lemma ScanSkips(s: string, p: nat, q: nat)
    requires p < |s| && q <= |s| && StepAt(s, p) == Step(q, None, None)
    ensures ScanFrom(s, p) == ScanFrom(s, q)
  {
    ScanFromUnfold(s, p);
  }

  /** A step that adds a token puts it in front of the scan from its new cursor. */
  lemma ScanEmits(s: string, p: nat, q: nat, t: Token)
    requires p < |s| && q <= |s| && StepAt(s, p) == Step(q, Some(t), None)
    ensures var rest := ScanFrom(s, q);
      ScanFrom(s, p) == Output([t] + rest.tokens, [p] + rest.positions, rest.errors)
  {
    ScanFromUnfold(s, p);
  }

  /** A step that adds a diagnostic puts it in front of the scan from its new cursor. */
  lemma ScanReports(s: string, p: nat, q: nat, e: LexError)
    requires p < |s| && q <= |s| && StepAt(s, p) == Step(q, None, Some(e))
    ensures var rest := ScanFrom(s, q);
      ScanFrom(s, p) == Output(rest.tokens, rest.positions, [e] + rest.errors)
  {
    ScanFromUnfold(s, p);
  }

  /** Every scan is well formed: its tokens are ordered slices of the source, its diagnostics ordered and true. */
  lemma {:induction false} ScanFromWellFormed(s: string, p: nat)
    requires p <= |s|
    ensures WellFormed(s, p, ScanFrom(s, p))
    decreases |s| - p
  {
    if p < |s| {
      var st := StepAt(s, p);
      var rest := ScanFrom(s, st.next);
      StepFacts(s, p);
      ScanFromWellFormed(s, st.next);
      EmitTokens(s, p, st, rest);
      EmitErrors(s, p, st, rest);
    }
  }

  /**
   * Every diagnostic of a scan is the one the step taken at its own offset reports:
   * the converse of the comment and error paths.
   */
  lemma {:induction false} ErrorReported(s: string, p: nat, i: nat)
    requires p <= |s| && i < |ScanFrom(s, p).errors|
    ensures var e := ScanFrom(s, p).errors[i];
      p <= e.Offset() < |s| && StepAt(s, e.Offset()).error == Some(e)
    decreases |s| - p
  {
    assert p < |s|;
    var st := StepAt(s, p);
    var rest := ScanFrom(s, st.next);
    var r := ScanFrom(s, p);
    if st.error.Some? {
      assert r.errors == [st.error.value] + rest.errors;
      if i == 0 {
        ErrorAtCursor(s, p);
        assert r.errors[i] == st.error.value;
      } else {
        ErrorReported(s, st.next, i - 1);
        assert r.errors[i] == rest.errors[i - 1];
      }
    } else {
      assert r.errors == rest.errors;
      ErrorReported(s, st.next, i);
    }
  }

  /** The diagnostic a step adds names the cursor of that step. */
  lemma ErrorAtCursor(s: string, p: nat)
    requires p < |s| && StepAt(s, p).error.Some?
    ensures StepAt(s, p).error.value.Offset() == p
  {
    StepFacts(s, p);
  }

  /** The whole scan of a source string: at most one token or diagnostic per character. */
  function Scan(s: string): (r: Output)
    ensures |r.tokens| == |r.positions|
    ensures |r.tokens| + |r.errors| <= |s|
  {
    ScanFrom(s, 0)
  }
}
