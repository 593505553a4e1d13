/**
 * The `Scanner` object of TINY_Compiler/Scanner.cs (lines 33-157): its rule table,
 * filled by the constructor, and `StartScanning`, which rebuilds the token list and the
 * diagnostic list from a source string, proved to compute what `Scan` describes.
 */
module ScannerObject {
  import opened Tokens
  import opened Recognizers
  import opened Rules
  import opened Classification
  import opened Scanning

  /** The application-wide diagnostic list the scanner clears and appends to. */
  class ErrorList {
    var list: seq<LexError>

    constructor()
      ensures list == []
    {
      list := [];
    }
  }

  /** What is already in the lists, followed by the scan from `i`, is the whole scan. */
  ghost predicate Pending(s: string, i: nat, tokens: seq<Token>, errors: seq<LexError>)
    requires i <= |s|
  {
    tokens + ScanFrom(s, i).tokens == Scan(s).tokens && errors + ScanFrom(s, i).errors == Scan(s).errors
  }

  function TokensOf(st: Step): seq<Token> {
    if st.token.Some? then [st.token.value] else []
  }

  function ErrorsOf(st: Step): seq<LexError> {
    if st.error.Some? then [st.error.value] else []
  }

  /** Moving one step's output from the scan still to come into the lists keeps the whole. */
  lemma PendingShift<T>(done: seq<T>, added: seq<T>, rest: seq<T>, whole: seq<T>)
    requires done + (added + rest) == whole
    ensures (done + added) + rest == whole
  {
    assert done + (added + rest) == (done + added) + rest;
  }

  /** Adding what the step at `i` adds and moving to its cursor keeps the lists on course. */
  lemma PendingStep(s: string, i: nat, tokens: seq<Token>, errors: seq<LexError>)
    requires i < |s| && Pending(s, i, tokens, errors)
    ensures Pending(s, StepAt(s, i).next, tokens + TokensOf(StepAt(s, i)), errors + ErrorsOf(StepAt(s, i)))
  {
    var st := StepAt(s, i);
    var rest := ScanFrom(s, st.next);
    ScanFromUnfold(s, i);
    assert ScanFrom(s, i).tokens == TokensOf(st) + rest.tokens;
    assert ScanFrom(s, i).errors == ErrorsOf(st) + rest.errors;
    PendingShift(tokens, TokensOf(st), rest.tokens, Scan(s).tokens);
    PendingShift(errors, ErrorsOf(st), rest.errors, Scan(s).errors);
  }

  /**
   * The loop of the `foreach` over `rules` at `currentIndex`: a rule replaces the best
   * match so far only when its own match is strictly longer.
   */
  method SelectLongest(rules: seq<Rule>, sourceCode: string, currentIndex: nat)
    returns (bestLength: Option<nat>, bestTokenType: TokenClass)
    requires ValidRules(rules) && currentIndex <= |sourceCode|
    ensures Project(BestOf(rules, sourceCode, currentIndex)) ==
      if bestLength.None? then None else Some(Munch(bestTokenType, bestLength.value))
    ensures bestLength.None? ==> bestTokenType == ERROR
  {
    bestLength := None;
    bestTokenType := ERROR;
    for k := 0 to |rules|
      invariant Project(BestOf(rules[..k], sourceCode, currentIndex)) ==
        if bestLength.None? then None else Some(Munch(bestTokenType, bestLength.value))
      invariant bestLength.None? ==> bestTokenType == ERROR
    {
      var definition := rules[k];
      assert rules[..k + 1][..k] == rules[..k];
      var currentMatch := MatchAt(definition.pattern, sourceCode, currentIndex);
      if currentMatch.Some? {
        if bestLength.None? || currentMatch.value > bestLength.value {
          bestLength := currentMatch;
          bestTokenType := definition.tokenType;
        }
      }
    }
    assert rules[..|rules|] == rules;
  }

  class Scanner {
    /** The tokens of the last scan, in source order. */
    var tokens: seq<Token>
    /** The rules in registration order: a pattern and the class it yields. */
    var tokenDefinitions: seq<Rule>

    ghost predicate Valid()
      reads this`tokenDefinitions
    {
      tokenDefinitions == RuleTable()
    }

    /** Registers the 35 rules of the table in their order: whitespace first, the identifier rule last. */
    constructor()
      ensures Valid() && tokens == []
    {
      tokens := [];
      tokenDefinitions := RuleTable();
    }

    /**
     * The inner loop of the comment path: from just past the opening marker at `start`,
     * look for the closing marker two characters at a time.
     */
    method SkipComment(sourceCode: string, start: nat) returns (next: nat, terminated: bool)
      requires start + 2 <= |sourceCode|
      ensures CommentScan(next, terminated) == CommentEnd(sourceCode, start + 2)
    {
      next := start + 2;
      terminated := false;
      while next + 1 < |sourceCode|
        invariant start + 2 <= next <= |sourceCode|
        invariant CommentEnd(sourceCode, start + 2) == CommentEnd(sourceCode, next)
        decreases |sourceCode| - next
      {
        if sourceCode[next] == '*' && sourceCode[next + 1] == '/' {
          next := next + 2;
          terminated := true;
          break;
        }
        next := next + 1;
      }
    }

    /**
     * The `foreach` over the rule table at `currentIndex`: the length and class of the
     * longest anchored match, the first registered among equally long ones.
     */
    method LongestMatch(sourceCode: string, currentIndex: nat) returns (bestLength: Option<nat>, bestTokenType: TokenClass)
      requires Valid() && currentIndex <= |sourceCode|
      ensures Project(BestMatch(sourceCode, currentIndex)) ==
        if bestLength.None? then None else Some(Munch(bestTokenType, bestLength.value))
      ensures bestLength.None? ==> bestTokenType == ERROR
    {
      bestLength, bestTokenType := SelectLongest(tokenDefinitions, sourceCode, currentIndex);
    }

    /**
     * The comment path of the main loop at `currentIndex`: skip to just past the closing
     * marker, or report the comment as unterminated; no token is added.
     */
    method ScanComment(sourceCode: string, currentIndex: nat, errors: ErrorList) returns (next: nat)
      requires currentIndex < |sourceCode| && CommentOpensAt(sourceCode, currentIndex)
      modifies errors`list
      ensures next == StepAt(sourceCode, currentIndex).next
      ensures tokens == old(tokens) + TokensOf(StepAt(sourceCode, currentIndex))
      ensures errors.list == old(errors.list) + ErrorsOf(StepAt(sourceCode, currentIndex))
    {
      CommentStep(sourceCode, currentIndex);
      var commentStartIndex := currentIndex;
      var commentTerminated;
      next, commentTerminated := SkipComment(sourceCode, commentStartIndex);
      if !commentTerminated {
        errors.list := errors.list + [UnterminatedComment(commentStartIndex)];
      }
    }

    /** Adds the token selected over `[currentIndex, next)`, unless it is whitespace. */
    method AddSelected(sourceCode: string, currentIndex: nat, length: nat, tokenType: TokenClass) returns (next: nat)
      requires currentIndex < |sourceCode| && !CommentOpensAt(sourceCode, currentIndex)
      requires Project(BestMatch(sourceCode, currentIndex)) == Some(Munch(tokenType, length))
      modifies this`tokens
      ensures next == StepAt(sourceCode, currentIndex).next
      ensures tokens == old(tokens) + TokensOf(StepAt(sourceCode, currentIndex))
      ensures ErrorsOf(StepAt(sourceCode, currentIndex)) == []
    {
      next := currentIndex + length;
      MatchedStep(sourceCode, currentIndex, next, tokenType);
      if tokenType != WHITESPACE {
        tokens := tokens + [Token(sourceCode[currentIndex..next], tokenType)];
      }
    }

    /** Reports the character at `currentIndex`, where no rule matches. */
    method ReportUnmatched(sourceCode: string, currentIndex: nat, errors: ErrorList) returns (next: nat)
      requires currentIndex < |sourceCode| && !CommentOpensAt(sourceCode, currentIndex)
      requires BestMatch(sourceCode, currentIndex).None?
      modifies errors`list
      ensures next == StepAt(sourceCode, currentIndex).next
      ensures TokensOf(StepAt(sourceCode, currentIndex)) == []
      ensures errors.list == old(errors.list) + ErrorsOf(StepAt(sourceCode, currentIndex))
    {
      UnmatchedStep(sourceCode, currentIndex);
      errors.list := errors.list + [Unrecognized(currentIndex, sourceCode[currentIndex])];
      next := currentIndex + 1;
    }

    /**
     * The token path of the main loop at `currentIndex`: add the selected token (whitespace
     * is dropped), or report the character where no rule matches.
     */
    method ScanToken(sourceCode: string, currentIndex: nat, errors: ErrorList) returns (next: nat)
      requires Valid() && currentIndex < |sourceCode| && !CommentOpensAt(sourceCode, currentIndex)
      modifies this`tokens, errors`list
      ensures next == StepAt(sourceCode, currentIndex).next
      ensures tokens == old(tokens) + TokensOf(StepAt(sourceCode, currentIndex))
      ensures errors.list == old(errors.list) + ErrorsOf(StepAt(sourceCode, currentIndex))
    {
      var bestLength, bestTokenType := LongestMatch(sourceCode, currentIndex);
      if bestLength.Some? {
        next := AddSelected(sourceCode, currentIndex, bestLength.value, bestTokenType);
      } else {
        next := ReportUnmatched(sourceCode, currentIndex, errors);
      }
    }

    /**
     * One pass of the main loop at `currentIndex`: the comment path or the token path;
     * returns the new cursor.
     */
    method ScanOnce(sourceCode: string, currentIndex: nat, errors: ErrorList) returns (next: nat)
      requires Valid() && currentIndex < |sourceCode|
      modifies this`tokens, errors`list
      ensures next == StepAt(sourceCode, currentIndex).next
      ensures tokens == old(tokens) + TokensOf(StepAt(sourceCode, currentIndex))
      ensures errors.list == old(errors.list) + ErrorsOf(StepAt(sourceCode, currentIndex))
    {
      if currentIndex + 1 < |sourceCode| && sourceCode[currentIndex] == '/' && sourceCode[currentIndex + 1] == '*' {
        next := ScanComment(sourceCode, currentIndex, errors);
      } else {
        next := ScanToken(sourceCode, currentIndex, errors);
      }
    }

    /**
     * Clears both lists and scans the whole source: the tokens and the diagnostics
     * are exactly those of `Scan`.
     */
    method StartScanning(sourceCode: string, errors: ErrorList)
      requires Valid()
      modifies this`tokens, errors`list
      ensures tokens == Scan(sourceCode).tokens
      ensures errors.list == Scan(sourceCode).errors
    {
      tokens := [];
      errors.list := [];
      var currentIndex: nat := 0;
      while currentIndex < |sourceCode|
        invariant currentIndex <= |sourceCode|
        invariant Valid()
        invariant Pending(sourceCode, currentIndex, tokens, errors.list)
        decreases |sourceCode| - currentIndex
      {
        PendingStep(sourceCode, currentIndex, tokens, errors.list);
        currentIndex := ScanOnce(sourceCode, currentIndex, errors);
      }
    }
  }
}
