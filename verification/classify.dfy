/**
 * An independent description of what the rule table of TINY_Compiler/Scanner.cs
 * (lines 43-84) selects at a cursor, by dispatch on the first character, and the
 * theorem that the longest-match, first-registered selection (lines 121-139)
 * computes exactly that.
 */
module Classification {
  import opened Tokens
  import opened Recognizers
  import opened Rules

  /** What a selection yields once the rule's position in the table is forgotten. */
  datatype Munch = Munch(tokenType: TokenClass, length: nat)

  function Project(h: Option<Hit>): Option<Munch> {
    match h
    case None => None
    case Some(x) => Some(Munch(x.tokenType, x.length))
  }

  /** The selection the scanner makes at `p` with its table. */
  function BestMatch(s: string, p: nat): (r: Option<Hit>)
    requires p <= |s|
    ensures r.Some? ==> 1 <= r.value.length && p + r.value.length <= |s|
    ensures r.Some? ==> r.value.tokenType != COMMENT && r.value.tokenType != ERROR
  {
    var r := BestOf(RuleTable(), s, p);
    if r.Some? then TableClasses(r.value.index); r else r
  }

  /** The reserved words of the language and their classes. */
  function KeywordClass(w: string): Option<TokenClass> {
    if w == "int" then Some(T_INT)
    else if w == "float" then Some(T_FLOAT)
    else if w == "string" then Some(T_STRING_KEY)
    else if w == "read" then Some(T_READ)
    else if w == "write" then Some(T_WRITE)
    else if w == "repeat" then Some(T_REPEAT)
    else if w == "until" then Some(T_UNTIL)
    else if w == "if" then Some(T_IF)
    else if w == "elseif" then Some(T_ELSEIF)
    else if w == "else" then Some(T_ELSE)
    else if w == "then" then Some(T_THEN)
    else if w == "return" then Some(T_RETURN)
    else if w == "endl" then Some(T_ENDL)
    else if w == "main" then Some(T_MAIN)
    else None
  }

  /** The one-character operators and punctuation and their classes. */
  function SingleOperator(c: char): Option<TokenClass> {
    match c
    case '+' => Some(T_PLUS)
    case '-' => Some(T_MINUS)
    case '*' => Some(T_TIMES)
    case '/' => Some(T_DIVIDE)
    case '<' => Some(T_LESSTHAN)
    case '>' => Some(T_GREATERTHAN)
    case '=' => Some(T_EQUAL)
    case '(' => Some(T_LPAREN)
    case ')' => Some(T_RPAREN)
    case '{' => Some(T_LCURLY)
    case '}' => Some(T_RCURLY)
    case ',' => Some(T_COMMA)
    case ';' => Some(T_SEMICOLON)
    case _ => None
  }

  /** Length of the identifier-shaped word `[a-zA-Z][a-zA-Z0-9]*` starting at a letter. */
  function IdentLength(s: string, p: nat): (n: nat)
    requires p < |s| && IsLetter(s[p])
    ensures 1 <= n <= |s| - p
    ensures forall k :: p <= k < p + n ==> IsAlphaNum(s[k])
    ensures p + n == |s| || !IsAlphaNum(s[p + n])
  {
    1 + Run(s, p + 1, AlphaNum)
  }

  /** The word at `p` is a reserved word standing alone: no word character on either side. */
  predicate ReservedAt(s: string, p: nat)
    requires p < |s| && IsLetter(s[p])
  {
    var n := IdentLength(s, p);
    KeywordClass(s[p..p + n]).Some? && !WordAt(s, p - 1) && !WordAt(s, p + n)
  }

  /** Whether the two characters at `p` are `a` then `b`. */
  predicate PairAt(s: string, p: nat, a: char, b: char) {
    p + 1 < |s| && s[p] == a && s[p + 1] == b
  }

  /** What the table recognises at `p`, decided by the character found there. */
  function Classify(s: string, p: nat): Option<Munch>
    requires p < |s|
  {
    var c := s[p];
    if IsBlank(c) then Some(Munch(WHITESPACE, Run(s, p, Blank)))
    else if IsLetter(c) then
      var n := IdentLength(s, p);
      if ReservedAt(s, p) then Some(Munch(KeywordClass(s[p..p + n]).value, n))
      else Some(Munch(T_IDENTIFIER, n))
    else if IsDigit(c) then
      var d := Run(s, p, Digit);
      Some(Munch(T_NUMBER, d + Fraction(s, p + d)))
    else if c == '"' then
      var n := Run(s, p + 1, NotQuote);
      if p + 1 + n < |s| then Some(Munch(T_STRING, n + 2)) else None
    else if c == ':' then (if PairAt(s, p, ':', '=') then Some(Munch(T_ASSIGN, 2)) else None)
    else if c == '&' then (if PairAt(s, p, '&', '&') then Some(Munch(T_AND, 2)) else None)
    else if c == '|' then (if PairAt(s, p, '|', '|') then Some(Munch(T_OR, 2)) else None)
    else if PairAt(s, p, '<', '>') then Some(Munch(T_NOTEQUAL, 2))
    else if SingleOperator(c).Some? then Some(Munch(SingleOperator(c).value, 1))
    else None
  }

  // ---------------------------------------------------------------------------
  // Facts about the table

  /** Position in the table of the rule for a one-character operator. */
  function SingleIndex(c: char): nat {
    match c
    case '+' => 19 case '-' => 20 case '*' => 21 case '/' => 22 case '<' => 23
    case '>' => 24 case '=' => 25 case '(' => 26 case ')' => 27 case '{' => 28
    case '}' => 29 case ',' => 30 case ';' => 31 case _ => 0
  }

  /** Position in the table of the rule for a reserved word. */
  function KeywordIndex(w: string): nat {
    if w == "int" then 5 else if w == "float" then 6 else if w == "string" then 7
    else if w == "read" then 8 else if w == "write" then 9 else if w == "repeat" then 10
    else if w == "until" then 11 else if w == "if" then 12 else if w == "elseif" then 13
    else if w == "else" then 14 else if w == "then" then 15 else if w == "return" then 16
    else if w == "endl" then 17 else if w == "main" then 18 else 0
  }

  lemma SingleRule(c: char)
    requires SingleOperator(c).Some?
    ensures 19 <= SingleIndex(c) < 32
    ensures RuleTable()[SingleIndex(c)] == Rule(Literal([c]), SingleOperator(c).value)
  {
  }

  lemma KeywordRule(w: string)
    requires KeywordClass(w).Some?
    ensures 5 <= KeywordIndex(w) < 19
    ensures RuleTable()[KeywordIndex(w)] == Rule(WholeWord(w), KeywordClass(w).value)
  {
  }

  /** Every rule from 5 to 18 is a whole-word rule for a reserved word, at its own position. */
  lemma KeywordRules(j: nat)
    requires 5 <= j < 19
    ensures RuleTable()[j].pattern.WholeWord?
    ensures KeywordClass(RuleTable()[j].pattern.word) == Some(RuleTable()[j].tokenType)
    ensures KeywordIndex(RuleTable()[j].pattern.word) == j
  {
  }

  /** Which rules of the table can begin with the character `c`. */
  lemma TableStarts(j: nat, c: char)
    requires j < 35 && CanStart(RuleTable()[j].pattern, c)
    ensures || (j == 0 && IsBlank(c))
            || (j == 1 && c == ':') || (j == 2 && c == '<')
            || (j == 3 && c == '&') || (j == 4 && c == '|')
            || (5 <= j < 19 && IsLetter(c))
            || (19 <= j < 32 && SingleOperator(c).Some? && j == SingleIndex(c))
            || (j == 32 && c == '"') || (j == 33 && IsDigit(c)) || (j == 34 && IsLetter(c))
  {
  }

  // ---------------------------------------------------------------------------
  // The selection, case by case

  /**
   * At a letter, a whole-word rule matches exactly when its word is the whole
   * identifier-shaped word found there and no word character touches either end.
   */
  lemma WholeWordAtLetter(w: string, s: string, p: nat)
    requires p < |s| && IsLetter(s[p]) && ValidPattern(WholeWord(w))
    ensures var n := IdentLength(s, p);
      MatchAt(WholeWord(w), s, p).Some? <==> (w == s[p..p + n] && !WordAt(s, p - 1) && !WordAt(s, p + n))
    ensures MatchAt(WholeWord(w), s, p).Some? ==> MatchAt(WholeWord(w), s, p).value == IdentLength(s, p)
  {
    var n := IdentLength(s, p);
    var m := |w|;
    if MatchAt(WholeWord(w), s, p).Some? {
      assert s[p..p + m] == w;
      assert s[p + m - 1] == w[m - 1];
      assert m <= n;
      assert m == n;
    }
  }

  /** At a letter, only the whole-word rules and the identifier rule can match, all with the word's length. */
  lemma LetterRule(s: string, p: nat, j: nat)
    requires p < |s| && IsLetter(s[p]) && j < 35
    requires MatchAt(RuleTable()[j].pattern, s, p).Some?
    ensures 5 <= j < 19 || j == 34
    ensures MatchAt(RuleTable()[j].pattern, s, p).value == IdentLength(s, p)
    ensures 5 <= j < 19 ==> ReservedAt(s, p) && j == KeywordIndex(s[p..p + IdentLength(s, p)])
  {
    TableStarts(j, s[p]);
    if j != 34 {
      KeywordRules(j);
      WholeWordAtLetter(RuleTable()[j].pattern.word, s, p);
    }
  }

  /** The class the letter case yields: the reserved word's own class, or the identifier class. */
  function LetterClass(s: string, p: nat): TokenClass
    requires p < |s| && IsLetter(s[p])
  {
    if ReservedAt(s, p) then KeywordClass(s[p..p + IdentLength(s, p)]).value else T_IDENTIFIER
  }

  /** At a letter the selection is the reserved word standing alone, or else the identifier. */
  lemma LetterSelection(s: string, p: nat)
    requires p < |s| && IsLetter(s[p])
    ensures Project(BestMatch(s, p)) == Some(Munch(LetterClass(s, p), IdentLength(s, p)))
  {
    var rules := RuleTable();
    var n := IdentLength(s, p);
    var w := s[p..p + n];
    var h := if ReservedAt(s, p) then Hit(KeywordIndex(w), KeywordClass(w).value, n)
             else Hit(34, T_IDENTIFIER, n);
    if ReservedAt(s, p) {
      KeywordRule(w);
      WholeWordAtLetter(w, s, p);
    }
    assert MatchAt(rules[h.index].pattern, s, p) == Some(n);
    forall j | 0 <= j < |rules| && MatchAt(rules[j].pattern, s, p).Some?
      ensures MatchAt(rules[j].pattern, s, p).value <= h.length
      ensures j < h.index ==> MatchAt(rules[j].pattern, s, p).value < h.length
    {
      LetterRule(s, p, j);
    }
    assert IsBest(rules, s, p, h);
    BestOfIs(rules, s, p, h);
  }

  lemma ClassifyLetter(s: string, p: nat)
    requires p < |s| && IsLetter(s[p])
    ensures Classify(s, p) == Some(Munch(LetterClass(s, p), IdentLength(s, p)))
  {
  }

  lemma LetterCase(s: string, p: nat)
    requires p < |s| && IsLetter(s[p])
    ensures Project(BestMatch(s, p)) == Classify(s, p)
  {
    LetterSelection(s, p);
    ClassifyLetter(s, p);
  }

  /** The characters that begin exactly one rule of the table, and which rule that is. */
  predicate SoleStarter(c: char, k: nat) {
    || (IsBlank(c) && k == 0)
    || (IsDigit(c) && k == 33)
    || (c == '"' && k == 32)
    || (c == ':' && k == 1)
    || (c == '&' && k == 3)
    || (c == '|' && k == 4)
    || (SingleOperator(c).Some? && c != '<' && k == SingleIndex(c))
  }

  lemma SoleStart(c: char, k: nat)
    requires SoleStarter(c, k)
    ensures forall j :: 0 <= j < 35 && j != k ==> !CanStart(RuleTable()[j].pattern, c)
  {
    forall j | 0 <= j < 35 && j != k ensures !CanStart(RuleTable()[j].pattern, c) {
      if CanStart(RuleTable()[j].pattern, c) { TableStarts(j, c); }
    }
  }

  /** When exactly one rule can start with the character at `p`, the selection is that rule's match. */
  lemma OnlyRule(s: string, p: nat, k: nat, t: TokenClass, m: Option<nat>)
    requires p < |s| && k < 35 && SoleStarter(s[p], k)
    requires RuleTable()[k].tokenType == t && MatchAt(RuleTable()[k].pattern, s, p) == m
    ensures Project(BestMatch(s, p)) == if m.Some? then Some(Munch(t, m.value)) else None
  {
    var rules := RuleTable();
    SoleStart(s[p], k);
    if m.Some? {
      BestOfIs(rules, s, p, Hit(k, t, m.value));
    }
  }

  lemma HasPair(s: string, p: nat, a: char, b: char)
    ensures HasAt(s, p, [a, b]) <==> PairAt(s, p, a, b)
  {
    if p + 1 < |s| {
      assert s[p..p + 2] == [s[p], s[p + 1]];
    }
  }

  lemma HasSingle(s: string, p: nat)
    requires p < |s|
    ensures HasAt(s, p, [s[p]])
  {
    assert s[p..p + 1] == [s[p]];
  }

  // Blanks: rule 0 only.

  lemma MatchBlank(s: string, p: nat)
    requires p < |s| && IsBlank(s[p])
    ensures RuleTable()[0].tokenType == WHITESPACE
    ensures MatchAt(RuleTable()[0].pattern, s, p) == Some(Run(s, p, Blank))
  {
  }

  lemma ClassifyBlank(s: string, p: nat)
    requires p < |s| && IsBlank(s[p])
    ensures Classify(s, p) == Some(Munch(WHITESPACE, Run(s, p, Blank)))
  {
  }

  lemma BlankCase(s: string, p: nat)
    requires p < |s| && IsBlank(s[p])
    ensures Project(BestMatch(s, p)) == Classify(s, p)
  {
    MatchBlank(s, p);
    OnlyRule(s, p, 0, WHITESPACE, Some(Run(s, p, Blank)));
    ClassifyBlank(s, p);
  }

  // Digits: rule 33 only.

  function NumberLength(s: string, p: nat): nat
    requires p <= |s|
  {
    Run(s, p, Digit) + Fraction(s, p + Run(s, p, Digit))
  }

  lemma MatchDigit(s: string, p: nat)
    requires p < |s| && IsDigit(s[p])
    ensures RuleTable()[33].tokenType == T_NUMBER
    ensures MatchAt(RuleTable()[33].pattern, s, p) == Some(NumberLength(s, p))
  {
  }

  lemma ClassifyDigit(s: string, p: nat)
    requires p < |s| && IsDigit(s[p])
    ensures Classify(s, p) == Some(Munch(T_NUMBER, NumberLength(s, p)))
  {
  }

  lemma DigitCase(s: string, p: nat)
    requires p < |s| && IsDigit(s[p])
    ensures Project(BestMatch(s, p)) == Classify(s, p)
  {
    MatchDigit(s, p);
    OnlyRule(s, p, 33, T_NUMBER, Some(NumberLength(s, p)));
    ClassifyDigit(s, p);
  }

  // Double quote: rule 32 only.

  function StringMatch(s: string, p: nat): Option<nat>
    requires p < |s|
  {
    var n := Run(s, p + 1, NotQuote);
    if p + 1 + n < |s| then Some(n + 2) else None
  }

  lemma MatchQuote(s: string, p: nat)
    requires p < |s| && s[p] == '"'
    ensures RuleTable()[32].tokenType == T_STRING
    ensures MatchAt(RuleTable()[32].pattern, s, p) == StringMatch(s, p)
  {
  }

  lemma ClassifyQuote(s: string, p: nat)
    requires p < |s| && s[p] == '"'
    ensures Classify(s, p) == if StringMatch(s, p).Some? then Some(Munch(T_STRING, StringMatch(s, p).value)) else None
  {
  }

  lemma QuoteCase(s: string, p: nat)
    requires p < |s| && s[p] == '"'
    ensures Project(BestMatch(s, p)) == Classify(s, p)
  {
    MatchQuote(s, p);
    OnlyRule(s, p, 32, T_STRING, StringMatch(s, p));
    ClassifyQuote(s, p);
  }

  // `:`, `&` and `|`: only the two-character operators `:=`, `&&` and `||`.

  lemma MatchPair(s: string, p: nat, k: nat, a: char, b: char, t: TokenClass)
    requires p < |s| && k < 35 && RuleTable()[k] == Rule(Literal([a, b]), t)
    ensures MatchAt(RuleTable()[k].pattern, s, p) == if PairAt(s, p, a, b) then Some(2) else None
  {
    HasPair(s, p, a, b);
  }

  lemma ClassifyPair(s: string, p: nat, a: char, b: char, t: TokenClass)
    requires p < |s| && s[p] == a
    requires (a, b, t) == (':', '=', T_ASSIGN) || (a, b, t) == ('&', '&', T_AND) || (a, b, t) == ('|', '|', T_OR)
    ensures Classify(s, p) == if PairAt(s, p, a, b) then Some(Munch(t, 2)) else None
  {
  }

  lemma PairSelection(s: string, p: nat, k: nat, a: char, b: char, t: TokenClass)
    requires p < |s| && s[p] == a && k < 35 && SoleStarter(a, k)
    requires RuleTable()[k] == Rule(Literal([a, b]), t)
    requires (a, b, t) == (':', '=', T_ASSIGN) || (a, b, t) == ('&', '&', T_AND) || (a, b, t) == ('|', '|', T_OR)
    ensures Project(BestMatch(s, p)) == Classify(s, p)
  {
    MatchPair(s, p, k, a, b, t);
    OnlyRule(s, p, k, t, if PairAt(s, p, a, b) then Some(2) else None);
    ClassifyPair(s, p, a, b, t);
  }

  lemma PairCase(s: string, p: nat)
    requires p < |s| && (s[p] == ':' || s[p] == '&' || s[p] == '|')
    ensures Project(BestMatch(s, p)) == Classify(s, p)
  {
    if s[p] == ':' {
      PairSelection(s, p, 1, ':', '=', T_ASSIGN);
    } else if s[p] == '&' {
      PairSelection(s, p, 3, '&', '&', T_AND);
    } else {
      PairSelection(s, p, 4, '|', '|', T_OR);
    }
  }

  // `<`: rule 2 (`<>`) and rule 23 (`<`); the longer one wins.

  lemma LessRules(s: string, p: nat)
    requires p < |s| && s[p] == '<'
    ensures RuleTable()[2].tokenType == T_NOTEQUAL && RuleTable()[23].tokenType == T_LESSTHAN
    ensures MatchAt(RuleTable()[2].pattern, s, p) == if PairAt(s, p, '<', '>') then Some(2) else None
    ensures MatchAt(RuleTable()[23].pattern, s, p) == Some(1)
    ensures forall j :: 0 <= j < 35 && MatchAt(RuleTable()[j].pattern, s, p).Some? ==> j == 2 || j == 23
  {
    HasPair(s, p, '<', '>');
    HasSingle(s, p);
    forall j | 0 <= j < 35 && MatchAt(RuleTable()[j].pattern, s, p).Some?
      ensures j == 2 || j == 23
    {
      TableStarts(j, s[p]);
    }
  }

  lemma LessSelection(s: string, p: nat)
    requires p < |s| && s[p] == '<'
    ensures Project(BestMatch(s, p)) ==
      if PairAt(s, p, '<', '>') then Some(Munch(T_NOTEQUAL, 2)) else Some(Munch(T_LESSTHAN, 1))
  {
    var rules := RuleTable();
    LessRules(s, p);
    var h := if PairAt(s, p, '<', '>') then Hit(2, T_NOTEQUAL, 2) else Hit(23, T_LESSTHAN, 1);
    assert IsBest(rules, s, p, h);
    BestOfIs(rules, s, p, h);
  }

  lemma ClassifyLess(s: string, p: nat)
    requires p < |s| && s[p] == '<'
    ensures Classify(s, p) ==
      if PairAt(s, p, '<', '>') then Some(Munch(T_NOTEQUAL, 2)) else Some(Munch(T_LESSTHAN, 1))
  {
  }

  lemma LessCase(s: string, p: nat)
    requires p < |s| && s[p] == '<'
    ensures Project(BestMatch(s, p)) == Classify(s, p)
  {
    LessSelection(s, p);
    ClassifyLess(s, p);
  }

  // The other one-character operators: exactly one rule each.

  lemma MatchSingle(s: string, p: nat)
    requires p < |s| && SingleOperator(s[p]).Some?
    ensures SingleIndex(s[p]) < 35
    ensures RuleTable()[SingleIndex(s[p])].tokenType == SingleOperator(s[p]).value
    ensures MatchAt(RuleTable()[SingleIndex(s[p])].pattern, s, p) == Some(1)
  {
    SingleRule(s[p]);
    HasSingle(s, p);
  }

  lemma ClassifySingle(s: string, p: nat)
    requires p < |s| && SingleOperator(s[p]).Some? && s[p] != '<'
    ensures Classify(s, p) == Some(Munch(SingleOperator(s[p]).value, 1))
  {
  }

  lemma SingleCase(s: string, p: nat)
    requires p < |s| && SingleOperator(s[p]).Some? && s[p] != '<'
    ensures Project(BestMatch(s, p)) == Classify(s, p)
  {
    MatchSingle(s, p);
    OnlyRule(s, p, SingleIndex(s[p]), SingleOperator(s[p]).value, Some(1));
    ClassifySingle(s, p);
  }

  /** Any other character begins no rule at all. */
  lemma OtherCase(s: string, p: nat)
    requires p < |s|
    requires !IsBlank(s[p]) && !IsLetter(s[p]) && !IsDigit(s[p]) && s[p] != '"'
    requires s[p] != ':' && s[p] != '&' && s[p] != '|' && SingleOperator(s[p]).None?
    ensures BestMatch(s, p).None? && Classify(s, p).None?
  {
    forall j | 0 <= j < 35 ensures MatchAt(RuleTable()[j].pattern, s, p).None? {
      if MatchAt(RuleTable()[j].pattern, s, p).Some? { TableStarts(j, s[p]); }
    }
  }

  /**
   * The longest-match, first-registered selection over the table agrees with the
   * dispatch on the first character, at every position of every string.
   */
  lemma BestMatchIsClassify(s: string, p: nat)
    requires p < |s|
    ensures Project(BestMatch(s, p)) == Classify(s, p)
  {
    var c := s[p];
    if IsBlank(c) { BlankCase(s, p); }
    else if IsLetter(c) { LetterCase(s, p); }
    else if IsDigit(c) { DigitCase(s, p); }
    else if c == '"' { QuoteCase(s, p); }
    else if c == ':' || c == '&' || c == '|' { PairCase(s, p); }
    else if c == '<' { LessCase(s, p); }
    else if SingleOperator(c).Some? { SingleCase(s, p); }
    else { OtherCase(s, p); }
  }
}
