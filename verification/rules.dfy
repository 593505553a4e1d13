/**
 * The rule table of TINY_Compiler/Scanner.cs (lines 43-84) and the longest-match
 * selection over it (lines 121-139).
 */
module Rules {
  import opened Tokens
  import opened Recognizers

  /** One entry of the table: a recognizer and the class it yields. */
  datatype Rule = Rule(pattern: Pattern, tokenType: TokenClass)

  predicate ValidRules(rules: seq<Rule>) {
    forall j :: 0 <= j < |rules| ==> ValidPattern(rules[j].pattern)
  }

  /** The table in registration order; the order is the tie-break priority. */
  function RuleTable(): (rules: seq<Rule>)
    ensures |rules| == 35 && ValidRules(rules)
  {
    [ Rule(Blanks, WHITESPACE),                      //  0
      Rule(Literal(":="), T_ASSIGN),                 //  1
      Rule(Literal("<>"), T_NOTEQUAL),               //  2
      Rule(Literal("&&"), T_AND),                    //  3
      Rule(Literal("||"), T_OR),                     //  4
      Rule(WholeWord("int"), T_INT),                 //  5
      Rule(WholeWord("float"), T_FLOAT),             //  6
      Rule(WholeWord("string"), T_STRING_KEY),       //  7
      Rule(WholeWord("read"), T_READ),               //  8
      Rule(WholeWord("write"), T_WRITE),             //  9
      Rule(WholeWord("repeat"), T_REPEAT),           // 10
      Rule(WholeWord("until"), T_UNTIL),             // 11
      Rule(WholeWord("if"), T_IF),                   // 12
      Rule(WholeWord("elseif"), T_ELSEIF),           // 13
      Rule(WholeWord("else"), T_ELSE),               // 14
      Rule(WholeWord("then"), T_THEN),               // 15
      Rule(WholeWord("return"), T_RETURN),           // 16
      Rule(WholeWord("endl"), T_ENDL),               // 17
      Rule(WholeWord("main"), T_MAIN),               // 18
      Rule(Literal("+"), T_PLUS),                    // 19
      Rule(Literal("-"), T_MINUS),                   // 20
      Rule(Literal("*"), T_TIMES),                   // 21
      Rule(Literal("/"), T_DIVIDE),                  // 22
      Rule(Literal("<"), T_LESSTHAN),                // 23
      Rule(Literal(">"), T_GREATERTHAN),             // 24
      Rule(Literal("="), T_EQUAL),                   // 25
      Rule(Literal("("), T_LPAREN),                  // 26
      Rule(Literal(")"), T_RPAREN),                  // 27
      Rule(Literal("{"), T_LCURLY),                  // 28
      Rule(Literal("}"), T_RCURLY),                  // 29
      Rule(Literal(","), T_COMMA),                   // 30
      Rule(Literal(";"), T_SEMICOLON),               // 31
      Rule(QuotedString, T_STRING),                  // 32
      Rule(NumberLit, T_NUMBER),                     // 33
      Rule(Ident, T_IDENTIFIER)                      // 34
    ]
  }

  /** The winning rule at a cursor: its position in the table, its class and the match length. */
  datatype Hit = Hit(index: nat, tokenType: TokenClass, length: nat)

  /**
   * `h` is the longest match among the rules matching at `p`, and the first registered
   * among those of that length.
   */
  ghost predicate IsBest(rules: seq<Rule>, s: string, p: nat, h: Hit)
    requires p <= |s| && ValidRules(rules)
  {
    && h.index < |rules|
    && rules[h.index].tokenType == h.tokenType
    && MatchAt(rules[h.index].pattern, s, p) == Some(h.length)
    && (forall j :: 0 <= j < |rules| && MatchAt(rules[j].pattern, s, p).Some? ==>
          MatchAt(rules[j].pattern, s, p).value <= h.length)
    && (forall j :: 0 <= j < h.index && MatchAt(rules[j].pattern, s, p).Some? ==>
          MatchAt(rules[j].pattern, s, p).value < h.length)
  }

  /**
   * The `foreach` over the table: a later rule replaces the current best only when its
   * match is strictly longer.  What it returns is always a real match of the rule it names.
   */
  function BestOf(rules: seq<Rule>, s: string, p: nat): (r: Option<Hit>)
    requires p <= |s| && ValidRules(rules)
    ensures r.Some? ==>
      && r.value.index < |rules|
      && rules[r.value.index].tokenType == r.value.tokenType
      && MatchAt(rules[r.value.index].pattern, s, p) == Some(r.value.length)
    decreases |rules|
  {
    if |rules| == 0 then None
    else
      var last := |rules| - 1;
      var prev := BestOf(rules[..last], s, p);
      match MatchAt(rules[last].pattern, s, p)
      case None => prev
      case Some(n) =>
        if prev.None? || n > prev.value.length then Some(Hit(last, rules[last].tokenType, n))
        else prev
  }

  /**
   * `r` is what a selection over `rules` should give: nothing exactly when no rule
   * matches, and otherwise the earliest longest match.
   */
  ghost predicate Selects(rules: seq<Rule>, s: string, p: nat, r: Option<Hit>)
    requires p <= |s| && ValidRules(rules)
  {
    && (r.None? <==> forall j :: 0 <= j < |rules| ==> MatchAt(rules[j].pattern, s, p).None?)
    && (r.Some? ==> IsBest(rules, s, p, r.value))
  }

  /** A last rule whose match is strictly longer than the best so far becomes the best. */
  lemma SelectsTaken(rules: seq<Rule>, s: string, p: nat, prev: Option<Hit>, n: nat)
    requires p <= |s| && ValidRules(rules) && |rules| > 0
    requires Selects(rules[..|rules| - 1], s, p, prev)
    requires MatchAt(rules[|rules| - 1].pattern, s, p) == Some(n)
    requires prev.None? || n > prev.value.length
    ensures Selects(rules, s, p, Some(Hit(|rules| - 1, rules[|rules| - 1].tokenType, n)))
  {
    var last := |rules| - 1;
    var prefix := rules[..last];
    forall j | 0 <= j < last && MatchAt(rules[j].pattern, s, p).Some?
      ensures MatchAt(rules[j].pattern, s, p).value < n
    {
      assert prefix[j] == rules[j];
    }
  }

  /** A last rule that does not match, or matches no longer than the best so far, changes nothing. */
  lemma SelectsKept(rules: seq<Rule>, s: string, p: nat, prev: Option<Hit>)
    requires p <= |s| && ValidRules(rules) && |rules| > 0
    requires Selects(rules[..|rules| - 1], s, p, prev)
    requires var m := MatchAt(rules[|rules| - 1].pattern, s, p);
      m.None? || (prev.Some? && m.value <= prev.value.length)
    ensures Selects(rules, s, p, prev)
  {
    var last := |rules| - 1;
    var prefix := rules[..last];
    assert forall j :: 0 <= j < last ==> prefix[j] == rules[j];
  }

  /**
   * The selection finds nothing exactly when no rule matches, and otherwise finds the
   * longest match, the first registered among equally long ones.
   */
  lemma {:induction false} BestOfIsBest(rules: seq<Rule>, s: string, p: nat)
    requires p <= |s| && ValidRules(rules)
    ensures BestOf(rules, s, p).None? <==> forall j :: 0 <= j < |rules| ==> MatchAt(rules[j].pattern, s, p).None?
    ensures BestOf(rules, s, p).Some? ==> IsBest(rules, s, p, BestOf(rules, s, p).value)
    decreases |rules|
  {
    if |rules| > 0 {
      var last := |rules| - 1;
      var prefix := rules[..last];
      BestOfIsBest(prefix, s, p);
      var prev := BestOf(prefix, s, p);
      var m := MatchAt(rules[last].pattern, s, p);
      if m.Some? && (prev.None? || m.value > prev.value.length) {
        SelectsTaken(rules, s, p, prev, m.value);
      } else {
        SelectsKept(rules, s, p, prev);
      }
    }
  }

  /** The earliest longest match is unique. */
  lemma BestUnique(rules: seq<Rule>, s: string, p: nat, h1: Hit, h2: Hit)
    requires p <= |s| && ValidRules(rules)
    requires IsBest(rules, s, p, h1) && IsBest(rules, s, p, h2)
    ensures h1 == h2
  {
  }

  /** Any hit that is the earliest longest match is what the selection returns. */
  lemma BestOfIs(rules: seq<Rule>, s: string, p: nat, h: Hit)
    requires p <= |s| && ValidRules(rules)
    requires IsBest(rules, s, p, h)
    ensures BestOf(rules, s, p) == Some(h)
  {
    var r := BestOf(rules, s, p);
    BestOfIsBest(rules, s, p);
    assert MatchAt(rules[h.index].pattern, s, p).Some?;
    BestUnique(rules, s, p, r.value, h);
  }

  /** No rule of the table yields a comment or an error class. */
  lemma TableClasses(j: nat)
    requires j < |RuleTable()|
    ensures RuleTable()[j].tokenType != COMMENT && RuleTable()[j].tokenType != ERROR
  {
  }
}
