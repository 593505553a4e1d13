/**
 * The recognizers behind the rule table of TINY_Compiler/Scanner.cs (lines 43-84).
 * Each regular expression of the table is one `Pattern`; `MatchAt` gives the length
 * of the match the .NET engine reports when that match starts exactly at the cursor.
 */
module Recognizers {
  import opened Tokens

  predicate IsBlank(c: char) { c == ' ' || c == '\t' || c == '\n' || c == '\r' }
  predicate IsDigit(c: char) { '0' <= c <= '9' }
  predicate IsLetter(c: char) { 'a' <= c <= 'z' || 'A' <= c <= 'Z' }
  predicate IsAlphaNum(c: char) { IsLetter(c) || IsDigit(c) }
  /** Characters that count as word characters for `\b` (ASCII only). */
  predicate IsWordChar(c: char) { IsAlphaNum(c) || c == '_' }

  /** Character classes repeated by the patterns: `[ \t\n\r]`, `[0-9]`, `[a-zA-Z0-9]`, `[^"]`. */
  datatype CharClass = Blank | Digit | AlphaNum | NotQuote

  predicate InClass(cc: CharClass, c: char) {
    match cc
    case Blank => IsBlank(c)
    case Digit => IsDigit(c)
    case AlphaNum => IsAlphaNum(c)
    case NotQuote => c != '"'
  }

  /** Length of the greedy run of `cc` characters starting at `p`. */
  function Run(s: string, p: nat, cc: CharClass): (n: nat)
    requires p <= |s|
    ensures p + n <= |s|
    ensures forall k :: p <= k < p + n ==> InClass(cc, s[k])
    ensures p + n == |s| || !InClass(cc, s[p + n])
    decreases |s| - p
  {
    if p < |s| && InClass(cc, s[p]) then 1 + Run(s, p + 1, cc) else 0
  }

  /** Whether position `k` holds a word character (positions outside the string do not). */
  predicate WordAt(s: string, k: int) {
    0 <= k < |s| && IsWordChar(s[k])
  }

  /** The `\b` assertion at position `k`: word status differs on the two sides. */
  predicate Boundary(s: string, k: int) {
    WordAt(s, k - 1) != WordAt(s, k)
  }

  /**
   * What `\b` sees: positions outside the string are not word characters, so the
   * assertion holds at either end exactly when the adjacent character is a word
   * character; letters and digits are word characters, blanks and quotes are not.
   */
  lemma BoundaryFacts(s: string, k: int)
    ensures k <= 0 ==> (Boundary(s, k) <==> WordAt(s, k))
    ensures k >= |s| ==> (Boundary(s, k) <==> WordAt(s, k - 1))
    ensures WordAt(s, k) ==> 0 <= k < |s| && !IsBlank(s[k]) && s[k] != '"'
    ensures 0 <= k < |s| && IsAlphaNum(s[k]) ==> WordAt(s, k)
  {
  }

  /** Whether `t` occurs in `s` at offset `p`. */
  predicate HasAt(s: string, p: nat, t: string) {
    p + |t| <= |s| && s[p..p + |t|] == t
  }

  /** The shapes of the regular expressions the rule table uses. */
  datatype Pattern =
    | Blanks                    // [ \t\n\r]+
    | Literal(text: string)     // a fixed operator such as := or \+
    | WholeWord(word: string)   // \bword\b
    | QuotedString              // "[^"]*"
    | NumberLit                 // [0-9]+(\.[0-9]+)?
    | Ident                     // [a-zA-Z][a-zA-Z0-9]*

  /** The patterns of the table are never able to match the empty string. */
  predicate ValidPattern(pat: Pattern) {
    match pat
    case Literal(t) => |t| > 0
    case WholeWord(w) => |w| > 0 && forall k :: 0 <= k < |w| ==> IsLetter(w[k])
    case _ => true
  }

  /** The characters with which a match of `pat` can begin. */
  predicate CanStart(pat: Pattern, c: char) {
    match pat
    case Blanks => IsBlank(c)
    case Literal(t) => |t| > 0 && c == t[0]
    case WholeWord(w) => |w| > 0 && c == w[0]
    case QuotedString => c == '"'
    case NumberLit => IsDigit(c)
    case Ident => IsLetter(c)
  }

  /** Length of the fractional part `\.[0-9]+` at `q`, or 0 when it is absent. */
  function Fraction(s: string, q: nat): (n: nat)
    requires q <= |s|
    ensures q + n <= |s|
    ensures n > 0 <==> q + 1 < |s| && s[q] == '.' && IsDigit(s[q + 1])
  {
    if q + 1 < |s| && s[q] == '.' && IsDigit(s[q + 1]) then 1 + Run(s, q + 1, Digit) else 0
  }

  /**
   * The match of `pat` anchored at `p`: `Some(n)` when the engine's match found from
   * `p` starts at `p` and has length `n`, `None` otherwise.
   */
  function MatchAt(pat: Pattern, s: string, p: nat): (r: Option<nat>)
    requires p <= |s|
    requires ValidPattern(pat)
    ensures r.Some? ==> 1 <= r.value <= |s| - p
    ensures r.Some? ==> CanStart(pat, s[p])
  {
    match pat
    case Blanks =>
      var n := Run(s, p, Blank);
      if n == 0 then None else Some(n)
    case Literal(t) =>
      if HasAt(s, p, t) then Some(|t|) else None
    case WholeWord(w) =>
      if Boundary(s, p) && HasAt(s, p, w) && Boundary(s, p + |w|) then Some(|w|) else None
    case QuotedString =>
      if p < |s| && s[p] == '"' && p + 1 + Run(s, p + 1, NotQuote) < |s|
      then Some(Run(s, p + 1, NotQuote) + 2) else None
    case NumberLit =>
      var d := Run(s, p, Digit);
      if d == 0 then None else Some(d + Fraction(s, p + d))
    case Ident =>
      if p < |s| && IsLetter(s[p]) then Some(1 + Run(s, p + 1, AlphaNum)) else None
  }
}
