/**
 * What the scanner does with each kind of lexeme, stated on whole inputs:
 * `LexFrom(prefix + rest)` is the prefix's tokens followed by the tokens of
 * `rest`.
 */
module TokenizerProperties {
  import opened Wrappers
  import opened Ints
  import opened Tokenizer

  /** `ts` followed by the outcome of a scan, or that scan's error. */
  function Prepend(ts: seq<Token>, r: Result<seq<Token>, LexError>): Result<seq<Token>, LexError> {
    match r
    case Ok(rest) => Ok(ts + rest)
    case Err(e) => Err(e)
  }

  lemma PrependTwice(a: seq<Token>, b: seq<Token>, r: Result<seq<Token>, LexError>)
    ensures Prepend(a, Prepend(b, r)) == Prepend(a + b, r)
  {
    if r.Ok? {
      assert a + (b + r.value) == (a + b) + r.value;
    }
  }

  /** Unfolding one turn of the scan. */
  lemma LexFromStep(s: string)
    requires |s| > 0 && Step(s).Ok?
    ensures LexFrom(s) == Prepend(Emit(Step(s).value.token), LexFrom(s[Step(s).value.width..]))
  {
  }

  /** Scanning the empty script yields only the end-of-input token. */
  lemma TokensOfEmpty()
    ensures Tokens("") == Ok([EndOfFile])
  {
    assert LexFrom("") == Ok([]);
    assert [] + [EndOfFile] == [EndOfFile];
  }

  /** Space, tab, carriage return and line feed produce no token. */
  lemma WhitespaceSkipped(c: char, rest: string)
    requires IsWhitespace(c)
    ensures LexFrom([c] + rest) == LexFrom(rest)
  {
    var s := [c] + rest;
    assert s[1..] == rest;
    LexFromStep(s);
    match LexFrom(rest)
    case Ok(ts) => assert [] + ts == ts;
    case Err(_) =>
  }

  /** The single-character token of `!`, `=`, `<` and `>`. */
  function Alone(c: char): Token
    requires c in "!=<>"
  {
    match c
    case '!' => Bang
    case '=' => Equals
    case '<' => LessThan
    case _ => GreaterThan
  }

  /** The token of `!=`, `==`, `<=` and `>=`. */
  function WithEquals(c: char): Token
    requires c in "!=<>"
  {
    match c
    case '!' => NotEqual
    case '=' => EqualEqual
    case '<' => LessThanEquals
    case _ => GreaterThanEquals
  }

  /** `!=`, `==`, `<=` and `>=` are single tokens. */
  lemma TwoCharacterOperator(c: char, rest: string)
    requires c in "!=<>"
    ensures LexFrom([c, '='] + rest) == Prepend([WithEquals(c)], LexFrom(rest))
  {
    var s := [c, '='] + rest;
    assert s[0] == c && s[1] == '=';
    assert Step(s) == Ok(Lexeme(Some(WithEquals(c)), 2));
    assert s[2..] == rest;
    LexFromStep(s);
  }

  /**
   * `!`, `=`, `<` or `>` not followed by `=` is the one-character token, and
   * the character after it is scanned afresh.
   */
  lemma OneCharacterOperator(c: char, rest: string)
    requires c in "!=<>"
    requires rest == [] || rest[0] != '='
    ensures LexFrom([c] + rest) == Prepend([Alone(c)], LexFrom(rest))
  {
    var s := [c] + rest;
    assert s[0] == c && (|s| > 1 ==> s[1] == rest[0]);
    assert Step(s) == Ok(Lexeme(Some(Alone(c)), 1));
    assert s[1..] == rest;
    LexFromStep(s);
  }

  /** Each `&` is one `And` and each `|` one `Or`. */
  lemma LogicalOperator(c: char, rest: string)
    requires c == '&' || c == '|'
    ensures LexFrom([c] + rest) == Prepend([if c == '&' then And else Or], LexFrom(rest))
  {
    var s := [c] + rest;
    assert s[1..] == rest;
    assert Step(s) == Ok(Lexeme(Some(if c == '&' then And else Or), 1));
    LexFromStep(s);
  }

  /** So `&&` is two `And` tokens and `||` two `Or` tokens. */
  lemma {:induction false} DoubledLogicalOperator(c: char, rest: string)
    requires c == '&' || c == '|'
    ensures var t := if c == '&' then And else Or;
      LexFrom([c, c] + rest) == Prepend([t, t], LexFrom(rest))
  {
    var t := if c == '&' then And else Or;
    var tail := [c] + rest;
    assert [c, c] + rest == [c] + tail;
    LogicalOperator(c, tail);
    LogicalOperator(c, rest);
    PrependTwice([t], [t], LexFrom(rest));
    assert [t] + [t] == [t, t];
  }

  /**
   * A terminated string literal is one `String` token holding exactly the
   * characters between the quotes: no escape is interpreted.
   */
  lemma StringLiteral(body: string, rest: string)
    requires '"' !in body
    ensures LexFrom(['"'] + body + ['"'] + rest) == Prepend([String(body)], LexFrom(rest))
  {
    var s := ['"'] + body + ['"'] + rest;
    assert s[1..] == body + ['"'] + rest;
    QuoteIndexAt(s[1..], |body|);
    assert s[1..1 + |body|] == body;
    assert s[|body| + 2..] == rest;
    LexFromStep(s);
  }

  /** An unterminated string literal runs to the end of the input and is still a `String`. */
  lemma UnterminatedStringLiteral(body: string)
    requires '"' !in body
    ensures LexFrom(['"'] + body) == Ok([String(body)])
  {
    var s := ['"'] + body;
    assert s[1..] == body;
    QuoteIndexAt(s[1..], |body|);
    assert s[1..1 + |body|] == body;
    assert s[|body| + 1..] == [];
    LexFromStep(s);
    assert [String(body)] + [] == [String(body)];
  }

  /**
   * A maximal run of digits, leading zeros included, is one `Number` token
   * holding its decimal value; a run whose value does not fit an `i32`
   * makes the scan fail, naming the run.
   */
  lemma NumberLiteral(ds: string, rest: string)
    requires |ds| > 0 && AllDigits(ds)
    requires rest == [] || !IsDigit(rest[0])
    ensures DecimalValue(ds) <= MAX ==>
      LexFrom(ds + rest) == Prepend([Number(DecimalValue(ds) as Int32)], LexFrom(rest))
    ensures DecimalValue(ds) > MAX ==> LexFrom(ds + rest) == Err(NumberOutOfRange(ds))
  {
    var s := ds + rest;
    assert s[..|ds|] == ds;
    assert |ds| < |s| ==> s[|ds|] == rest[0];
    DigitRunAt(s, |ds|);
    assert s[|ds|..] == rest;
    if DecimalValue(ds) <= MAX {
      LexFromStep(s);
    }
  }

  /**
   * A word (a letter, then letters and underscores) not followed by a word
   * character is one token: its keyword, or `Identifier` holding the word.
   */
  lemma WordLiteral(w: string, rest: string)
    requires IsWord(w)
    requires rest == [] || !IsWordChar(rest[0])
    ensures LexFrom(w + rest) == Prepend([Keyword(w)], LexFrom(rest))
  {
    var s := w + rest;
    assert s[1..] == w[1..] + rest;
    WordRunAt(s[1..], |w| - 1);
    assert s[..|w|] == w;
    assert s[|w|..] == rest;
    LexFromStep(s);
  }

  /** A digit ends a word: `ab1` is a word followed by a number. */
  lemma DigitEndsWord(w: string, d: char, rest: string)
    requires IsWord(w) && IsDigit(d)
    ensures LexFrom(w + [d] + rest) == Prepend([Keyword(w)], LexFrom([d] + rest))
  {
    assert w + [d] + rest == w + ([d] + rest);
    WordLiteral(w, [d] + rest);
  }

  /**
   * A character that starts no operator, literal or word, such as `_` or `#`,
   * is one `Unknown` token.
   */
  lemma UnknownCharacter(c: char, rest: string)
    requires !IsWhitespace(c) && !IsDigit(c) && !IsAlphabetic(c)
    requires c !in "!=,<>&|+-*/%(){}\""
    ensures LexFrom([c] + rest) == Prepend([Unknown], LexFrom(rest))
  {
    var s := [c] + rest;
    assert s[1..] == rest;
    assert Step(s) == Ok(Lexeme(Some(Unknown), 1));
    LexFromStep(s);
  }
}
