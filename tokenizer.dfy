/**
 * The scanner: turns the script's characters into a list of tokens that always
 * ends in exactly one `EndOfFile`.
 *
 * `Step` describes one turn of the scanning loop (the token, if any, produced
 * by the characters at the front of the input, and how many characters they
 * are); `LexFrom` and `Tokens` describe the whole scan; `Tokenize` is the loop
 * itself, proved to compute `Tokens`.
 */
module Tokenizer {
  import opened Wrappers
  import opened Ints

  datatype Token =
    | Number(number: Int32)
    | String(text: string)
    | Boolean(truth: bool)
    | Identifier(name: string)
    | V
    | W
    | I
    | F
    | Print
    | Equals
    | Comma
    | EqualEqual
    | Bang
    | NotEqual
    | LessThan
    | GreaterThan
    | LessThanEquals
    | GreaterThanEquals
    | And
    | Or
    | Plus
    | Minus
    | Asterisk
    | Slash
    | Percent
    | LeftParen
    | RightParen
    | LeftBrace
    | RightBrace
    | Return
    | EndOfFile
    | Unknown

  /** The one way scanning fails: a digit run whose value does not fit an `i32`. */
  datatype LexError = NumberOutOfRange(digits: string)

  /** What one turn of the scanning loop produces and how many characters it reads. */
  datatype Lexeme = Lexeme(token: Option<Token>, width: nat)

  predicate IsWhitespace(c: char) {
    c == ' ' || c == '\t' || c == '\n' || c == '\r'
  }

  /** Letters, restricted to ASCII. */
  predicate IsAlphabetic(c: char) {
    'a' <= c <= 'z' || 'A' <= c <= 'Z'
  }

  /** Characters that may continue a word once it has started. */
  predicate IsWordChar(c: char) {
    IsAlphabetic(c) || c == '_'
  }

  /** The words that do not become identifiers. */
  const Reserved: set<string> := {"v", "w", "i", "f", "true", "false", "p", "r"}

  /** A word as the scanner forms it: a letter, then letters and underscores. */
  predicate IsWord(w: string) {
    |w| > 0 && IsAlphabetic(w[0]) && forall k | 0 <= k < |w| :: IsWordChar(w[k])
  }

  /** Length of the longest prefix of `s` made of decimal digits. */
  function DigitRun(s: string): (n: nat)
    ensures n <= |s| && AllDigits(s[..n])
    ensures n < |s| ==> !IsDigit(s[n])
  {
    if s == [] || !IsDigit(s[0]) then 0 else 1 + DigitRun(s[1..])
  }

  /** Length of the longest prefix of `s` made of word characters. */
  function WordRun(s: string): (n: nat)
    ensures n <= |s|
    ensures forall k | 0 <= k < n :: IsWordChar(s[k])
    ensures n < |s| ==> !IsWordChar(s[n])
  {
    if s == [] || !IsWordChar(s[0]) then 0 else 1 + WordRun(s[1..])
  }

  /** Position of the first `"` in `s`, or `|s|` when there is none. */
  function QuoteIndex(s: string): (n: nat)
    ensures n <= |s|
    ensures forall k | 0 <= k < n :: s[k] != '"'
    ensures n < |s| ==> s[n] == '"'
  {
    if s == [] || s[0] == '"' then 0 else 1 + QuoteIndex(s[1..])
  }

  /** The keyword table, consulted once a whole word has been read. */
  function Keyword(word: string): (t: Token)
    ensures t.Identifier? <==> word !in Reserved
    ensures t.Identifier? ==> t.name == word
    ensures word == "true" <==> t == Boolean(true)
    ensures word == "false" <==> t == Boolean(false)
  {
    match word
    case "v" => V
    case "w" => W
    case "i" => I
    case "f" => F
    case "true" => Boolean(true)
    case "false" => Boolean(false)
    case "p" => Print
    case "r" => Return
    case _ => Identifier(word)
  }

  /**
   * `=`, `!`, `<` or `>` followed by `=` is one two-character token;
   * followed by anything else, or by nothing, it is the one-character token.
   */
  function Lookahead(s: string, alone: Token, withEquals: Token): (x: Lexeme)
    requires |s| > 0
    ensures x.token.Some?
    ensures x.width == (if |s| > 1 && s[1] == '=' then 2 else 1)
    ensures x.token.value == (if x.width == 2 then withEquals else alone)
  {
    if |s| > 1 && s[1] == '=' then Lexeme(Some(withEquals), 2) else Lexeme(Some(alone), 1)
  }

  /**
   * Operators, punctuation and any other character that starts no literal or
   * word: one token each, two characters for `!=`, `==`, `<=` and `>=`.
   */
  function SymbolLexeme(s: string): (x: Lexeme)
    requires |s| > 0
    ensures x.token.Some? && x.token.value != EndOfFile
    ensures 1 <= x.width <= 2 && x.width <= |s|
  {
    match s[0]
    case '!' => Lookahead(s, Bang, NotEqual)
    case '=' => Lookahead(s, Equals, EqualEqual)
    case ',' => Lexeme(Some(Comma), 1)
    case '<' => Lookahead(s, LessThan, LessThanEquals)
    case '>' => Lookahead(s, GreaterThan, GreaterThanEquals)
    case '&' => Lexeme(Some(And), 1)
    case '|' => Lexeme(Some(Or), 1)
    case '+' => Lexeme(Some(Plus), 1)
    case '-' => Lexeme(Some(Minus), 1)
    case '*' => Lexeme(Some(Asterisk), 1)
    case '/' => Lexeme(Some(Slash), 1)
    case '%' => Lexeme(Some(Percent), 1)
    case '(' => Lexeme(Some(LeftParen), 1)
    case ')' => Lexeme(Some(RightParen), 1)
    case '{' => Lexeme(Some(LeftBrace), 1)
    case '}' => Lexeme(Some(RightBrace), 1)
    case _ => Lexeme(Some(Unknown), 1)
  }

  /**
   * A string literal starting at the quote `s[0]`: the payload runs to the next
   * quote, which is consumed, or to the end of the input.
   */
  function StringLexeme(s: string): (x: Lexeme)
    requires |s| > 0 && s[0] == '"'
    ensures 1 <= x.width <= |s|
  {
    var n := QuoteIndex(s[1..]);
    Lexeme(Some(String(s[1..1 + n])), if 1 + n < |s| then n + 2 else n + 1)
  }

  /** A number: the maximal digit run, which must denote an `i32`. */
  function NumberLexeme(s: string): (r: Result<Lexeme, LexError>)
    requires |s| > 0 && IsDigit(s[0])
    ensures r.Ok? ==> 1 <= r.value.width <= |s|
  {
    var n := DigitRun(s);
    var v := DecimalValue(s[..n]);
    if v <= MAX then Ok(Lexeme(Some(Number(v as Int32)), n)) else Err(NumberOutOfRange(s[..n]))
  }

  /** A word: a letter, then letters and underscores, looked up in the keyword table. */
  function WordLexeme(s: string): (x: Lexeme)
    requires |s| > 0 && IsAlphabetic(s[0])
    ensures 1 <= x.width <= |s|
  {
    var n := 1 + WordRun(s[1..]);
    Lexeme(Some(Keyword(s[..n])), n)
  }

  /** One turn of the scanning loop on the non-empty rest of the input `s`. */
  function Step(s: string): (r: Result<Lexeme, LexError>)
    requires |s| > 0
    ensures r.Ok? ==> 1 <= r.value.width <= |s|
  {
    var c := s[0];
    if IsWhitespace(c) then Ok(Lexeme(None, 1))
    else if c == '"' then Ok(StringLexeme(s))
    else if IsDigit(c) then NumberLexeme(s)
    else if IsAlphabetic(c) then Ok(WordLexeme(s))
    else Ok(SymbolLexeme(s))
  }

  function Emit(t: Option<Token>): seq<Token> {
    if t.Some? then [t.value] else []
  }

  /** Well-formedness of every token the scanning loop emits. */
  predicate ScannedToken(t: Token) {
    && t != EndOfFile
    && (t.Identifier? ==> IsWord(t.name) && t.name !in Reserved)
    && (t.String? ==> '"' !in t.text)
    && (t.Number? ==> t.number >= 0)
  }

  /**
   * The tokens scanned from `s`, without the final `EndOfFile`: one token per
   * non-whitespace lexeme, so never more tokens than characters, and never
   * `EndOfFile` itself.
   */
  function LexFrom(s: string): (r: Result<seq<Token>, LexError>)
    ensures r.Ok? ==> |r.value| <= |s|
    ensures r.Ok? ==> forall t | t in r.value :: ScannedToken(t)
    ensures r.Err? ==> AllDigits(r.error.digits) && DecimalValue(r.error.digits) > MAX
    decreases |s|
  {
    if s == [] then Ok([])
    else
      var x :- Step(s);
      StepToken(s);
      var rest :- LexFrom(s[x.width..]);
      Ok(Emit(x.token) + rest)
  }

  /** Every token `Step` emits is well formed. */
  lemma StepToken(s: string)
    requires |s| > 0 && Step(s).Ok?
    ensures Step(s).value.token.Some? ==> ScannedToken(Step(s).value.token.value)
  {
    var c := s[0];
    if IsWhitespace(c) {
    } else if c == '"' {
      var n := QuoteIndex(s[1..]);
      assert s[1..1 + n] == s[1..][..n];
    } else if IsDigit(c) {
    } else if IsAlphabetic(c) {
      var n := 1 + WordRun(s[1..]);
      var w := s[..n];
      forall k | 0 <= k < n ensures IsWordChar(w[k]) {
        if k > 0 { assert w[k] == s[1..][k - 1]; }
      }
    }
  }

  /** `tokenize`: the scanned tokens followed by a single `EndOfFile`. */
  function Tokens(code: string): (r: Result<seq<Token>, LexError>)
    ensures r.Ok? ==> 0 < |r.value| <= |code| + 1
    ensures r.Ok? ==> r.value[|r.value| - 1] == EndOfFile
    ensures r.Ok? ==> forall k | 0 <= k < |r.value| - 1 :: r.value[k] != EndOfFile
  {
    var ts :- LexFrom(code);
    assert forall k | 0 <= k < |ts| :: ts[k] in ts;
    Ok(ts + [EndOfFile])
  }

  /** The result of scanning `rest` after `done` has already been emitted. */
  function Resume(done: seq<Token>, rest: string): Result<seq<Token>, LexError> {
    match LexFrom(rest)
    case Ok(ts) => Ok(done + ts + [EndOfFile])
    case Err(e) => Err(e)
  }

  /** Before the loop nothing has been emitted. */
  lemma ResumeStart(code: string)
    ensures Tokens(code) == Resume([], code)
  {
    match LexFrom(code)
    case Ok(ts) => assert [] + ts == ts;
    case Err(_) =>
  }

  /** One turn of the loop carries the scan forward by one lexeme. */
  lemma ResumeAdvance(done: seq<Token>, code: string, i: nat, emitted: seq<Token>, next: nat)
    requires i < next <= |code|
    requires Step(code[i..]).Ok?
    requires Emit(Step(code[i..]).value.token) == emitted
    requires Step(code[i..]).value.width == next - i
    ensures Resume(done, code[i..]) == Resume(done + emitted, code[next..])
  {
    var s := code[i..];
    assert s[next - i..] == code[next..];
    match LexFrom(code[next..])
    case Ok(ts) =>
      assert done + (emitted + ts) + [EndOfFile] == (done + emitted) + ts + [EndOfFile];
    case Err(_) =>
  }

  /** A turn of the loop that meets an oversized number ends the scan with its error. */
  lemma ResumeFails(done: seq<Token>, code: string, i: nat)
    requires i < |code| && Step(code[i..]).Err?
    ensures Resume(done, code[i..]) == Err(Step(code[i..]).error)
  {
  }

  /** A digit run read by the scanning loop is the whole run `DigitRun` describes. */
  lemma {:induction false} DigitRunAt(s: string, n: nat)
    requires n <= |s| && AllDigits(s[..n])
    requires n < |s| ==> !IsDigit(s[n])
    ensures DigitRun(s) == n
  {
    if n > 0 {
      assert IsDigit(s[..n][0]);
      assert s[1..][..n - 1] == s[..n][1..];
      DigitRunAt(s[1..], n - 1);
    }
  }

  /** Same for the word characters after the first letter of a word. */
  lemma {:induction false} WordRunAt(s: string, n: nat)
    requires n <= |s| && forall k | 0 <= k < n :: IsWordChar(s[k])
    requires n < |s| ==> !IsWordChar(s[n])
    ensures WordRun(s) == n
  {
    if n > 0 {
      assert IsWordChar(s[0]);
      assert forall k | 0 <= k < n - 1 :: s[1..][k] == s[k + 1];
      WordRunAt(s[1..], n - 1);
    }
  }

  /** Same for the characters of a string literal. */
  lemma {:induction false} QuoteIndexAt(s: string, n: nat)
    requires n <= |s| && forall k | 0 <= k < n :: s[k] != '"'
    requires n < |s| ==> s[n] == '"'
    ensures QuoteIndex(s) == n
  {
    if n > 0 {
      assert s[0] != '"';
      assert forall k | 0 <= k < n - 1 :: s[1..][k] == s[k + 1];
      QuoteIndexAt(s[1..], n - 1);
    }
  }

  /**
   * The inner loop of a string literal: the characters after the opening
   * quote up to the next quote, which is consumed, or to the end of input.
   */
  method ScanString(code: string, i: nat) returns (text: string, next: nat)
    requires i < |code| && code[i] == '"'
    ensures i < next <= |code|
    ensures StringLexeme(code[i..]) == Lexeme(Some(String(text)), next - i)
  {
    next := i + 1;
    text := "";
    while next < |code| && code[next] != '"'
      invariant i + 1 <= next <= |code|
      invariant text == code[i + 1..next]
      invariant forall k | i + 1 <= k < next :: code[k] != '"'
    {
      text := text + [code[next]];
      next := next + 1;
    }
    ghost var s := code[i..];
    assert forall k | 0 <= k < next - i - 1 :: s[1..][k] == code[i + 1 + k];
    QuoteIndexAt(s[1..], next - i - 1);
    assert text == s[1..1 + (next - i - 1)];
    if next < |code| {
      next := next + 1;
    }
  }

  /** The inner loop of a number: the maximal digit run, then its value. */
  method ScanNumber(code: string, i: nat) returns (r: Result<Int32, LexError>, next: nat)
    requires i < |code| && IsDigit(code[i])
    ensures i < next <= |code|
    ensures NumberLexeme(code[i..]) == (if r.Ok? then Ok(Lexeme(Some(Number(r.value)), next - i)) else Err(r.error))
  {
    var number := [code[i]];
    next := i + 1;
    while next < |code| && IsDigit(code[next])
      invariant i + 1 <= next <= |code|
      invariant number == code[i..next] && AllDigits(number)
    {
      number := number + [code[next]];
      next := next + 1;
    }
    ghost var s := code[i..];
    assert s[..next - i] == number;
    DigitRunAt(s, next - i);
    var value := DecimalValue(number);
    if value > MAX {
      r := Err(NumberOutOfRange(number));
    } else {
      r := Ok(value as Int32);
    }
  }

  /** The inner loop of a word: a letter, then letters and underscores. */
  method ScanWord(code: string, i: nat) returns (word: string, next: nat)
    requires i < |code| && IsAlphabetic(code[i])
    ensures i < next <= |code|
    ensures WordLexeme(code[i..]) == Lexeme(Some(Keyword(word)), next - i)
  {
    word := [code[i]];
    next := i + 1;
    while next < |code| && IsWordChar(code[next])
      invariant i + 1 <= next <= |code|
      invariant word == code[i..next]
      invariant forall k | i + 1 <= k < next :: IsWordChar(code[k])
    {
      word := word + [code[next]];
      next := next + 1;
    }
    ghost var s := code[i..];
    WordRunAt(s[1..], next - i - 1);
    assert s[..next - i] == word;
  }

  /**
   * The arms of the scanning loop for operators and punctuation, with one
   * character of lookahead for the two-character operators; any other
   * character is `Unknown`.
   */
  method ScanSymbol(code: string, i: nat) returns (token: Token, next: nat)
    requires i < |code|
    ensures i < next <= |code|
    ensures SymbolLexeme(code[i..]) == Lexeme(Some(token), next - i)
  {
    next := i + 1;
    match code[i] {
      case '!' =>
        if next < |code| && code[next] == '=' {
          token, next := NotEqual, next + 1;
        } else {
          token := Bang;
        }
      case '=' =>
        if next < |code| && code[next] == '=' {
          token, next := EqualEqual, next + 1;
        } else {
          token := Equals;
        }
      case ',' => token := Comma;
      case '<' =>
        if next < |code| && code[next] == '=' {
          token, next := LessThanEquals, next + 1;
        } else {
          token := LessThan;
        }
      case '>' =>
        if next < |code| && code[next] == '=' {
          token, next := GreaterThanEquals, next + 1;
        } else {
          token := GreaterThan;
        }
      case '&' => token := And;
      case '|' => token := Or;
      case '+' => token := Plus;
      case '-' => token := Minus;
      case '*' => token := Asterisk;
      case '/' => token := Slash;
      case '%' => token := Percent;
      case '(' => token := LeftParen;
      case ')' => token := RightParen;
      case '{' => token := LeftBrace;
      case '}' => token := RightBrace;
      case _ => token := Unknown;
    }
  }

  /**
   * The scanning loop of `tokenize`: a cursor into the characters and a token
   * list that grows by at most one token per turn.
   */
  method Tokenize(code: string) returns (r: Result<seq<Token>, LexError>)
    ensures r == Tokens(code)
  {
    var tokens: seq<Token> := [];
    var i := 0;
    assert code[i..] == code;
    ResumeStart(code);
    while i < |code|
      invariant 0 <= i <= |code|
      invariant Tokens(code) == Resume(tokens, code[i..])
    {
      var ch := code[i];
      var emitted: seq<Token>;
      var next: nat;
      if IsWhitespace(ch) {
        emitted, next := [], i + 1;
      } else if ch == '"' {
        var text;
        text, next := ScanString(code, i);
        emitted := [String(text)];
      } else if IsDigit(ch) {
        var number;
        number, next := ScanNumber(code, i);
        if number.Err? {
          ResumeFails(tokens, code, i);
          return Err(number.error);
        }
        emitted := [Number(number.value)];
      } else if IsAlphabetic(ch) {
        var word;
        word, next := ScanWord(code, i);
        emitted := [Keyword(word)];
      } else {
        var token;
        token, next := ScanSymbol(code, i);
        emitted := [token];
      }
      ResumeAdvance(tokens, code, i, emitted, next);
      tokens := tokens + emitted;
      i := next;
    }
    assert code[i..] == [] && LexFrom([]) == Ok([]);
    assert tokens + [] == tokens;
    r := Ok(tokens + [EndOfFile]);
  }
}
