/**
 * The tokenizer of evaluation/lexer.go.
 *
 * `Lex` is the reference definition of tokenizing a whole text, written by
 * recursion on the text; `NextToken` and `ParseTokens` are the source's
 * index-advancing scanner and its driver loop, proved to compute `Lex`.
 */
module Lexer {
  import opened Wrappers

  datatype TokenType =
    | TokenValue
    | TokenVariable
    | TokenNand | TokenNot | TokenAnd | TokenOr | TokenXor | TokenMux | TokenDmux
    | TokenLparen
    | TokenRparen
    | TokenComma

  /** The seven gate token types. */
  predicate IsGate(t: TokenType) {
    t in {TokenNand, TokenNot, TokenAnd, TokenOr, TokenXor, TokenMux, TokenDmux}
  }

  /** Case-sensitive spelling of every gate keyword. */
  const Keywords: map<string, TokenType> :=
    map["nand" := TokenNand, "not" := TokenNot, "and" := TokenAnd, "or" := TokenOr,
        "xor" := TokenXor, "mux" := TokenMux, "dmux" := TokenDmux]

  /** The gate spellings: the keys of the keyword table. */
  const GateWords: set<string> := Keywords.Keys

  datatype Token = Token(tokenType: TokenType, literal: string)

  datatype LexError = InvalidCharacter(ch: char)

  predicate IsWhitespace(c: char) {
    c == ' ' || c == '\t' || c == '\n' || c == '\r'
  }

  predicate IsLetter(c: char) {
    'a' <= c <= 'z' || 'A' <= c <= 'Z'
  }

  /** The characters that are a token on their own. */
  predicate IsSingleCharToken(c: char) {
    c == '(' || c == ')' || c == ',' || c == '0' || c == '1'
  }

  /** A character that none of the lexer's rules accepts. */
  predicate IsInvalid(c: char) {
    !IsWhitespace(c) && !IsLetter(c) && !IsSingleCharToken(c)
  }

  function SingleCharType(c: char): TokenType
    requires IsSingleCharToken(c)
  {
    match c
    case '(' => TokenLparen
    case ')' => TokenRparen
    case ',' => TokenComma
    case _ => TokenValue
  }

  /** The token for an identifier: a gate keyword on an exact match, a variable otherwise. */
  function Identifier(w: string): (t: Token)
    ensures t.literal == w
    ensures IsGate(t.tokenType) <==> w in GateWords
    ensures t.tokenType == TokenVariable <==> w !in GateWords
  {
    if w in Keywords then Token(Keywords[w], w) else Token(TokenVariable, w)
  }

  /** Length of the longest prefix of `s` made of letters. */
  function LetterRun(s: string): (k: nat)
    ensures k <= |s|
    ensures forall i :: 0 <= i < k ==> IsLetter(s[i])
    ensures k == |s| || !IsLetter(s[k])
  {
    if s == [] || !IsLetter(s[0]) then 0 else 1 + LetterRun(s[1..])
  }

  /** Puts a token in front of a successful tokenization; an error passes through. */
  function Prepend(prefix: seq<Token>, r: Result<seq<Token>, LexError>): Result<seq<Token>, LexError> {
    match r
    case Ok(ts) => Ok(prefix + ts)
    case Err(e) => Err(e)
  }

  lemma PrependAssociates(a: seq<Token>, b: seq<Token>, r: Result<seq<Token>, LexError>)
    ensures Prepend(a, Prepend(b, r)) == Prepend(a + b, r)
    ensures Prepend([], r) == r
  {
    if r.Ok? {
      assert a + (b + r.value) == (a + b) + r.value;
      assert [] + r.value == r.value;
    }
  }

  /** Tokenizes a whole text, failing on the first invalid character. */
  function Lex(s: string): Result<seq<Token>, LexError>
    decreases |s|
  {
    if s == [] then Ok([])
    else if IsWhitespace(s[0]) then Lex(s[1..])
    else if IsSingleCharToken(s[0]) then Prepend([Token(SingleCharType(s[0]), [s[0]])], Lex(s[1..]))
    else if IsLetter(s[0]) then
      var k := LetterRun(s);
      Prepend([Identifier(s[..k])], Lex(s[k..]))
    else Err(InvalidCharacter(s[0]))
  }

  /** What one call of the scanner found. */
  datatype Step = EndOfInput | Found(token: Token) | Failed(error: LexError)

  /** What the remaining text tokenizes to, given the step just taken and the index after it. */
  function Continue(step: Step, text: string, next: nat): Result<seq<Token>, LexError>
    requires next <= |text|
  {
    match step
    case EndOfInput => Ok([])
    case Found(t) => Prepend([t], Lex(text[next..]))
    case Failed(e) => Err(e)
  }

  lemma {:induction false} LexSkipsWhitespace(s: string, k: nat)
    requires k <= |s|
    requires forall i :: 0 <= i < k ==> IsWhitespace(s[i])
    ensures Lex(s) == Lex(s[k..])
  {
    if k > 0 {
      LexSkipsWhitespace(s[1..], k - 1);
      assert s[1..][k - 1..] == s[k..];
    }
  }

  /** A letter run that is not followed by a letter is one identifier token. */
  lemma LexIdentifier(w: string, rest: string)
    requires |w| > 0 && forall i :: 0 <= i < |w| ==> IsLetter(w[i])
    requires rest == [] || !IsLetter(rest[0])
    ensures Lex(w + rest) == Prepend([Identifier(w)], Lex(rest))
  {
    var s := w + rest;
    assert s[0] == w[0];
    var k := LetterRun(s);
    assert forall i :: 0 <= i < |w| ==> s[i] == w[i];
    assert rest != [] ==> s[|w|] == rest[0];
    assert k == |w|;
    assert s[..k] == w;
    assert s[k..] == rest;
  }

  /** A one-character token is the first token of the text from it. */
  lemma LexSingleChar(text: string, start: nat)
    requires start < |text| && IsSingleCharToken(text[start])
    ensures Lex(text[start..]) == Prepend([Token(SingleCharType(text[start]), [text[start]])], Lex(text[start + 1..]))
  {
    assert text[start..][1..] == text[start + 1..];
  }

  lemma LexInvalid(text: string, start: nat)
    requires start < |text| && IsInvalid(text[start])
    ensures Lex(text[start..]) == Err(InvalidCharacter(text[start]))
  {
  }

  /** The identifier loop: grows `identifier` while the next character is a letter. */
  method ReadLetters(text: string, start: nat) returns (identifier: string, current: nat)
    requires start < |text| && IsLetter(text[start])
    ensures start < current <= |text|
    ensures identifier == text[start..current]
    ensures forall i :: 0 <= i < |identifier| ==> IsLetter(identifier[i])
    ensures current == |text| || !IsLetter(text[current])
  {
    identifier := [text[start]];
    current := start + 1;
    while current < |text| && IsLetter(text[current])
      invariant start < current <= |text|
      invariant identifier == text[start..current]
      invariant forall i :: 0 <= i < |identifier| ==> IsLetter(identifier[i])
    {
      identifier := identifier + [text[current]];
      current := current + 1;
    }
  }

  /**
   * One scanner step: skip whitespace, then read one token.
   * The token found is the first token of the rest of the text.
   */
  method NextToken(text: string, index: nat) returns (step: Step, next: nat)
    requires index <= |text|
    ensures next <= |text|
    ensures step.EndOfInput? ==> next == |text| && forall i :: index <= i < |text| ==> IsWhitespace(text[i])
    ensures !step.EndOfInput? ==> index < next
    ensures step.Found? ==> 0 < |step.token.literal| <= next - index
    ensures step.Found? ==> step.token.literal == text[next - |step.token.literal|..next]
    ensures step.Found? && IsLetter(step.token.literal[0]) ==> next == |text| || !IsLetter(text[next])
    ensures Lex(text[index..]) == Continue(step, text, next)
  {
    var current := SkipWhitespace(text, index);
    LexAfterWhitespace(text, index, current);
    if current >= |text| {
      assert text[current..] == [];
      return EndOfInput, current;
    }
    step, next := ScanToken(text, current);
  }

  lemma LexAfterWhitespace(text: string, index: nat, current: nat)
    requires index <= current <= |text|
    requires forall i :: index <= i < current ==> IsWhitespace(text[i])
    ensures Lex(text[index..]) == Lex(text[current..])
  {
    LexSkipsWhitespace(text[index..], current - index);
    assert text[index..][current - index..] == text[current..];
  }

  /** The whitespace loop: the index of the first character from `index` on that is not whitespace. */
  method SkipWhitespace(text: string, index: nat) returns (current: nat)
    requires index <= |text|
    ensures index <= current <= |text|
    ensures forall i :: index <= i < current ==> IsWhitespace(text[i])
    ensures current == |text| || !IsWhitespace(text[current])
  {
    current := index;
    while current < |text| && IsWhitespace(text[current])
      invariant index <= current <= |text|
      invariant forall i :: index <= i < current ==> IsWhitespace(text[i])
    {
      current := current + 1;
    }
  }

  /** Reads the token that starts at `start`, a character that is not whitespace. */
  method ScanToken(text: string, start: nat) returns (step: Step, next: nat)
    requires start < |text| && !IsWhitespace(text[start])
    ensures start < next <= |text|
    ensures !step.EndOfInput?
    ensures step.Found? ==> 0 < |step.token.literal| <= next - start
    ensures step.Found? ==> step.token.literal == text[next - |step.token.literal|..next]
    ensures step.Found? && IsLetter(step.token.literal[0]) ==> next == |text| || !IsLetter(text[next])
    ensures Lex(text[start..]) == Continue(step, text, next)
  {
    var ch := text[start];
    var current := start + 1;

    match ch {
    case '(' => step := Found(Token(TokenLparen, [ch]));
    case ')' => step := Found(Token(TokenRparen, [ch]));
    case ',' => step := Found(Token(TokenComma, [ch]));
    case '0' => step := Found(Token(TokenValue, [ch]));
    case '1' => step := Found(Token(TokenValue, [ch]));
    case _ =>
      if IsLetter(ch) {
        var identifier;
        identifier, current := ReadLetters(text, start);
        step := Found(Identifier(identifier));
        assert text[start..] == identifier + text[current..];
        LexIdentifier(identifier, text[current..]);
      } else {
        step := Failed(InvalidCharacter(ch));
        LexInvalid(text, start);
      }
    }
    if IsSingleCharToken(ch) {
      LexSingleChar(text, start);
    }
    next := current;
  }

  /** Tokenizes `text` by calling the scanner until it reports the end of input. */
  method ParseTokens(text: string) returns (r: Result<seq<Token>, LexError>)
    ensures r == Lex(text)
  {
    var result: seq<Token> := [];
    var step, idx := NextToken(text, 0);
    assert text[0..] == text;
    PrependAssociates([], [], Continue(step, text, idx));
    while !step.EndOfInput?
      invariant idx <= |text|
      invariant Lex(text) == Prepend(result, Continue(step, text, idx))
      decreases |text| - idx, if step.EndOfInput? then 0 else 1
    {
      if step.Failed? {
        return Err(step.error);
      }
      var tok := step.token;
      ghost var before := idx;
      result := result + [tok];
      step, idx := NextToken(text, idx);
      PrependAssociates(result[..|result| - 1], [tok], Lex(text[before..]));
      assert result[..|result| - 1] + [tok] == result;
    }
    assert result + [] == result;
    return Ok(result);
  }

  // ---------------------------------------------------------------------
  // Properties of the tokenization

  predicate AllLetters(w: string) {
    forall i :: 0 <= i < |w| ==> IsLetter(w[i])
  }

  /** What a token produced by the lexer looks like, type by type. */
  predicate WellFormedToken(t: Token) {
    match t.tokenType
    case TokenValue => t.literal == "0" || t.literal == "1"
    case TokenLparen => t.literal == "("
    case TokenRparen => t.literal == ")"
    case TokenComma => t.literal == ","
    case TokenVariable => |t.literal| > 0 && AllLetters(t.literal) && t.literal !in GateWords
    case TokenNand => t.literal == "nand"
    case TokenNot => t.literal == "not"
    case TokenAnd => t.literal == "and"
    case TokenOr => t.literal == "or"
    case TokenXor => t.literal == "xor"
    case TokenMux => t.literal == "mux"
    case TokenDmux => t.literal == "dmux"
  }

  /** The token literals of `ts`, concatenated in order. */
  function Literals(ts: seq<Token>): string {
    if ts == [] then [] else ts[0].literal + Literals(ts[1..])
  }

  /** `s` with every space, tab, newline and carriage return removed. */
  function RemoveWhitespace(s: string): string {
    if s == [] then []
    else if IsWhitespace(s[0]) then RemoveWhitespace(s[1..])
    else [s[0]] + RemoveWhitespace(s[1..])
  }

  /** A text made only of whitespace, the empty text included, has no tokens. */
  lemma {:induction false} LexOnlyWhitespace(s: string)
    requires forall i :: 0 <= i < |s| ==> IsWhitespace(s[i])
    ensures Lex(s) == Ok([])
  {
    LexSkipsWhitespace(s, |s|);
    assert s[|s|..] == [];
  }

  lemma {:induction false} RemoveWhitespaceOfLetters(w: string, rest: string)
    requires AllLetters(w)
    ensures RemoveWhitespace(w + rest) == w + RemoveWhitespace(rest)
  {
    if w == [] {
      assert w + rest == rest;
    } else {
      assert (w + rest)[0] == w[0];
      assert (w + rest)[1..] == w[1..] + rest;
      assert !IsWhitespace(w[0]);
      assert AllLetters(w[1..]) by {
        forall i | 0 <= i < |w[1..]| ensures IsLetter(w[1..][i]) { assert w[1..][i] == w[i + 1]; }
      }
      RemoveWhitespaceOfLetters(w[1..], rest);
      assert w == [w[0]] + w[1..];
    }
  }

  /** Every token the lexer returns is a well-formed token of its type. */
  lemma {:induction false} LexTokensWellFormed(s: string)
    requires Lex(s).Ok?
    ensures forall i :: 0 <= i < |Lex(s).value| ==> WellFormedToken(Lex(s).value[i])
    decreases |s|
  {
    if s == [] {
    } else if IsWhitespace(s[0]) {
      LexTokensWellFormed(s[1..]);
    } else if IsSingleCharToken(s[0]) {
      LexTokensWellFormed(s[1..]);
      var t := Token(SingleCharType(s[0]), [s[0]]);
      assert WellFormedToken(t);
      assert Lex(s).value == [t] + Lex(s[1..]).value;
    } else {
      var k := LetterRun(s);
      LexTokensWellFormed(s[k..]);
      var t := Identifier(s[..k]);
      assert WellFormedToken(t) by {
        assert AllLetters(t.literal);
        if t.tokenType != TokenVariable {
          assert s[..k] in GateWords;
        }
      }
      assert Lex(s).value == [t] + Lex(s[k..]).value;
    }
  }

  /** Concatenating the literals of the tokens gives back the text without its whitespace. */
  lemma {:induction false} LexRoundTrip(s: string)
    requires Lex(s).Ok?
    ensures Literals(Lex(s).value) == RemoveWhitespace(s)
    decreases |s|
  {
    if s == [] {
    } else if IsWhitespace(s[0]) {
      LexRoundTrip(s[1..]);
    } else if IsSingleCharToken(s[0]) {
      LexRoundTrip(s[1..]);
      var ts := Lex(s).value;
      assert ts[1..] == Lex(s[1..]).value;
    } else {
      var k := LetterRun(s);
      LexRoundTrip(s[k..]);
      var ts := Lex(s).value;
      assert ts[1..] == Lex(s[k..]).value;
      assert s == s[..k] + s[k..];
      RemoveWhitespaceOfLetters(s[..k], s[k..]);
    }
  }

  /** A keyword or a variable: a token spelled with letters. */
  predicate IsWord(t: Token) {
    t.tokenType == TokenVariable || IsGate(t.tokenType)
  }

  /** No two words are next to each other, so their letters cannot run together. */
  predicate Separated(ts: seq<Token>) {
    forall i :: 0 <= i < |ts| - 1 ==> !IsWord(ts[i]) || !IsWord(ts[i + 1])
  }

  /** The literal of a well-formed word token is read back as that token. */
  lemma IdentifierOfWord(t: Token)
    requires WellFormedToken(t) && IsWord(t)
    ensures Identifier(t.literal) == t
  {
  }

  /**
   * The converse of `LexRoundTrip`: well-formed tokens with no two words side
   * by side, written out one after the other, tokenize back to themselves.
   */
  lemma {:induction false} LexLiterals(ts: seq<Token>)
    requires forall i :: 0 <= i < |ts| ==> WellFormedToken(ts[i])
    requires Separated(ts)
    ensures Lex(Literals(ts)) == Ok(ts)
    decreases |ts|
  {
    if ts != [] {
      var t, rest := ts[0], ts[1..];
      assert forall i :: 0 <= i < |rest| ==> rest[i] == ts[i + 1];
      LexLiterals(rest);
      assert [t] + rest == ts;
      if IsWord(t) {
        LexWordFirst(t, rest);
      } else {
        LexPunctuationFirst(t, rest);
      }
    }
  }

  /** A word in front of tokens that do not start with a word. */
  lemma LexWordFirst(t: Token, rest: seq<Token>)
    requires WellFormedToken(t) && IsWord(t)
    requires rest == [] || (WellFormedToken(rest[0]) && !IsWord(rest[0]))
    requires Lex(Literals(rest)) == Ok(rest)
    ensures Lex(Literals([t] + rest)) == Ok([t] + rest)
  {
    var r := Literals(rest);
    assert ([t] + rest)[1..] == rest;
    assert rest == [] || !IsLetter(r[0]) by {
      if rest != [] {
        assert r == rest[0].literal + Literals(rest[1..]);
      }
    }
    LexIdentifier(t.literal, r);
    IdentifierOfWord(t);
  }

  /** A one-character token in front of any tokens. */
  lemma LexPunctuationFirst(t: Token, rest: seq<Token>)
    requires WellFormedToken(t) && !IsWord(t)
    requires Lex(Literals(rest)) == Ok(rest)
    ensures Lex(Literals([t] + rest)) == Ok([t] + rest)
  {
    var text := Literals([t] + rest);
    assert ([t] + rest)[1..] == rest;
    assert text == t.literal + Literals(rest);
    assert text[1..] == Literals(rest);
    LexSingleChar(text, 0);
    assert text[0..] == text;
  }

  /** The first token of a text that starts with a valid character spans `k` valid characters. */
  lemma LexFirstStep(s: string) returns (k: nat)
    requires s != [] && !IsInvalid(s[0])
    ensures 0 < k <= |s|
    ensures forall j :: 0 <= j < k ==> !IsInvalid(s[j])
    ensures Lex(s).Err? == Lex(s[k..]).Err?
    ensures Lex(s).Err? ==> Lex(s).error == Lex(s[k..]).error
  {
    k := if IsLetter(s[0]) then LetterRun(s) else 1;
  }

  /** A text holding an invalid character does not tokenize. */
  lemma {:induction false} LexFailsOnInvalid(s: string, i: nat)
    requires i < |s| && IsInvalid(s[i])
    ensures Lex(s).Err?
    decreases |s|
  {
    if !IsInvalid(s[0]) {
      var k := LexFirstStep(s);
      assert k <= i;
      assert s[k..][i - k] == s[i];
      LexFailsOnInvalid(s[k..], i - k);
    }
  }

  /** When tokenizing fails, the error names the first invalid character of the text. */
  lemma {:induction false} LexErrorIsFirstInvalid(s: string)
    requires Lex(s).Err?
    ensures exists i :: 0 <= i < |s| && IsInvalid(s[i]) && Lex(s).error == InvalidCharacter(s[i]) &&
                        forall j :: 0 <= j < i ==> !IsInvalid(s[j])
    decreases |s|
  {
    if IsInvalid(s[0]) {
      assert Lex(s).error == InvalidCharacter(s[0]);
    } else {
      var k := LexFirstStep(s);
      LexErrorIsFirstInvalid(s[k..]);
      var i :| 0 <= i < |s[k..]| && IsInvalid(s[k..][i]) && Lex(s[k..]).error == InvalidCharacter(s[k..][i]) &&
               forall j :: 0 <= j < i ==> !IsInvalid(s[k..][j]);
      assert s[k + i] == s[k..][i];
      assert forall j :: k <= j < k + i ==> s[j] == s[k..][j - k];
    }
  }

  /** Tokenizing fails if and only if the text holds a character no rule accepts. */
  lemma LexFailsIff(s: string)
    ensures Lex(s).Err? <==> exists i :: 0 <= i < |s| && IsInvalid(s[i])
  {
    if Lex(s).Err? {
      LexErrorIsFirstInvalid(s);
    }
    if exists i :: 0 <= i < |s| && IsInvalid(s[i]) {
      var i :| 0 <= i < |s| && IsInvalid(s[i]);
      LexFailsOnInvalid(s, i);
    }
  }
}
