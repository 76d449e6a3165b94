/**
 * Properties of the parser of evaluation/parser.go: the parse of a prefix is
 * not disturbed by the tokens after it (the source makes no check that the
 * whole input was consumed), a parsed tree evaluates without panicking, and
 * the outcomes of a few token lists.
 */
module ParserProperties {
  import opened Wrappers
  import opened Lexer
  import opened Expressions
  import opened Parser

  /**
   * A successful parse of a node reads only the tokens it consumed: a token
   * list that agrees with `a` on them parses the same way.
   */
  lemma {:induction false} NodeReadsConsumed(a: seq<Token>, b: seq<Token>, pos: int, seen: set<string>)
    requires -1 <= pos
    requires ParseNode(a, pos, seen).result.Ok?
    requires ParseNode(a, pos, seen).pos < |b|
    requires forall i :: pos < i <= ParseNode(a, pos, seen).pos ==> a[i] == b[i]
    ensures ParseNode(b, pos, seen) == ParseNode(a, pos, seen)
    decreases |a| - pos, 0
  {
    var p := pos + 1;
    if IsGate(a[p].tokenType) {
      ArgListReadsConsumed(a, b, p, seen, Arity(a[p].tokenType));
    }
  }

  lemma {:induction false} ArgListReadsConsumed(a: seq<Token>, b: seq<Token>, pos: int, seen: set<string>, expected: int)
    requires -1 <= pos
    requires ArgList(a, pos, seen, expected).result.Ok?
    requires ArgList(a, pos, seen, expected).pos < |b|
    requires forall i :: pos < i <= ArgList(a, pos, seen, expected).pos ==> a[i] == b[i]
    ensures ArgList(b, pos, seen, expected) == ArgList(a, pos, seen, expected)
    decreases |a| - pos, 2
  {
    ArgsLoopReadsConsumed(a, b, pos + 1, seen, expected);
  }

  lemma {:induction false} ArgsLoopReadsConsumed(a: seq<Token>, b: seq<Token>, pos: int, seen: set<string>, slots: int)
    requires 0 <= pos < |a|
    requires ArgsLoop(a, pos, seen, slots).result.Ok?
    requires ArgsLoop(a, pos, seen, slots).pos < |b|
    requires forall i :: pos <= i <= ArgsLoop(a, pos, seen, slots).pos ==> a[i] == b[i]
    ensures ArgsLoop(b, pos, seen, slots) == ArgsLoop(a, pos, seen, slots)
    decreases |a| - pos, 1
  {
    if slots > 0 {
      var c := ParseNode(a, pos, seen);
      NodeReadsConsumed(a, b, pos, seen);
      ArgsTailReadsConsumed(a, b, c.pos, c.seen, slots - NumOutputs(c.result.value));
    }
  }

  lemma {:induction false} ArgsTailReadsConsumed(a: seq<Token>, b: seq<Token>, pos: int, seen: set<string>, left: nat)
    requires 0 <= pos < |a|
    requires ArgsTail(a, pos, seen, left).result.Ok?
    requires ArgsTail(a, pos, seen, left).pos < |b|
    requires forall i :: pos <= i <= ArgsTail(a, pos, seen, left).pos ==> a[i] == b[i]
    ensures ArgsTail(b, pos, seen, left) == ArgsTail(a, pos, seen, left)
    decreases |a| - pos, 2
  {
    if left > 0 {
      ArgsLoopReadsConsumed(a, b, pos + 1, seen, left);
    }
  }

  /**
   * Tokens after a complete gate expression are ignored: the parse of the
   * whole list is the parse of the expression alone.
   */
  lemma TrailingTokensIgnored(toks: seq<Token>, extra: seq<Token>)
    requires toks != [] && IsGate(toks[0].tokenType)
    requires ParseTokenList(toks).Ok?
    ensures ParseTokenList(toks + extra) == ParseTokenList(toks)
  {
    NodeReadsConsumed(toks, toks + extra, -1, {});
  }

  /**
   * A parsed expression never panics when evaluated: it yields its number of
   * output bits when every one of its variables is bound, and otherwise
   * names one of its variables that is not.
   */
  lemma ParsedEvaluates(input: string, env: Env)
    requires Parse(input).Ok?
    ensures var (e, vars) := Parse(input).value;
      (Evaluate(e, env).Ok? <==> vars <= env.Keys) &&
      (Evaluate(e, env).Ok? ==> |Evaluate(e, env).value| == NumOutputs(e)) &&
      (Evaluate(e, env).Err? ==> Evaluate(e, env).error.MissingVariable? && Evaluate(e, env).error.name in vars - env.Keys)
  {
    EvaluateWellFormed(Parse(input).value.0, env);
  }

  // ---------------------------------------------------------------------
  // Outcomes on particular token lists

  const And := Token(TokenAnd, "and")
  const Not := Token(TokenNot, "not")
  const Mux := Token(TokenMux, "mux")
  const Dmux := Token(TokenDmux, "dmux")
  const Open := Token(TokenLparen, "(")
  const Close := Token(TokenRparen, ")")
  const Comma := Token(TokenComma, ",")
  const Zero := Token(TokenValue, "0")
  const One := Token(TokenValue, "1")

  function Var(name: string): Token {
    Token(TokenVariable, name)
  }

  // One step of the parser each, for working through particular token lists.

  lemma NodeLiteral(t: seq<Token>, p: int, seen: set<string>)
    requires -1 <= p && p + 1 < |t| && t[p + 1].tokenType == TokenValue
    ensures ParseNode(t, p, seen) == Parsed(Ok(LiteralExpr(t[p + 1].literal == "1")), p + 1, seen)
  {
  }

  lemma NodeVariable(t: seq<Token>, p: int, seen: set<string>)
    requires -1 <= p && p + 1 < |t| && t[p + 1].tokenType == TokenVariable
    ensures ParseNode(t, p, seen) == Parsed(Ok(VariableExpr(t[p + 1].literal)), p + 1, seen + {t[p + 1].literal})
  {
  }

  lemma NodeGate(t: seq<Token>, p: int, seen: set<string>, args: seq<Expr>, end: int, seen2: set<string>)
    requires -1 <= p && p + 1 < |t| && IsGate(t[p + 1].tokenType)
    requires ArgList(t, p + 1, seen, Arity(t[p + 1].tokenType)) == Parsed(Ok(args), end, seen2)
    ensures args != []
    ensures ParseNode(t, p, seen) == Parsed(Ok(Build(t[p + 1].tokenType, args)), end, seen2)
  {
  }

  lemma ListOpen(t: seq<Token>, p: int, seen: set<string>, expected: int)
    requires -1 <= p && p + 1 < |t| && t[p + 1].tokenType == TokenLparen
    ensures ArgList(t, p, seen, expected) == ArgsLoop(t, p + 1, seen, expected)
  {
  }

  lemma LoopChild(t: seq<Token>, p: int, seen: set<string>, slots: int, child: Expr, q: int, seen2: set<string>)
    requires 0 <= p < |t| && slots > 0
    requires ParseNode(t, p, seen) == Parsed(Ok(child), q, seen2) && NumOutputs(child) <= slots
    ensures ArgsLoop(t, p, seen, slots) == PrependChild(child, ArgsTail(t, q, seen2, slots - NumOutputs(child)))
  {
  }

  lemma TailComma(t: seq<Token>, p: int, seen: set<string>, left: nat)
    requires 0 <= p && p + 1 < |t| && left > 0 && t[p + 1].tokenType == TokenComma
    ensures ArgsTail(t, p, seen, left) == ArgsLoop(t, p + 1, seen, left)
  {
  }

  lemma TailClose(t: seq<Token>, p: int, seen: set<string>)
    requires 0 <= p && p + 1 < |t| && t[p + 1].tokenType == TokenRparen
    ensures ArgsTail(t, p, seen, 0) == Parsed(Ok([]), p + 1, seen)
  {
  }

  /** `mux(Y,not(X), sel)` parses, and collects its three variable names. */
  lemma MuxOfNotParses()
    ensures ParseTokenList([Mux, Open, Var("Y"), Comma, Not, Open, Var("X"), Close, Comma, Var("sel"), Close]) ==
      Ok((MuxExpr([VariableExpr("Y"), NotExpr(VariableExpr("X")), VariableExpr("sel")]), {"Y", "X", "sel"}))
  {
    var t := [Mux, Open, Var("Y"), Comma, Not, Open, Var("X"), Close, Comma, Var("sel"), Close];
    var y, x, sel := VariableExpr("Y"), VariableExpr("X"), VariableExpr("sel");
    var s1, s2, s3 := {"Y"}, {"Y", "X"}, {"Y", "X", "sel"};
    assert ParseNode(t, 1, {}) == Parsed(Ok(y), 2, s1);
    assert ParseNode(t, 5, s1) == Parsed(Ok(x), 6, s2);
    assert CloseArgs(t, 6, s2) == Parsed(Ok([]), 7, s2);
    assert [x] + [] == [x];
    assert ArgsLoop(t, 5, s1, 1) == Parsed(Ok([x]), 7, s2);
    assert ArgList(t, 4, s1, 1) == Parsed(Ok([x]), 7, s2);
    assert ParseNode(t, 3, s1) == Parsed(Ok(NotExpr(x)), 7, s2);
    assert ParseNode(t, 8, s2) == Parsed(Ok(sel), 9, s3);
    assert CloseArgs(t, 9, s3) == Parsed(Ok([]), 10, s3);
    assert [sel] + [] == [sel];
    assert ArgsLoop(t, 8, s2, 1) == Parsed(Ok([sel]), 10, s3);
    assert [NotExpr(x)] + [sel] == [NotExpr(x), sel];
    assert ArgsLoop(t, 3, s1, 2) == Parsed(Ok([NotExpr(x), sel]), 10, s3);
    assert [y] + [NotExpr(x), sel] == [y, NotExpr(x), sel];
    assert ArgsLoop(t, 1, {}, 3) == Parsed(Ok([y, NotExpr(x), sel]), 10, s3);
    assert ArgList(t, 0, {}, 3) == Parsed(Ok([y, NotExpr(x), sel]), 10, s3);
  }

  /** A `dmux` supplies both inputs of a binary gate on its own: `and(dmux(1,0))`. */
  lemma DmuxFillsBinaryGate()
    ensures ParseTokenList([And, Open, Dmux, Open, One, Comma, Zero, Close, Close]) ==
      Ok((BinaryExpr(TokenAnd, [DmuxExpr([LiteralExpr(true), LiteralExpr(false)])]), {}))
  {
    var t := [And, Open, Dmux, Open, One, Comma, Zero, Close, Close];
    var d := DmuxExpr([LiteralExpr(true), LiteralExpr(false)]);
    DmuxOneZero(t, 2);
    TailClose(t, 7, {});
    LoopChild(t, 1, {}, 2, d, 7, {});
    assert [d] + [] == [d];
    ListOpen(t, 0, {}, 2);
    NodeGate(t, -1, {}, [d], 8, {});
  }

  /** `not(dmux(1,0))` gives `not` two inputs. */
  lemma DmuxOverfillsNot()
    ensures ParseTokenList([Not, Open, Dmux, Open, One, Comma, Zero, Close, Close]) == Err(TooManyInputs)
  {
    var t := [Not, Open, Dmux, Open, One, Comma, Zero, Close, Close];
    DmuxOneZero(t, 2);
    assert ArgsLoop(t, 1, {}, 1) == Parsed(Err(TooManyInputs), 7, {});
    ListOpen(t, 0, {}, 1);
  }

  /** The node `dmux(1,0)` starting at index `k` of `t`. */
  lemma DmuxOneZero(t: seq<Token>, k: nat)
    requires k + 6 <= |t|
    requires t[k] == Dmux && t[k + 1] == Open && t[k + 2] == One
    requires t[k + 3] == Comma && t[k + 4] == Zero && t[k + 5] == Close
    ensures ParseNode(t, k - 1, {}) == Parsed(Ok(DmuxExpr([LiteralExpr(true), LiteralExpr(false)])), k + 5, {})
  {
    var one, zero := LiteralExpr(true), LiteralExpr(false);
    NodeLiteral(t, k + 1, {});
    NodeLiteral(t, k + 3, {});
    TailClose(t, k + 4, {});
    LoopChild(t, k + 3, {}, 1, zero, k + 4, {});
    assert [zero] + [] == [zero];
    TailComma(t, k + 2, {}, 1);
    LoopChild(t, k + 1, {}, 2, one, k + 2, {});
    assert [one] + [zero] == [one, zero];
    ListOpen(t, k, {}, 2);
    NodeGate(t, k - 1, {}, [one, zero], k + 5, {});
  }

  /** `and(1)` closes the argument list too early. */
  lemma MissingArgument()
    ensures ParseTokenList([And, Open, One, Close]) == Err(ExpectedButFound(TokenComma, Close))
  {
    var t := [And, Open, One, Close];
    assert ParseNode(t, 1, {}) == Parsed(Ok(LiteralExpr(true)), 2, {});
    assert ArgsLoop(t, 1, {}, 2) == Parsed(Err(ExpectedButFound(TokenComma, Close)), 3, {});
    assert ArgList(t, 0, {}, 2) == Parsed(Err(ExpectedButFound(TokenComma, Close)), 3, {});
  }

  /** `and(1,0,1)` has an argument too many. */
  lemma ExtraArgument()
    ensures ParseTokenList([And, Open, One, Comma, Zero, Comma, One, Close]) == Err(ExpectedButFound(TokenRparen, Comma))
  {
    var t := [And, Open, One, Comma, Zero, Comma, One, Close];
    var e := ExpectedButFound(TokenRparen, Comma);
    assert ParseNode(t, 1, {}) == Parsed(Ok(LiteralExpr(true)), 2, {});
    assert ParseNode(t, 3, {}) == Parsed(Ok(LiteralExpr(false)), 4, {});
    assert CloseArgs(t, 4, {}) == Parsed(Err(e), 5, {});
    assert ArgsLoop(t, 3, {}, 1) == Parsed(Err(e), 5, {});
    assert ArgsLoop(t, 1, {}, 2) == Parsed(Err(e), 5, {});
    assert ArgList(t, 0, {}, 2) == Parsed(Err(e), 5, {});
  }

  /** `and(X` ends before its arguments. */
  lemma UnfinishedArguments()
    ensures ParseTokenList([And, Open, Var("X")]) == Err(ExpectedButReachedEnd(TokenComma))
  {
    var t := [And, Open, Var("X")];
    var e := ExpectedButReachedEnd(TokenComma);
    assert ParseNode(t, 1, {}) == Parsed(Ok(VariableExpr("X")), 2, {"X"});
    assert ArgsLoop(t, 1, {}, 2) == Parsed(Err(e), 3, {"X"});
    assert ArgList(t, 0, {}, 2) == Parsed(Err(e), 3, {"X"});
  }

  /** `and(1,0) X` parses as `and(1,0)`. */
  lemma TrailingVariableIgnored()
    ensures ParseTokenList([And, Open, One, Comma, Zero, Close, Var("X")]) ==
      Ok((BinaryExpr(TokenAnd, [LiteralExpr(true), LiteralExpr(false)]), {}))
  {
    var t := [And, Open, One, Comma, Zero, Close];
    var args := [LiteralExpr(true), LiteralExpr(false)];
    assert ParseNode(t, 1, {}) == Parsed(Ok(LiteralExpr(true)), 2, {});
    assert ParseNode(t, 3, {}) == Parsed(Ok(LiteralExpr(false)), 4, {});
    assert CloseArgs(t, 4, {}) == Parsed(Ok([]), 5, {});
    assert [LiteralExpr(false)] + [] == [LiteralExpr(false)];
    assert ArgsLoop(t, 3, {}, 1) == Parsed(Ok([LiteralExpr(false)]), 5, {});
    assert [LiteralExpr(true)] + [LiteralExpr(false)] == args;
    assert ArgsLoop(t, 1, {}, 2) == Parsed(Ok(args), 5, {});
    assert ArgList(t, 0, {}, 2) == Parsed(Ok(args), 5, {});
    TrailingTokensIgnored(t, [Var("X")]);
    assert t + [Var("X")] == [And, Open, One, Comma, Zero, Close, Var("X")];
  }

  /** More than one token must start with a gate; a lone literal or variable is an expression. */
  lemma LeadingToken()
    ensures ParseTokenList([Var("X"), Var("Y")]) == Err(NoLeadingGate)
    ensures ParseTokenList([Var("X")]) == Ok((VariableExpr("X"), {"X"}))
    ensures ParseTokenList([One]) == Ok((LiteralExpr(true), {}))
    ensures ParseTokenList([Open]) == Err(InvalidTokenType(Open))
    ensures ParseTokenList([And]) == Err(ExpectedButReachedEnd(TokenLparen))
  {
    assert ArgList([And], 0, {}, 2) == Parsed(Err(ExpectedButReachedEnd(TokenLparen)), 1, {});
  }

  // ---------------------------------------------------------------------
  // From text

  /** The tokens of `and(1,0) X`. */
  lemma LexAndTrailing()
    ensures Lex("and(1,0) X") == Ok([And, Open, One, Comma, Zero, Close, Var("X")])
  {
    var args := [Open, One, Comma, Zero, Close, Var("X")];
    LexArguments();
    LexAndThen("(1,0) X", args);
    AndTrailingText();
    ConsAnd(args);
  }

  lemma AndTrailingText()
    ensures "and" + "(1,0) X" == "and(1,0) X"
  {
  }

  lemma ConsAnd(args: seq<Token>)
    requires args == [Open, One, Comma, Zero, Close, Var("X")]
    ensures [And] + args == [And, Open, One, Comma, Zero, Close, Var("X")]
  {
  }

  /** The keyword `and` in front of text that does not start with a letter. */
  lemma LexAndThen(rest: string, args: seq<Token>)
    requires rest != [] && !IsLetter(rest[0]) && Lex(rest) == Ok(args)
    ensures Lex("and" + rest) == Ok([And] + args)
  {
    assert Identifier("and") == And;
    LexIdentifier("and", rest);
  }

  lemma LexArguments()
    ensures Lex("(1,0) X") == Ok([Open, One, Comma, Zero, Close, Var("X")])
  {
    var t := "(1,0) X";
    LexSpaceVariable();
    assert t[5..] == " X";
    LexCharAt(t, 4, Close, [Var("X")]);
    LexCharAt(t, 3, Zero, [Close] + [Var("X")]);
    LexCharAt(t, 2, Comma, [Zero] + ([Close] + [Var("X")]));
    LexCharAt(t, 1, One, [Comma] + ([Zero] + ([Close] + [Var("X")])));
    LexCharAt(t, 0, Open, [One] + ([Comma] + ([Zero] + ([Close] + [Var("X")]))));
    ConsSix(Open, One, Comma, Zero, Close, Var("X"));
    assert t[0..] == t;
  }

  lemma ConsSix<T>(a: T, b: T, c: T, d: T, e: T, f: T)
    ensures [a] + ([b] + ([c] + ([d] + ([e] + [f])))) == [a, b, c, d, e, f]
  {
  }

  /** One step of tokenizing: a one-character token in front of the rest. */
  lemma LexCharAt(t: string, k: nat, tok: Token, rest: seq<Token>)
    requires k < |t| && IsSingleCharToken(t[k])
    requires tok == Token(SingleCharType(t[k]), [t[k]])
    requires Lex(t[k + 1..]) == Ok(rest)
    ensures Lex(t[k..]) == Ok([tok] + rest)
  {
    LexSingleChar(t, k);
  }

  lemma LexSpaceVariable()
    ensures Lex(" X") == Ok([Var("X")])
  {
    LexSkipsWhitespace(" X", 1);
    assert " X"[1..] == "X" + "";
    LexIdentifier("X", "");
    assert Identifier("X") == Var("X");
    assert Lex("") == Ok([]);
    assert [Var("X")] + [] == [Var("X")];
  }

  /** The source accepts `and(1,0) X`, ignoring the `X`. */
  lemma TextWithTrailingVariable()
    ensures Parse("and(1,0) X") == Ok((BinaryExpr(TokenAnd, [LiteralExpr(true), LiteralExpr(false)]), {}))
  {
    LexAndTrailing();
    TrailingVariableIgnored();
  }

  /** A character outside the language stops tokenizing before parsing starts. */
  lemma TextWithInvalidCharacter()
    ensures Parse("and(2,0)") == Err(TokenizeFailed(InvalidCharacter('2')))
  {
    var tail := "(2,0)";
    assert "and" + tail == "and(2,0)";
    LexIdentifier("and", tail);
    LexSingleChar(tail, 0);
    assert tail[0..] == tail;
    LexInvalid(tail, 1);
  }

  /** `and(X` is rejected: the argument list ends before its second input. */
  lemma TextUnfinished()
    ensures Parse("and(X") == Err(ExpectedButReachedEnd(TokenComma))
  {
    LexVariable();
    LexCharAt("(X", 0, Open, [Var("X")]);
    assert "(X"[0..] == "(X";
    assert Identifier("and") == And;
    LexIdentifier("and", "(X");
    assert "and" + "(X" == "and(X";
    assert [And] + ([Open] + [Var("X")]) == [And, Open, Var("X")];
    UnfinishedArguments();
  }

  lemma LexVariable()
    ensures Lex("(X"[1..]) == Ok([Var("X")])
  {
    assert "(X"[1..] == "X" + "";
    LexIdentifier("X", "");
    assert Identifier("X") == Var("X");
    assert Lex("") == Ok([]);
    assert [Var("X")] + [] == [Var("X")];
  }
}
