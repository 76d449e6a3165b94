/**
 * The recursive-descent parser of evaluation/parser.go.
 *
 * `ParseNode`, `ArgList`, `ArgsLoop`, `ArgsTail` and `CloseArgs` are the reference
 * definitions: each takes the token list, the cursor (the index of the last
 * token consumed, -1 before the first) and the names collected so far, and
 * gives the outcome together with the cursor and names it leaves. The class
 * `Parser` is the source's cursor-advancing parser, whose methods are proved
 * to follow them, and `VariableSet` the map the source fills in place.
 */
module Parser {
  import opened Wrappers
  import opened Lexer
  import opened Expressions

  datatype ParseError =
    | TokenizeFailed(lexError: LexError)
    | EmptyExpression
    | NoLeadingGate
    | UnexpectedEnd
    | InvalidTokenType(token: Token)
    | TooManyInputs
    | ExpectedButReachedEnd(expected: TokenType)
    | ExpectedButFound(expected: TokenType, found: Token)

  /** An outcome together with the parser state it leaves behind. */
  datatype Parsed<T> = Parsed(result: Result<T, ParseError>, pos: int, seen: set<string>)

  /** Input bits each gate needs. */
  function Arity(t: TokenType): nat
    requires IsGate(t)
  {
    match t
    case TokenNot => 1
    case TokenMux => 3
    case _ => 2
  }

  /** The node a gate token builds from its parsed children. */
  function Build(t: TokenType, args: seq<Expr>): Expr
    requires IsGate(t) && (t == TokenNot ==> |args| > 0)
  {
    match t
    case TokenNot => NotExpr(args[0])
    case TokenMux => MuxExpr(args)
    case TokenDmux => DmuxExpr(args)
    case _ => BinaryExpr(t, args)
  }

  /** Consumes the next token, which must have type `expected`. */
  function ExpectAt(toks: seq<Token>, pos: int, expected: TokenType): (r: Option<ParseError>)
    requires -1 <= pos
  {
    if pos + 1 >= |toks| then Some(ExpectedButReachedEnd(expected))
    else if toks[pos + 1].tokenType != expected then Some(ExpectedButFound(expected, toks[pos + 1]))
    else None
  }

  /**
   * `ExpectAt` succeeds exactly when a next token exists and has the expected
   * type; otherwise the error names the token found, or the end of the list.
   */
  lemma ExpectAtSucceedsIff(toks: seq<Token>, pos: int, expected: TokenType)
    requires -1 <= pos
    ensures ExpectAt(toks, pos, expected).None? <==> pos + 1 < |toks| && toks[pos + 1].tokenType == expected
    ensures pos + 1 >= |toks| ==> ExpectAt(toks, pos, expected) == Some(ExpectedButReachedEnd(expected))
    ensures pos + 1 < |toks| && toks[pos + 1].tokenType != expected ==>
      ExpectAt(toks, pos, expected) == Some(ExpectedButFound(expected, toks[pos + 1]))
  {
  }

  /** Parses one node starting after `pos`. */
  function ParseNode(toks: seq<Token>, pos: int, seen: set<string>): (r: Parsed<Expr>)
    requires -1 <= pos
    ensures r.pos > pos
    ensures r.result.Ok? ==> r.pos < |toks|
    decreases |toks| - pos, 0
  {
    var p := pos + 1;
    if p >= |toks| then Parsed(Err(UnexpectedEnd), p, seen)
    else
      var tok := toks[p];
      if tok.tokenType == TokenValue then Parsed(Ok(LiteralExpr(tok.literal == "1")), p, seen)
      else if tok.tokenType == TokenVariable then Parsed(Ok(VariableExpr(tok.literal)), p, seen + {tok.literal})
      else if IsGate(tok.tokenType) then
        var a := ArgList(toks, p, seen, Arity(tok.tokenType));
        if a.result.Err? then Parsed(Err(a.result.error), a.pos, a.seen)
        else
          var args := a.result.value;
          Parsed(Ok(Build(tok.tokenType, args)), a.pos, a.seen)
      else Parsed(Err(InvalidTokenType(tok)), p, seen)
  }

  /** Parses `(`, children filling `expected` input bits, and `)`. */
  function ArgList(toks: seq<Token>, pos: int, seen: set<string>, expected: int): (r: Parsed<seq<Expr>>)
    requires -1 <= pos
    ensures r.pos > pos
    ensures r.result.Ok? ==> r.pos < |toks|
    ensures r.result.Ok? && expected > 0 ==> r.result.value != []
    decreases |toks| - pos, 3
  {
    match ExpectAt(toks, pos, TokenLparen)
    case Some(err) => Parsed(Err(err), pos + 1, seen)
    case None => ArgsLoop(toks, pos + 1, seen, expected)
  }

  /**
   * The argument loop after `(` or `,` at `pos`: parses the children still
   * needed to fill `slots` input bits, and the closing `)`.
   */
  function ArgsLoop(toks: seq<Token>, pos: int, seen: set<string>, slots: int): (r: Parsed<seq<Expr>>)
    requires 0 <= pos < |toks|
    ensures r.pos > pos
    ensures r.result.Ok? ==> r.pos < |toks|
    ensures r.result.Ok? && slots > 0 ==> r.result.value != []
    decreases |toks| - pos, 1
  {
    if slots <= 0 then CloseArgs(toks, pos, seen)
    else
      var c := ParseNode(toks, pos, seen);
      if c.result.Err? then Parsed(Err(c.result.error), c.pos, c.seen)
      else
        var child := c.result.value;
        var left := slots - NumOutputs(child);
        if left < 0 then Parsed(Err(TooManyInputs), c.pos, c.seen)
        else PrependChild(child, ArgsTail(toks, c.pos, c.seen, left))
  }

  /**
   * What follows a child that left `left` input bits to fill: `)` when none
   * are left, otherwise `,` and the rest of the loop.
   */
  function ArgsTail(toks: seq<Token>, pos: int, seen: set<string>, left: nat): (r: Parsed<seq<Expr>>)
    requires 0 <= pos < |toks|
    ensures r.pos > pos
    ensures r.result.Ok? ==> r.pos < |toks|
    decreases |toks| - pos, 2
  {
    if left == 0 then CloseArgs(toks, pos, seen)
    else match ExpectAt(toks, pos, TokenComma)
      case Some(err) => Parsed(Err(err), pos + 1, seen)
      case None => ArgsLoop(toks, pos + 1, seen, left)
  }

  /** Puts a parsed child in front of the children parsed after it. */
  function PrependChild(child: Expr, rest: Parsed<seq<Expr>>): (r: Parsed<seq<Expr>>)
    ensures r.pos == rest.pos && r.seen == rest.seen
    ensures r.result.Ok? <==> rest.result.Ok?
    ensures r.result.Ok? ==> r.result.value == [child] + rest.result.value
  {
    if rest.result.Err? then rest else Parsed(Ok([child] + rest.result.value), rest.pos, rest.seen)
  }

  /** The `)` that closes an argument list. */
  function CloseArgs(toks: seq<Token>, pos: int, seen: set<string>): (r: Parsed<seq<Expr>>)
    requires -1 <= pos
    ensures r.pos == pos + 1 && r.seen == seen
    ensures r.result.Ok? <==> pos + 1 < |toks| && toks[pos + 1].tokenType == TokenRparen
    ensures r.result.Ok? ==> r.result.value == []
  {
    match ExpectAt(toks, pos, TokenRparen)
    case Some(err) => Parsed(Err(err), pos + 1, seen)
    case None => Parsed(Ok([]), pos + 1, seen)
  }

  lemma SumOutputsBounds(es: seq<Expr>)
    ensures SumOutputs(es) >= |es|
    ensures es != [] ==> SumOutputs(es) >= NumOutputs(es[0]) + |es| - 1
  {
  }

  /**
   * Every node the parser builds is well formed, and the names it leaves
   * collected are those it started with plus the variables of the node.
   */
  lemma {:induction false} NodeWellFormed(toks: seq<Token>, pos: int, seen: set<string>)
    requires -1 <= pos
    ensures var r := ParseNode(toks, pos, seen);
      r.result.Ok? ==> WellFormed(r.result.value) && r.seen == seen + Vars(r.result.value)
    decreases |toks| - pos, 0
  {
    var p := pos + 1;
    if p < |toks| && IsGate(toks[p].tokenType) {
      ArgListWellFormed(toks, p, seen, Arity(toks[p].tokenType));
      var args := ArgList(toks, p, seen, Arity(toks[p].tokenType)).result;
      if args.Ok? && toks[p].tokenType == TokenNot {
        SumOutputsBounds(args.value);
        assert args.value[1..] == [];
      }
    }
  }

  lemma {:induction false} ArgListWellFormed(toks: seq<Token>, pos: int, seen: set<string>, expected: int)
    requires -1 <= pos
    ensures var r := ArgList(toks, pos, seen, expected);
      r.result.Ok? ==>
        AllWellFormed(r.result.value) && r.seen == seen + VarsOf(r.result.value) &&
        SumOutputs(r.result.value) == if expected > 0 then expected else 0
    decreases |toks| - pos, 3
  {
    if ExpectAt(toks, pos, TokenLparen).None? {
      ArgsLoopWellFormed(toks, pos + 1, seen, expected);
    }
  }

  lemma {:induction false} ArgsLoopWellFormed(toks: seq<Token>, pos: int, seen: set<string>, slots: int)
    requires 0 <= pos < |toks|
    ensures var r := ArgsLoop(toks, pos, seen, slots);
      r.result.Ok? ==>
        AllWellFormed(r.result.value) && r.seen == seen + VarsOf(r.result.value) &&
        SumOutputs(r.result.value) == if slots > 0 then slots else 0
    decreases |toks| - pos, 1
  {
    if slots > 0 {
      NodeWellFormed(toks, pos, seen);
      var c := ParseNode(toks, pos, seen);
      if c.result.Ok? && slots - NumOutputs(c.result.value) >= 0 {
        var rest := ArgsTail(toks, c.pos, c.seen, slots - NumOutputs(c.result.value));
        ArgsTailWellFormed(toks, c.pos, c.seen, slots - NumOutputs(c.result.value));
        if rest.result.Ok? {
          var all := [c.result.value] + rest.result.value;
          assert all[0] == c.result.value && all[1..] == rest.result.value;
        }
      }
    }
  }

  lemma {:induction false} ArgsTailWellFormed(toks: seq<Token>, pos: int, seen: set<string>, left: nat)
    requires 0 <= pos < |toks|
    ensures var r := ArgsTail(toks, pos, seen, left);
      r.result.Ok? ==>
        AllWellFormed(r.result.value) && r.seen == seen + VarsOf(r.result.value) &&
        SumOutputs(r.result.value) == left
    decreases |toks| - pos, 2
  {
    if left > 0 && ExpectAt(toks, pos, TokenComma).None? {
      ArgsLoopWellFormed(toks, pos + 1, seen, left);
    }
  }

  /** The set of variable names the parser fills in place (a map to `true` in the source). */
  class VariableSet {
    var names: set<string>

    constructor ()
      ensures names == {}
    {
      names := {};
    }
  }

  /** Children parsed by the argument loop so far, in front of the outcome of the rest of it. */
  function PrependChildren(done: seq<Expr>, rest: Parsed<seq<Expr>>): Parsed<seq<Expr>> {
    if rest.result.Err? then rest else Parsed(Ok(done + rest.result.value), rest.pos, rest.seen)
  }

  lemma PrependChildrenStep(done: seq<Expr>, child: Expr, rest: Parsed<seq<Expr>>)
    ensures PrependChildren(done, PrependChild(child, rest)) == PrependChildren(done + [child], rest)
  {
    if rest.result.Ok? {
      assert done + ([child] + rest.result.value) == (done + [child]) + rest.result.value;
    }
  }

  class Parser {
    const tokens: seq<Token>
    /** Index of the last token consumed; -1 before the first. */
    var pos: int

    constructor (tokens: seq<Token>)
      ensures this.tokens == tokens && pos == -1
    {
      this.tokens := tokens;
      pos := -1;
    }

    /** Consumes the next token and checks its type. */
    method Expect(expected: TokenType) returns (err: Option<ParseError>)
      requires -1 <= pos
      modifies this
      ensures pos == old(pos) + 1
      ensures err == ExpectAt(tokens, old(pos), expected)
    {
      pos := pos + 1;
      if pos >= |tokens| {
        return Some(ExpectedButReachedEnd(expected));
      }
      var tok := tokens[pos];
      if tok.tokenType != expected {
        return Some(ExpectedButFound(expected, tok));
      }
      return None;
    }

    /** Parses one node, recording every variable name it meets in `collector`. */
    method Parse(collector: VariableSet) returns (r: Result<Expr, ParseError>)
      requires -1 <= pos
      modifies this, collector
      ensures Parsed(r, pos, collector.names) == ParseNode(tokens, old(pos), old(collector.names))
      decreases |tokens| - pos, 0
    {
      pos := pos + 1;
      if pos >= |tokens| {
        return Err(UnexpectedEnd);
      }
      var tok := tokens[pos];
      match tok.tokenType {
        case TokenValue =>
          r := Ok(LiteralExpr(tok.literal == "1"));
        case TokenVariable =>
          collector.names := collector.names + {tok.literal};
          r := Ok(VariableExpr(tok.literal));
        case TokenNot =>
          var exprs := ParseArgs(1, collector);
          if exprs.Err? {
            return Err(exprs.error);
          }
          r := Ok(NotExpr(exprs.value[0]));
        case TokenNand | TokenAnd | TokenOr | TokenXor =>
          var exprs := ParseArgs(2, collector);
          if exprs.Err? {
            return Err(exprs.error);
          }
          r := Ok(BinaryExpr(tok.tokenType, exprs.value));
        case TokenMux =>
          var exprs := ParseArgs(3, collector);
          if exprs.Err? {
            return Err(exprs.error);
          }
          r := Ok(MuxExpr(exprs.value));
        case TokenDmux =>
          var exprs := ParseArgs(2, collector);
          if exprs.Err? {
            return Err(exprs.error);
          }
          r := Ok(DmuxExpr(exprs.value));
        case _ =>
          r := Err(InvalidTokenType(tok));
      }
    }

    /**
     * Parses `(`, then children until their outputs fill `expectedInputs`
     * input bits, then `)`.
     */
    method ParseArgs(expectedInputs: int, collector: VariableSet) returns (r: Result<seq<Expr>, ParseError>)
      requires -1 <= pos
      modifies this, collector
      ensures Parsed(r, pos, collector.names) == ArgList(tokens, old(pos), old(collector.names), expectedInputs)
      decreases |tokens| - pos, 1
    {
      ghost var goal := ArgList(tokens, pos, collector.names, expectedInputs);
      var err := Expect(TokenLparen);
      if err.Some? {
        return Err(err.value);
      }
      var result: seq<Expr> := [];
      var slots := expectedInputs;
      assert PrependChildren([], ArgsLoop(tokens, pos, collector.names, slots)) == goal by {
        assert forall v: seq<Expr> :: [] + v == v;
      }
      while slots > 0
        invariant old(pos) < pos < |tokens|
        invariant goal == PrependChildren(result, ArgsLoop(tokens, pos, collector.names, slots))
        decreases |tokens| - pos
      {
        ghost var pos0, names0, slots0 := pos, collector.names, slots;
        var expr := Parse(collector);
        if expr.Err? {
          return Err(expr.error);
        }
        slots := slots - NumOutputs(expr.value);
        if slots < 0 {
          return Err(TooManyInputs);
        }
        ghost var rest := ArgsTail(tokens, pos, collector.names, slots);
        assert ArgsLoop(tokens, pos0, names0, slots0) == PrependChild(expr.value, rest);
        PrependChildrenStep(result, expr.value, rest);
        result := result + [expr.value];
        if slots == 0 {
          break;
        }
        err := Expect(TokenComma);
        if err.Some? {
          return Err(err.value);
        }
        assert rest == ArgsLoop(tokens, pos, collector.names, slots);
      }
      assert goal == PrependChildren(result, CloseArgs(tokens, pos, collector.names));
      err := Expect(TokenRparen);
      if err.Some? {
        return Err(err.value);
      }
      assert result + [] == result;
      return Ok(result);
    }
  }

  /** The checks the source makes on the token list before parsing, then the parse from the first token. */
  function ParseTokenList(toks: seq<Token>): (r: Result<(Expr, set<string>), ParseError>)
    ensures toks == [] ==> r == Err(EmptyExpression)
    ensures |toks| > 1 && !IsGate(toks[0].tokenType) ==> r == Err(NoLeadingGate)
    ensures r.Ok? ==> WellFormed(r.value.0) && r.value.1 == Vars(r.value.0)
  {
    if |toks| == 0 then Err(EmptyExpression)
    else if !IsGate(toks[0].tokenType) && |toks| > 1 then Err(NoLeadingGate)
    else
      var p := ParseNode(toks, -1, {});
      NodeWellFormed(toks, -1, {});
      if p.result.Err? then Err(p.result.error) else Ok((p.result.value, p.seen))
  }

  /** Tokenizes and parses an expression, giving the tree and its variable names. */
  function Parse(input: string): (r: Result<(Expr, set<string>), ParseError>)
    ensures Lex(input).Err? ==> r == Err(TokenizeFailed(Lex(input).error))
    ensures r.Ok? ==> WellFormed(r.value.0) && r.value.1 == Vars(r.value.0)
  {
    match Lex(input)
    case Err(e) => Err(TokenizeFailed(e))
    case Ok(toks) => ParseTokenList(toks)
  }

  /** The source's ParseExpression. */
  method ParseExpression(input: string) returns (r: Result<(Expr, set<string>), ParseError>)
    ensures r == Parse(input)
  {
    var tokens := ParseTokens(input);
    if tokens.Err? {
      return Err(TokenizeFailed(tokens.error));
    }
    var toks := tokens.value;
    if |toks| == 0 {
      return Err(EmptyExpression);
    }
    if !IsGate(toks[0].tokenType) && |toks| > 1 {
      return Err(NoLeadingGate);
    }
    var parser := new Parser(toks);
    var variableSet := new VariableSet();
    var expression := parser.Parse(variableSet);
    if expression.Err? {
      return Err(expression.error);
    }
    return Ok((expression.value, variableSet.names));
  }
}
