/**
 * The parser of evaluation/parser.go accepts every well-formed tree written
 * out as tokens. `Tokens` writes a tree in the source's syntax: a literal as
 * `0` or `1`, a variable as its name, and a gate as its keyword, `(`, its
 * children separated by `,`, and `)`. `TokensParse` proves that these tokens
 * parse back to the same tree, with exactly its variables; together with
 * `ParseTokenList`'s own contract (everything parsed is well formed), the
 * parser accepts exactly the well-formed trees. `TextParses` goes on from the
 * printed text, through the lexer.
 */
module ParserCompleteness {
  import opened Wrappers
  import opened Lexer
  import opened Expressions
  import opened Parser
  import opened ParserProperties

  /** The keyword of each gate, as the lexer spells it. */
  function GateWord(t: TokenType): (w: string)
    requires IsGate(t)
    ensures w in Keywords && Keywords[w] == t
  {
    match t
    case TokenNand => "nand"
    case TokenNot => "not"
    case TokenAnd => "and"
    case TokenOr => "or"
    case TokenXor => "xor"
    case TokenMux => "mux"
    case TokenDmux => "dmux"
  }

  function GateToken(t: TokenType): Token
    requires IsGate(t)
  {
    Token(t, GateWord(t))
  }

  /** A well-formed tree written out as tokens. */
  function Tokens(e: Expr): seq<Token>
    requires WellFormed(e)
    decreases e
  {
    match e
    case LiteralExpr(v) => [if v then One else Zero]
    case VariableExpr(n) => [Var(n)]
    case NotExpr(c) => [GateToken(TokenNot), Open] + Tokens(c) + [Close]
    case BinaryExpr(op, cs) => [GateToken(op), Open] + ListTokens(cs) + [Close]
    case MuxExpr(cs) => [GateToken(TokenMux), Open] + ListTokens(cs) + [Close]
    case DmuxExpr(cs) => [GateToken(TokenDmux), Open] + ListTokens(cs) + [Close]
  }

  /** Children written out one after the other, separated by commas. */
  function ListTokens(cs: seq<Expr>): seq<Token>
    requires AllWellFormed(cs)
    decreases cs
  {
    if cs == [] then []
    else if |cs| == 1 then Tokens(cs[0])
    else Tokens(cs[0]) + [Comma] + ListTokens(cs[1..])
  }

  /** `s` occurs in `t` from index `start` on. */
  predicate At(t: seq<Token>, start: int, s: seq<Token>) {
    0 <= start && start + |s| <= |t| && forall k :: 0 <= k < |s| ==> t[start + k] == s[k]
  }

  lemma AtConcat(t: seq<Token>, start: int, x: seq<Token>, y: seq<Token>)
    requires At(t, start, x + y)
    ensures At(t, start, x) && At(t, start + |x|, y)
  {
    forall k | 0 <= k < |x|
      ensures t[start + k] == x[k]
    {
      assert (x + y)[k] == x[k];
    }
    forall k | 0 <= k < |y|
      ensures t[start + |x| + k] == y[k]
    {
      assert (x + y)[|x| + k] == y[k];
    }
  }

  /** The tokens of a gate node: its keyword, `(`, then `inner`. */
  lemma AtGate(t: seq<Token>, start: int, g: TokenType, inner: seq<Token>)
    requires IsGate(g) && At(t, start, [GateToken(g), Open] + inner)
    ensures start + 1 < |t| && t[start] == GateToken(g) && t[start + 1] == Open
    ensures At(t, start + 2, inner)
  {
    AtConcat(t, start, [GateToken(g), Open], inner);
    assert t[start] == ([GateToken(g), Open] + inner)[0];
    assert t[start + 1] == ([GateToken(g), Open] + inner)[1];
  }

  /** A node written out parses back to itself and adds its variables to the names seen. */
  lemma {:induction false} NodeParses(e: Expr, t: seq<Token>, p: int, seen: set<string>)
    requires WellFormed(e) && -1 <= p && At(t, p + 1, Tokens(e))
    ensures ParseNode(t, p, seen) == Parsed(Ok(e), p + |Tokens(e)|, seen + Vars(e))
    decreases e, 1
  {
    match e
    case LiteralExpr(v) =>
      assert t[p + 1] == Tokens(e)[0];
      NodeLiteral(t, p, seen);
    case VariableExpr(n) =>
      assert t[p + 1] == Tokens(e)[0];
      NodeVariable(t, p, seen);
    case NotExpr(c) =>
      NotParses(e, t, p, seen);
    case BinaryExpr(op, cs) =>
      GateParses(e, op, cs, t, p, seen);
    case MuxExpr(cs) =>
      GateParses(e, TokenMux, cs, t, p, seen);
    case DmuxExpr(cs) =>
      GateParses(e, TokenDmux, cs, t, p, seen);
  }

  lemma {:induction false} NotParses(e: Expr, t: seq<Token>, p: int, seen: set<string>)
    requires e.NotExpr? && WellFormed(e) && -1 <= p && At(t, p + 1, Tokens(e))
    ensures ParseNode(t, p, seen) == Parsed(Ok(e), p + |Tokens(e)|, seen + Vars(e))
    decreases e, 0
  {
    var c := e.input;
    var tc := Tokens(c);
    assert Tokens(e) == [GateToken(TokenNot), Open] + (tc + [Close]);
    AtGate(t, p + 1, TokenNot, tc + [Close]);
    AtConcat(t, p + 3, tc, [Close]);
    assert t[p + 3 + |tc|] == [Close][0];
    NodeParses(c, t, p + 2, seen);
    ListOpen(t, p + 1, seen, 1);
    TailClose(t, p + 2 + |tc|, seen + Vars(c));
    LoopChild(t, p + 2, seen, 1, c, p + 2 + |tc|, seen + Vars(c));
    assert [c] + [] == [c];
    NodeGate(t, p, seen, [c], p + 3 + |tc|, seen + Vars(c));
  }

  /** Where the keyword, the `(` and the children of a gate node sit. */
  lemma GateLayout(e: Expr, g: TokenType, cs: seq<Expr>, t: seq<Token>, p: int)
    requires WellFormed(e) && -1 <= p && At(t, p + 1, Tokens(e))
    requires e.BinaryExpr? || e.MuxExpr? || e.DmuxExpr?
    requires g == (if e.BinaryExpr? then e.op else if e.MuxExpr? then TokenMux else TokenDmux)
    requires cs == e.inputs
    ensures p + 2 < |t| && t[p + 1] == GateToken(g) && t[p + 2] == Open
    ensures At(t, p + 3, ListTokens(cs) + [Close])
    ensures |Tokens(e)| == 2 + |ListTokens(cs) + [Close]|
  {
    var inner := ListTokens(cs) + [Close];
    assert Tokens(e) == [GateToken(g), Open] + inner;
    AtGate(t, p + 1, g, inner);
  }

  lemma {:induction false} GateParses(e: Expr, g: TokenType, cs: seq<Expr>, t: seq<Token>, p: int, seen: set<string>)
    requires WellFormed(e) && -1 <= p && At(t, p + 1, Tokens(e))
    requires e.BinaryExpr? || e.MuxExpr? || e.DmuxExpr?
    requires g == (if e.BinaryExpr? then e.op else if e.MuxExpr? then TokenMux else TokenDmux)
    requires cs == e.inputs
    ensures ParseNode(t, p, seen) == Parsed(Ok(e), p + |Tokens(e)|, seen + Vars(e))
    decreases e, 0
  {
    var inner := ListTokens(cs) + [Close];
    GateLayout(e, g, cs, t, p);
    ListOpen(t, p + 1, seen, Arity(g));
    assert Arity(g) == SumOutputs(cs);
    SumOutputsBounds(cs);
    ListParses(cs, t, p + 2, seen);
    NodeGate(t, p, seen, cs, p + 2 + |inner|, seen + VarsOf(cs));
  }

  /** Children written out, with the closing `)`, fill the argument loop exactly. */
  lemma {:induction false} ListParses(cs: seq<Expr>, t: seq<Token>, p: int, seen: set<string>)
    requires AllWellFormed(cs) && cs != [] && 0 <= p < |t| && At(t, p + 1, ListTokens(cs) + [Close])
    ensures ArgsLoop(t, p, seen, SumOutputs(cs)) == Parsed(Ok(cs), p + |ListTokens(cs)| + 1, seen + VarsOf(cs))
    decreases cs, 1
  {
    if |cs| == 1 {
      LastParses(cs, t, p, seen);
    } else {
      ConsParses(cs, t, p, seen);
    }
  }

  lemma {:induction false} LastParses(cs: seq<Expr>, t: seq<Token>, p: int, seen: set<string>)
    requires AllWellFormed(cs) && |cs| == 1 && 0 <= p < |t| && At(t, p + 1, ListTokens(cs) + [Close])
    ensures ArgsLoop(t, p, seen, SumOutputs(cs)) == Parsed(Ok(cs), p + |ListTokens(cs)| + 1, seen + VarsOf(cs))
    decreases cs, 0
  {
    var c := cs[0];
    var tc := Tokens(c);
    var q := p + |tc|;
    var seen2 := seen + Vars(c);
    AtConcat(t, p + 1, tc, [Close]);
    assert t[q + 1] == [Close][0];
    NodeParses(c, t, p, seen);
    TailClose(t, q, seen2);
    assert SumOutputs(cs) == NumOutputs(c) by { assert cs[1..] == []; }
    LoopChild(t, p, seen, SumOutputs(cs), c, q, seen2);
    assert [c] + [] == cs;
    assert VarsOf(cs) == Vars(c) by { assert cs[1..] == []; }
  }

  /** Where the first child, its comma and the remaining children sit. */
  lemma ConsLayout(cs: seq<Expr>, t: seq<Token>, p: int)
    requires AllWellFormed(cs) && |cs| > 1 && 0 <= p && At(t, p + 1, ListTokens(cs) + [Close])
    ensures At(t, p + 1, Tokens(cs[0]))
    ensures t[p + 1 + |Tokens(cs[0])|] == Comma
    ensures At(t, p + 2 + |Tokens(cs[0])|, ListTokens(cs[1..]) + [Close])
    ensures |ListTokens(cs)| == |Tokens(cs[0])| + 1 + |ListTokens(cs[1..])|
  {
    var tc := Tokens(cs[0]);
    var tr := ListTokens(cs[1..]);
    var q := p + |tc|;
    assert ListTokens(cs) + [Close] == tc + ([Comma] + (tr + [Close]));
    AtConcat(t, p + 1, tc, [Comma] + (tr + [Close]));
    AtConcat(t, q + 1, [Comma], tr + [Close]);
    assert t[q + 1] == [Comma][0];
  }

  lemma {:induction false} ConsParses(cs: seq<Expr>, t: seq<Token>, p: int, seen: set<string>)
    requires AllWellFormed(cs) && |cs| > 1 && 0 <= p < |t| && At(t, p + 1, ListTokens(cs) + [Close])
    ensures ArgsLoop(t, p, seen, SumOutputs(cs)) == Parsed(Ok(cs), p + |ListTokens(cs)| + 1, seen + VarsOf(cs))
    decreases cs, 0
  {
    var c := cs[0];
    var tc := Tokens(c);
    var q := p + |tc|;
    var seen2 := seen + Vars(c);
    var rest := cs[1..];
    ConsLayout(cs, t, p);
    NodeParses(c, t, p, seen);
    SumOutputsBounds(rest);
    TailComma(t, q, seen2, SumOutputs(rest));
    ListParses(rest, t, q + 1, seen2);
    LoopChild(t, p, seen, SumOutputs(cs), c, q, seen2);
    assert [c] + rest == cs;
  }

  /**
   * Every well-formed tree, written out as tokens, parses back to itself,
   * with exactly its variables.
   */
  lemma TokensParse(e: Expr)
    requires WellFormed(e)
    ensures ParseTokenList(Tokens(e)) == Ok((e, Vars(e)))
  {
    var t := Tokens(e);
    NodeParses(e, t, -1, {});
    assert {} + Vars(e) == Vars(e);
    match e
    case LiteralExpr(_) =>
    case VariableExpr(_) =>
    case NotExpr(c) =>
      assert t[0] == GateToken(TokenNot);
    case BinaryExpr(op, _) =>
      assert t[0] == GateToken(op);
    case MuxExpr(_) =>
      assert t[0] == GateToken(TokenMux);
    case DmuxExpr(_) =>
      assert t[0] == GateToken(TokenDmux);
  }

  /** A name the lexer reads back as a variable: a nonempty letter run that is no keyword. */
  predicate ValidName(n: string) {
    |n| > 0 && AllLetters(n) && n !in GateWords
  }

  predicate ValidNames(e: Expr) {
    forall v :: v in Vars(e) ==> ValidName(v)
  }

  /** A well-formed tree printed in the source's syntax, without spaces. */
  function Text(e: Expr): string
    requires WellFormed(e)
  {
    Literals(Tokens(e))
  }

  /** Tokens the lexer gives back unchanged from their literals. */
  predicate Lexable(ts: seq<Token>) {
    (forall i :: 0 <= i < |ts| ==> WellFormedToken(ts[i])) && Separated(ts)
  }

  lemma LexableConcat(a: seq<Token>, b: seq<Token>)
    requires Lexable(a) && Lexable(b)
    requires (a != [] && !IsWord(a[|a| - 1])) || (b != [] && !IsWord(b[0]))
    ensures Lexable(a + b)
  {
    var ab := a + b;
    forall i | 0 <= i < |ab|
      ensures WellFormedToken(ab[i])
    {
      if i < |a| { assert ab[i] == a[i]; } else { assert ab[i] == b[i - |a|]; }
    }
    forall i | 0 <= i < |ab| - 1
      ensures !IsWord(ab[i]) || !IsWord(ab[i + 1])
    {
      if i + 1 < |a| {
        assert ab[i] == a[i] && ab[i + 1] == a[i + 1];
      } else if i >= |a| {
        assert ab[i] == b[i - |a|] && ab[i + 1] == b[i - |a| + 1];
      } else {
        assert ab[i] == a[|a| - 1] && ab[i + 1] == b[0];
      }
    }
  }

  /** A tree's tokens are lexable when its variables have valid names. */
  lemma {:induction false} TokensLexable(e: Expr)
    requires WellFormed(e) && ValidNames(e)
    ensures Lexable(Tokens(e)) && Tokens(e) != []
    decreases e
  {
    match e
    case LiteralExpr(v) =>
    case VariableExpr(n) =>
      assert n in Vars(e);
    case NotExpr(c) =>
      TokensLexable(c);
      LexableConcat([GateToken(TokenNot), Open], Tokens(c));
      LexableConcat([GateToken(TokenNot), Open] + Tokens(c), [Close]);
    case BinaryExpr(op, cs) =>
      GateLexable(e, op, cs);
    case MuxExpr(cs) =>
      GateLexable(e, TokenMux, cs);
    case DmuxExpr(cs) =>
      GateLexable(e, TokenDmux, cs);
  }

  lemma {:induction false} GateLexable(e: Expr, g: TokenType, cs: seq<Expr>)
    requires WellFormed(e) && ValidNames(e)
    requires e.BinaryExpr? || e.MuxExpr? || e.DmuxExpr?
    requires g == (if e.BinaryExpr? then e.op else if e.MuxExpr? then TokenMux else TokenDmux)
    requires cs == e.inputs
    ensures Lexable(Tokens(e)) && Tokens(e) != []
    decreases e, 0
  {
    assert Vars(e) == VarsOf(cs);
    ListLexable(cs);
    LexableConcat([GateToken(g), Open], ListTokens(cs));
    LexableConcat([GateToken(g), Open] + ListTokens(cs), [Close]);
  }

  lemma {:induction false} ListLexable(cs: seq<Expr>)
    requires AllWellFormed(cs) && forall v :: v in VarsOf(cs) ==> ValidName(v)
    ensures Lexable(ListTokens(cs))
    decreases cs
  {
    if cs != [] {
      assert Vars(cs[0]) <= VarsOf(cs);
      TokensLexable(cs[0]);
      if |cs| > 1 {
        assert VarsOf(cs[1..]) <= VarsOf(cs);
        ListLexable(cs[1..]);
        LexableConcat(Tokens(cs[0]), [Comma]);
        LexableConcat(Tokens(cs[0]) + [Comma], ListTokens(cs[1..]));
      }
    }
  }

  /**
   * Every well-formed tree whose variables have valid names, printed without
   * spaces, parses back to itself with exactly its variables.
   */
  lemma TextParses(e: Expr)
    requires WellFormed(e) && ValidNames(e)
    ensures Parse(Text(e)) == Ok((e, Vars(e)))
  {
    TokensLexable(e);
    LexLiterals(Tokens(e));
    TokensParse(e);
  }
}
