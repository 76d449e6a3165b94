/**
 * The cases of evaluation/calculator_test.go, from the text of each
 * expression to its truth table: the text parses to the tree with exactly
 * the variables expected, and the tree's table, with the variables in the
 * order the test lists them, has the expected outputs.
 */
module CalculatorExamples {
  import opened Wrappers
  import opened Lexer
  import opened Expressions
  import opened Parser
  import opened ParserCompleteness
  import opened TruthTables

  lemma LiteralsConcat(a: seq<Token>, b: seq<Token>)
    ensures Literals(a + b) == Literals(a) + Literals(b)
  {
    if a != [] {
      assert (a + b)[1..] == a[1..] + b;
      LiteralsConcat(a[1..], b);
    } else {
      assert a + b == b;
    }
  }

  lemma NameX()
    ensures ValidName("X") && ValidName("Y")
  {
  }

  /** A text that prints a tree parses to that tree. */
  lemma ParsesAs(e: Expr, text: string)
    requires WellFormed(e) && ValidNames(e) && Text(e) == text
    ensures Parse(text) == Ok((e, Vars(e)))
  {
    TextParses(e);
  }

  /** `1` has no variables and the single output row `[true]`; `0` likewise `[false]`. */
  lemma ConstantCases()
    ensures Parse("1") == Ok((LiteralExpr(true), {})) && TruthTable(LiteralExpr(true), []) == Ok([[true]])
    ensures Parse("0") == Ok((LiteralExpr(false), {})) && TruthTable(LiteralExpr(false), []) == Ok([[false]])
  {
    assert Text(LiteralExpr(true)) == "1" + [];
    assert Text(LiteralExpr(false)) == "0" + [];
    ParsesAs(LiteralExpr(true), "1");
    ParsesAs(LiteralExpr(false), "0");
    LiteralTable(true);
    LiteralTable(false);
  }

  /** `X` has the variable `X` and the outputs false, true. */
  lemma VariableCase()
    ensures Parse("X") == Ok((VariableExpr("X"), {"X"}))
    ensures TruthTable(VariableExpr("X"), ["X"]) == Ok([[false], [true]])
  {
    NameX();
    assert Text(VariableExpr("X")) == "X" + [];
    ParsesAs(VariableExpr("X"), "X");
    VariableTable();
  }

  /** `not(X)` has the variable `X` and the outputs true, false. */
  lemma NotCase()
    ensures Parse("not(X)") == Ok((NotExpr(VariableExpr("X")), {"X"}))
    ensures TruthTable(NotExpr(VariableExpr("X")), ["X"]) == Ok([[true], [false]])
  {
    NameX();
    NotText();
    ParsesAs(NotExpr(VariableExpr("X")), "not(X)");
    NotTable();
  }

  lemma NotText()
    ensures Text(NotExpr(VariableExpr("X"))) == "not(X)"
  {
    var head := [GateToken(TokenNot), Token(TokenLparen, "(")];
    var tail := [Token(TokenVariable, "X"), Token(TokenRparen, ")")];
    assert Tokens(NotExpr(VariableExpr("X"))) == head + tail;
    LiteralsConcat(head, tail);
    assert Literals(head) == "not(";
    assert Literals(tail) == "X)";
  }

  /** The text of `g(X,Y)`, for a binary gate `g`. */
  lemma BinaryText(op: TokenType)
    requires IsBinaryOp(op)
    ensures Text(BinaryExpr(op, [VariableExpr("X"), VariableExpr("Y")])) == GateWord(op) + "(X,Y)"
  {
    var cs := [VariableExpr("X"), VariableExpr("Y")];
    assert cs[1..] == [VariableExpr("Y")];
    var head := [GateToken(op)];
    var tail := [Token(TokenLparen, "("), Token(TokenVariable, "X"), Token(TokenComma, ","),
                 Token(TokenVariable, "Y"), Token(TokenRparen, ")")];
    assert ListTokens(cs) == [Token(TokenVariable, "X"), Token(TokenComma, ","), Token(TokenVariable, "Y")];
    assert Tokens(BinaryExpr(op, cs)) == head + tail;
    LiteralsConcat(head, tail);
    assert Literals(head) == GateWord(op);
    assert Literals(tail) == "(X,Y)";
  }

  /** `and(X,Y)` has the variables `X`, `Y` and the outputs false, false, false, true. */
  lemma AndCase()
    ensures Parse("and(X,Y)") == Ok((BinaryExpr(TokenAnd, [VariableExpr("X"), VariableExpr("Y")]), {"X", "Y"}))
    ensures TruthTable(BinaryExpr(TokenAnd, [VariableExpr("X"), VariableExpr("Y")]), ["X", "Y"]) ==
      Ok([[false], [false], [false], [true]])
  {
    BinaryCase(TokenAnd, "and(X,Y)");
    AndTable();
  }

  /** `or(X,Y)` has the variables `X`, `Y` and the outputs false, true, true, true. */
  lemma OrCase()
    ensures Parse("or(X,Y)") == Ok((BinaryExpr(TokenOr, [VariableExpr("X"), VariableExpr("Y")]), {"X", "Y"}))
    ensures TruthTable(BinaryExpr(TokenOr, [VariableExpr("X"), VariableExpr("Y")]), ["X", "Y"]) ==
      Ok([[false], [true], [true], [true]])
  {
    BinaryCase(TokenOr, "or(X,Y)");
    OrTable();
  }

  lemma BinaryCase(op: TokenType, text: string)
    requires IsBinaryOp(op) && text == GateWord(op) + "(X,Y)"
    ensures Parse(text) == Ok((BinaryExpr(op, [VariableExpr("X"), VariableExpr("Y")]), {"X", "Y"}))
  {
    var e := BinaryExpr(op, [VariableExpr("X"), VariableExpr("Y")]);
    NameX();
    BinaryText(op);
    assert [VariableExpr("X"), VariableExpr("Y")][1..] == [VariableExpr("Y")];
    assert Vars(e) == {"X", "Y"};
    ParsesAs(e, text);
  }
}
