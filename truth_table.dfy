/**
 * A truth table of a parsed expression: one output row per assignment of
 * `GenerateCombinations`, the variables bound in a given order. The function
 * that builds the table in the repository, `Compute`, is not part of this
 * model, so the order is a parameter; the tests of evaluation/calculator_test.go
 * list `X` before `Y`.
 */
module TruthTables {
  import opened Wrappers
  import opened Lexer
  import opened Expressions
  import opened Calculator

  /** Binds `vars[k]` to `values[k]`; an earlier occurrence of a repeated name wins. */
  function Bind(vars: seq<string>, values: seq<bool>): (env: Env)
    requires |vars| == |values|
    ensures env.Keys == set k | 0 <= k < |vars| :: vars[k]
  {
    if vars == [] then map[] else Bind(vars[1..], values[1..])[vars[0] := values[0]]
  }

  /** The outputs of `e` under the assignment of row `i`. */
  function RowOutputs(e: Expr, vars: seq<string>, i: nat): Result<seq<bool>, EvalError> {
    Evaluate(e, Bind(vars, Row(|vars|, i)))
  }

  /** The outputs of `e` for rows `i` onward, or the first failure. */
  function TableFrom(e: Expr, vars: seq<string>, i: nat): Result<seq<seq<bool>>, EvalError>
    decreases Pow2(|vars|) - i
  {
    if i >= Pow2(|vars|) then Ok([])
    else
      var out := RowOutputs(e, vars, i);
      if out.Err? then Err(out.error)
      else
        var rest := TableFrom(e, vars, i + 1);
        if rest.Err? then rest else Ok([out.value] + rest.value)
  }

  /** The outputs of `e`, one row per assignment of `vars`. */
  function TruthTable(e: Expr, vars: seq<string>): Result<seq<seq<bool>>, EvalError> {
    TableFrom(e, vars, 0)
  }

  /** With distinct names, each is bound to its own value. */
  lemma {:induction false} BindLookup(vars: seq<string>, values: seq<bool>, k: nat)
    requires |vars| == |values| && k < |vars|
    requires forall a, b :: 0 <= a < b < |vars| ==> vars[a] != vars[b]
    ensures Bind(vars, values)[vars[k]] == values[k]
  {
    if k > 0 {
      BindLookup(vars[1..], values[1..], k - 1);
    }
  }

  /** A table from row `i` that exists holds, for each later row `r`, that row's outputs at `r - i`. */
  lemma {:induction false} TableFromRowsOk(e: Expr, vars: seq<string>, i: nat)
    requires TableFrom(e, vars, i).Ok?
    ensures var t := TableFrom(e, vars, i).value;
      |t| == (if i < Pow2(|vars|) then Pow2(|vars|) - i else 0) &&
      forall r :: i <= r < Pow2(|vars|) ==> RowOutputs(e, vars, r) == Ok(t[r - i])
    decreases Pow2(|vars|) - i
  {
    if i < Pow2(|vars|) {
      TableFromRowsOk(e, vars, i + 1);
      var t := TableFrom(e, vars, i).value;
      var rest := TableFrom(e, vars, i + 1).value;
      assert t == [RowOutputs(e, vars, i).value] + rest;
      forall r | i < r < Pow2(|vars|)
        ensures RowOutputs(e, vars, r) == Ok(t[r - i])
      {
        assert t[r - i] == rest[r - (i + 1)];
      }
    }
  }

  /** A well-formed expression whose variables are all bound has a table from every row. */
  lemma {:induction false} TableFromSucceeds(e: Expr, vars: seq<string>, i: nat)
    requires WellFormed(e)
    requires forall v :: v in Vars(e) ==> v in vars
    ensures TableFrom(e, vars, i).Ok?
    decreases Pow2(|vars|) - i
  {
    if i < Pow2(|vars|) {
      var env := Bind(vars, Row(|vars|, i));
      forall v | v in Vars(e)
        ensures v in env.Keys
      {
        var k :| 0 <= k < |vars| && vars[k] == v;
      }
      EvaluateWellFormed(e, env);
      TableFromSucceeds(e, vars, i + 1);
    }
  }

  /**
   * A well-formed expression has a table exactly when every one of its
   * variables is listed; then the table has a row for each assignment, row
   * `i` being the outputs under the assignment `Row(|vars|, i)`, and each row
   * has `NumOutputs(e)` bits.
   */
  lemma TruthTableWellFormed(e: Expr, vars: seq<string>)
    requires WellFormed(e)
    ensures TruthTable(e, vars).Ok? <==> forall v :: v in Vars(e) ==> v in vars
    ensures var t := TruthTable(e, vars);
      t.Ok? ==>
        |t.value| == Pow2(|vars|) &&
        forall i :: 0 <= i < Pow2(|vars|) ==>
          Evaluate(e, Bind(vars, Row(|vars|, i))) == Ok(t.value[i]) && |t.value[i]| == NumOutputs(e)
  {
    if forall v :: v in Vars(e) ==> v in vars {
      TableFromSucceeds(e, vars, 0);
    } else {
      TruthTableFails(e, vars);
    }
    var t := TruthTable(e, vars);
    if t.Ok? {
      TableFromRowsOk(e, vars, 0);
      forall i | 0 <= i < Pow2(|vars|)
        ensures Evaluate(e, Bind(vars, Row(|vars|, i))) == Ok(t.value[i]) && |t.value[i]| == NumOutputs(e)
      {
        assert RowOutputs(e, vars, i) == Ok(t.value[i - 0]);
        EvaluateWellFormed(e, Bind(vars, Row(|vars|, i)));
      }
    }
  }

  /** A variable missing from the list makes the very first row fail. */
  lemma TruthTableFails(e: Expr, vars: seq<string>)
    requires WellFormed(e)
    requires exists v :: v in Vars(e) && v !in vars
    ensures TruthTable(e, vars).Err?
  {
    var v :| v in Vars(e) && v !in vars;
    var env := Bind(vars, Row(|vars|, 0));
    assert v !in env.Keys;
    EvaluateWellFormed(e, env);
  }

  /** When every row from `i` on evaluates to the matching entry of `rows`, the table from `i` is the rest of `rows`. */
  lemma {:induction false} TableFromRows(e: Expr, vars: seq<string>, i: nat, rows: seq<seq<bool>>)
    requires i <= |rows| == Pow2(|vars|)
    requires forall r :: i <= r < |rows| ==> Evaluate(e, Bind(vars, Row(|vars|, r))) == Ok(rows[r])
    ensures TableFrom(e, vars, i) == Ok(rows[i..])
    decreases |rows| - i
  {
    if i < |rows| {
      TableFromRows(e, vars, i + 1, rows);
      assert rows[i..] == [rows[i]] + rows[i + 1..];
    } else {
      assert rows[i..] == [];
    }
  }

  /** The table of `and(X,Y)` over the variables `X`, `Y`. */
  lemma AndTable()
    ensures TruthTable(BinaryExpr(TokenAnd, [VariableExpr("X"), VariableExpr("Y")]), ["X", "Y"]) ==
      Ok([[false], [false], [false], [true]])
  {
    var rows := [[false], [false], [false], [true]];
    assert Pow2(2) == 4 by { assert Pow2(1) == 2 && Pow2(0) == 1; }
    forall i | 0 <= i < 4
      ensures Evaluate(BinaryExpr(TokenAnd, [VariableExpr("X"), VariableExpr("Y")]), Bind(["X", "Y"], Row(2, i))) ==
        Ok(rows[i])
    {
      AndRow(i);
    }
    TableFromRows(BinaryExpr(TokenAnd, [VariableExpr("X"), VariableExpr("Y")]), ["X", "Y"], 0, rows);
    assert rows[0..] == rows;
  }

  lemma TableStep(e: Expr, vars: seq<string>, i: nat, out: seq<bool>, rest: seq<seq<bool>>)
    requires i < Pow2(|vars|)
    requires Evaluate(e, Bind(vars, Row(|vars|, i))) == Ok(out)
    requires TableFrom(e, vars, i + 1) == Ok(rest)
    ensures TableFrom(e, vars, i) == Ok([out] + rest)
  {
  }

  /** Row `i` of the table of `and(X,Y)`: true only on the last row. */
  lemma AndRow(i: nat)
    requires i < 4
    ensures Evaluate(BinaryExpr(TokenAnd, [VariableExpr("X"), VariableExpr("Y")]), Bind(["X", "Y"], Row(2, i))) ==
      Ok([i == 3])
  {
    assert Pow2(1) == 2 && Pow2(0) == 1;
    var x, y := (i / 2) % 2 == 1, i % 2 == 1;
    assert Row(2, i) == [x, y];
    var env := Bind(["X", "Y"], [x, y]);
    assert ["X", "Y"][1..] == ["Y"] && [x, y][1..] == [y];
    assert ["Y"][1..] == [] && [y][1..] == [];
    assert Bind(["Y"], [y]) == map["Y" := y];
    assert env == map["Y" := y]["X" := x];
    assert [VariableExpr("Y")][1..] == [] && [y] + [] == [y];
    assert CollectedInputs([VariableExpr("Y")], env) == Ok([y]);
    assert [VariableExpr("X"), VariableExpr("Y")][1..] == [VariableExpr("Y")];
    assert Evaluate(VariableExpr("X"), env) == Ok([x]) && [x] + [y] == [x, y];
    assert CollectedInputs([VariableExpr("X"), VariableExpr("Y")], env) == Ok([x, y]);
  }

  /** Without variables there is one row: `dmux(1,0)` routes its 1 to the first output. */
  lemma DmuxTable()
    ensures TruthTable(DmuxExpr([LiteralExpr(true), LiteralExpr(false)]), []) == Ok([[true, false]])
  {
    var e := DmuxExpr([LiteralExpr(true), LiteralExpr(false)]);
    assert Pow2(0) == 1 && Row(0, 0) == [] && Bind([], []) == map[];
    assert [LiteralExpr(true), LiteralExpr(false)][1..] == [LiteralExpr(false)];
    assert [LiteralExpr(false)][1..] == [] && [false] + [] == [false] && [true] + [false] == [true, false];
    assert Evaluate(e, map[]) == Ok([true, false]);
    assert TableFrom(e, [], 1) == Ok([]);
    TableStep(e, [], 0, [true, false], []);
    assert [[true, false]] + [] == [[true, false]];
  }

  /** The table of `not(X)` over `X`. */
  lemma NotTable()
    ensures TruthTable(NotExpr(VariableExpr("X")), ["X"]) == Ok([[true], [false]])
  {
    var e := NotExpr(VariableExpr("X"));
    assert Pow2(1) == 2 && Pow2(0) == 1;
    assert TableFrom(e, ["X"], 2) == Ok([]);
    NotRow(1);
    TableStep(e, ["X"], 1, [false], []);
    assert [[false]] + [] == [[false]];
    NotRow(0);
    TableStep(e, ["X"], 0, [true], [[false]]);
    assert [[true]] + [[false]] == [[true], [false]];
  }

  lemma NotRow(i: nat)
    requires i < 2
    ensures Evaluate(NotExpr(VariableExpr("X")), Bind(["X"], Row(1, i))) == Ok([i == 0])
  {
    assert Pow2(0) == 1;
    var x := i % 2 == 1;
    assert Row(1, i) == [x];
    assert ["X"][1..] == [] && [x][1..] == [];
    assert Bind(["X"], [x]) == map["X" := x];
  }

  /** Without variables a literal has one row, holding its value. */
  lemma LiteralTable(v: bool)
    ensures TruthTable(LiteralExpr(v), []) == Ok([[v]])
  {
    var e := LiteralExpr(v);
    assert Pow2(0) == 1 && Row(0, 0) == [] && Bind([], []) == map[];
    assert TableFrom(e, [], 1) == Ok([]);
    TableStep(e, [], 0, [v], []);
    assert [[v]] + [] == [[v]];
  }

  /** The table of `X` over `X`: the variable's own value on each row. */
  lemma VariableTable()
    ensures TruthTable(VariableExpr("X"), ["X"]) == Ok([[false], [true]])
  {
    var e := VariableExpr("X");
    assert Pow2(1) == 2 && Pow2(0) == 1;
    assert TableFrom(e, ["X"], 2) == Ok([]);
    assert ["X"][1..] == [];
    assert Row(1, 1) == [true] && [true][1..] == [];
    assert Bind(["X"], [true]) == map["X" := true];
    TableStep(e, ["X"], 1, [true], []);
    assert [[true]] + [] == [[true]];
    assert Row(1, 0) == [false] && [false][1..] == [];
    assert Bind(["X"], [false]) == map["X" := false];
    TableStep(e, ["X"], 0, [false], [[true]]);
    assert [[false]] + [[true]] == [[false], [true]];
  }

  /** The table of `or(X,Y)` over the variables `X`, `Y`. */
  lemma OrTable()
    ensures TruthTable(BinaryExpr(TokenOr, [VariableExpr("X"), VariableExpr("Y")]), ["X", "Y"]) ==
      Ok([[false], [true], [true], [true]])
  {
    var rows := [[false], [true], [true], [true]];
    assert Pow2(2) == 4 by { assert Pow2(1) == 2 && Pow2(0) == 1; }
    forall i | 0 <= i < 4
      ensures Evaluate(BinaryExpr(TokenOr, [VariableExpr("X"), VariableExpr("Y")]), Bind(["X", "Y"], Row(2, i))) ==
        Ok(rows[i])
    {
      OrRow(i);
    }
    TableFromRows(BinaryExpr(TokenOr, [VariableExpr("X"), VariableExpr("Y")]), ["X", "Y"], 0, rows);
    assert rows[0..] == rows;
  }

  /** Row `i` of the table of `or(X,Y)`: false only on the first row. */
  lemma OrRow(i: nat)
    requires i < 4
    ensures Evaluate(BinaryExpr(TokenOr, [VariableExpr("X"), VariableExpr("Y")]), Bind(["X", "Y"], Row(2, i))) ==
      Ok([i != 0])
  {
    assert Pow2(1) == 2 && Pow2(0) == 1;
    var x, y := (i / 2) % 2 == 1, i % 2 == 1;
    assert Row(2, i) == [x, y];
    var env := Bind(["X", "Y"], [x, y]);
    assert ["X", "Y"][1..] == ["Y"] && [x, y][1..] == [y];
    assert ["Y"][1..] == [] && [y][1..] == [];
    assert Bind(["Y"], [y]) == map["Y" := y];
    assert env == map["Y" := y]["X" := x];
    assert [VariableExpr("Y")][1..] == [] && [y] + [] == [y];
    assert CollectedInputs([VariableExpr("Y")], env) == Ok([y]);
    assert [VariableExpr("X"), VariableExpr("Y")][1..] == [VariableExpr("Y")];
    assert Evaluate(VariableExpr("X"), env) == Ok([x]) && [x] + [y] == [x, y];
    assert CollectedInputs([VariableExpr("X"), VariableExpr("Y")], env) == Ok([x, y]);
  }
}
