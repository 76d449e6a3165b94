/**
 * The expression tree of evaluation/parser.go and its evaluation.
 *
 * Each Go expression type becomes one constructor of `Expr`. `Evaluate` is
 * post-order: children are evaluated left to right, their output bits are
 * concatenated, and the node's gate is applied. The source's `panic` branches,
 * reached when a node receives the wrong number of input bits, are kept as the
 * error `InternalPanic`; `EvaluateWellFormed` proves they are unreachable on
 * well-formed trees, which is every tree the parser builds.
 */
module Expressions {
  import opened Wrappers
  import Gates
  import Lexer

  datatype Expr =
    | LiteralExpr(value: bool)
    | VariableExpr(name: string)
    | NotExpr(input: Expr)
    | BinaryExpr(op: Lexer.TokenType, inputs: seq<Expr>)
    | MuxExpr(inputs: seq<Expr>)
    | DmuxExpr(inputs: seq<Expr>)

  /** Variable bindings supplied to one evaluation. */
  type Env = map<string, bool>

  datatype EvalError =
    | MissingVariable(name: string)
    /** The source panics instead of returning an error. */
    | InternalPanic

  /** Number of bits the node outputs. */
  function NumOutputs(e: Expr): nat {
    if e.DmuxExpr? then 2 else 1
  }

  /** Total number of output bits of a list of nodes. */
  function SumOutputs(es: seq<Expr>): nat {
    if es == [] then 0 else NumOutputs(es[0]) + SumOutputs(es[1..])
  }

  predicate IsBinaryOp(op: Lexer.TokenType) {
    op in {Lexer.TokenNand, Lexer.TokenAnd, Lexer.TokenOr, Lexer.TokenXor}
  }

  /** The variable names that occur in the tree. */
  function Vars(e: Expr): set<string> {
    match e
    case LiteralExpr(_) => {}
    case VariableExpr(n) => {n}
    case NotExpr(c) => Vars(c)
    case BinaryExpr(_, cs) => VarsOf(cs)
    case MuxExpr(cs) => VarsOf(cs)
    case DmuxExpr(cs) => VarsOf(cs)
  }

  function VarsOf(es: seq<Expr>): set<string> {
    if es == [] then {} else Vars(es[0]) + VarsOf(es[1..])
  }

  /**
   * Every gate node's children supply exactly as many bits as the gate needs,
   * and a binary node carries one of the four binary operators.
   */
  predicate WellFormed(e: Expr) {
    match e
    case LiteralExpr(_) => true
    case VariableExpr(_) => true
    case NotExpr(c) => NumOutputs(c) == 1 && WellFormed(c)
    case BinaryExpr(op, cs) => IsBinaryOp(op) && SumOutputs(cs) == 2 && AllWellFormed(cs)
    case MuxExpr(cs) => SumOutputs(cs) == 3 && AllWellFormed(cs)
    case DmuxExpr(cs) => SumOutputs(cs) == 2 && AllWellFormed(cs)
  }

  predicate AllWellFormed(es: seq<Expr>) {
    if es == [] then true else WellFormed(es[0]) && AllWellFormed(es[1..])
  }

  /** Evaluates a node against the bindings, children first. */
  function Evaluate(e: Expr, env: Env): (r: Result<seq<bool>, EvalError>)
    ensures r.Ok? ==> |r.value| == NumOutputs(e)
    decreases e
  {
    match e
    case LiteralExpr(v) => Ok([v])
    case VariableExpr(n) => if n in env then Ok([env[n]]) else Err(MissingVariable(n))
    case NotExpr(c) =>
      var r := Evaluate(c, env);
      if r.Err? then r
      else if |r.value| != 1 then Err(InternalPanic)
      else Ok([Gates.Not(r.value[0])])
    case BinaryExpr(op, cs) =>
      var r := CollectedInputs(cs, env);
      if r.Err? then r
      else if |r.value| != 2 then Err(InternalPanic)
      else
        var a, b := r.value[0], r.value[1];
        (match op
         case TokenNand => Ok([Gates.Nand(a, b)])
         case TokenAnd => Ok([Gates.And(a, b)])
         case TokenOr => Ok([Gates.Or(a, b)])
         case TokenXor => Ok([Gates.Xor(a, b)])
         case _ => Err(InternalPanic))
    case MuxExpr(cs) =>
      var r := CollectedInputs(cs, env);
      if r.Err? then r
      else if |r.value| != 3 then Err(InternalPanic)
      else Ok([Gates.Mux(r.value[0], r.value[1], r.value[2])])
    case DmuxExpr(cs) =>
      var r := CollectedInputs(cs, env);
      if r.Err? then r
      else if |r.value| != 2 then Err(InternalPanic)
      else
        var (out1, out2) := Gates.Dmux(r.value[0], r.value[1]);
        Ok([out1, out2])
  }

  /** The children's output bits concatenated left to right; the first failure aborts. */
  function CollectedInputs(es: seq<Expr>, env: Env): (r: Result<seq<bool>, EvalError>)
    ensures r.Ok? ==> |r.value| == SumOutputs(es)
    decreases es
  {
    if es == [] then Ok([])
    else
      var first := Evaluate(es[0], env);
      if first.Err? then first
      else
        var rest := CollectedInputs(es[1..], env);
        if rest.Err? then rest else Ok(first.value + rest.value)
  }

  /** The loop of the source's `collectInputs`. */
  method CollectInputs(es: seq<Expr>, env: Env) returns (r: Result<seq<bool>, EvalError>)
    ensures r == CollectedInputs(es, env)
  {
    var result: seq<bool> := [];
    var i := 0;
    assert es[0..] == es;
    ConcatAssociates([], [], CollectedInputs(es, env));
    while i < |es|
      invariant 0 <= i <= |es|
      invariant CollectedInputs(es, env) == Concat(result, CollectedInputs(es[i..], env))
    {
      var outs := Evaluate(es[i], env);
      assert es[i..][1..] == es[i + 1..];
      if outs.Err? {
        return outs;
      }
      ConcatAssociates(result, outs.value, CollectedInputs(es[i + 1..], env));
      result := result + outs.value;
      i := i + 1;
    }
    assert es[i..] == [];
    assert result + [] == result;
    return Ok(result);
  }

  /** Puts bits in front of a successful result; a failure passes through. */
  function Concat(prefix: seq<bool>, r: Result<seq<bool>, EvalError>): Result<seq<bool>, EvalError> {
    if r.Err? then r else Ok(prefix + r.value)
  }

  lemma ConcatAssociates(a: seq<bool>, b: seq<bool>, r: Result<seq<bool>, EvalError>)
    ensures Concat(a, Concat(b, r)) == Concat(a + b, r)
    ensures Concat([], r) == r
  {
    if r.Ok? {
      assert a + (b + r.value) == (a + b) + r.value;
      assert [] + r.value == r.value;
    }
  }

  // ---------------------------------------------------------------------
  // Properties of evaluation

  /**
   * On a well-formed tree evaluation never panics: it succeeds exactly when
   * every variable of the tree is bound, and then returns `NumOutputs(e)` bits;
   * otherwise it reports a variable of the tree that is not bound.
   */
  lemma {:induction false} EvaluateWellFormed(e: Expr, env: Env)
    requires WellFormed(e)
    ensures Evaluate(e, env).Ok? <==> Vars(e) <= env.Keys
    ensures Evaluate(e, env).Ok? ==> |Evaluate(e, env).value| == NumOutputs(e)
    ensures Evaluate(e, env).Err? ==>
      Evaluate(e, env).error.MissingVariable? &&
      Evaluate(e, env).error.name in Vars(e) && Evaluate(e, env).error.name !in env
    decreases e
  {
    match e
    case LiteralExpr(_) =>
    case VariableExpr(_) =>
    case NotExpr(c) =>
      EvaluateWellFormed(c, env);
    case BinaryExpr(_, cs) =>
      CollectedInputsWellFormed(cs, env);
    case MuxExpr(cs) =>
      CollectedInputsWellFormed(cs, env);
    case DmuxExpr(cs) =>
      CollectedInputsWellFormed(cs, env);
  }

  lemma {:induction false} CollectedInputsWellFormed(es: seq<Expr>, env: Env)
    requires AllWellFormed(es)
    ensures CollectedInputs(es, env).Ok? <==> VarsOf(es) <= env.Keys
    ensures CollectedInputs(es, env).Ok? ==> |CollectedInputs(es, env).value| == SumOutputs(es)
    ensures CollectedInputs(es, env).Err? ==>
      CollectedInputs(es, env).error.MissingVariable? &&
      CollectedInputs(es, env).error.name in VarsOf(es) && CollectedInputs(es, env).error.name !in env
    decreases es
  {
    if es != [] {
      EvaluateWellFormed(es[0], env);
      CollectedInputsWellFormed(es[1..], env);
    }
  }

  /**
   * Children are evaluated left to right: inputs to a node fail with the
   * failure of the first child that fails, and otherwise are the children's
   * outputs, first child's bits first.
   */
  lemma {:induction false} CollectedInputsOrder(es: seq<Expr>, env: Env)
    ensures CollectedInputs(es, env).Err? ==>
      exists i :: 0 <= i < |es| && CollectedInputs(es, env) == Evaluate(es[i], env) &&
                  forall j :: 0 <= j < i ==> Evaluate(es[j], env).Ok?
    ensures CollectedInputs(es, env).Ok? && es != [] ==>
      Evaluate(es[0], env).Ok? &&
      CollectedInputs(es, env).value == Evaluate(es[0], env).value + CollectedInputs(es[1..], env).value
    decreases es
  {
    if es != [] && Evaluate(es[0], env).Ok? {
      CollectedInputsOrder(es[1..], env);
      if CollectedInputs(es, env).Err? {
        var i :| 0 <= i < |es[1..]| && CollectedInputs(es[1..], env) == Evaluate(es[1..][i], env) &&
                 forall j :: 0 <= j < i ==> Evaluate(es[1..][j], env).Ok?;
        assert es[i + 1] == es[1..][i];
        assert forall j :: 1 <= j < i + 1 ==> es[j] == es[1..][j - 1];
      }
    }
  }

  /** Bindings of names outside the tree do not change its value. */
  lemma {:induction false} EvaluateDependsOnVars(e: Expr, env1: Env, env2: Env)
    requires forall n :: n in Vars(e) ==> (n in env1 <==> n in env2)
    requires forall n :: n in Vars(e) && n in env1 && n in env2 ==> env1[n] == env2[n]
    ensures Evaluate(e, env1) == Evaluate(e, env2)
    decreases e
  {
    match e
    case LiteralExpr(_) =>
    case VariableExpr(_) =>
    case NotExpr(c) =>
      EvaluateDependsOnVars(c, env1, env2);
    case BinaryExpr(_, cs) =>
      CollectedInputsDependOnVars(cs, env1, env2);
    case MuxExpr(cs) =>
      CollectedInputsDependOnVars(cs, env1, env2);
    case DmuxExpr(cs) =>
      CollectedInputsDependOnVars(cs, env1, env2);
  }

  lemma {:induction false} CollectedInputsDependOnVars(es: seq<Expr>, env1: Env, env2: Env)
    requires forall n :: n in VarsOf(es) ==> (n in env1 <==> n in env2)
    requires forall n :: n in VarsOf(es) && n in env1 && n in env2 ==> env1[n] == env2[n]
    ensures CollectedInputs(es, env1) == CollectedInputs(es, env2)
    decreases es
  {
    if es != [] {
      EvaluateDependsOnVars(es[0], env1, env2);
      CollectedInputsDependOnVars(es[1..], env1, env2);
    }
  }
}
