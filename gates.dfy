/** The seven boolean gate primitives of evaluation/gates.go. */
module Gates {

  function Nand(a: bool, b: bool): (r: bool)
    ensures r == Not(And(a, b))
  {
    !(a && b)
  }

  function Not(a: bool): (r: bool)
    ensures r != a
  {
    !a
  }

  function And(a: bool, b: bool): (r: bool)
    ensures r == Mux(b, false, a)
  {
    a && b
  }

  function Or(a: bool, b: bool): (r: bool)
    ensures r == Not(And(Not(a), Not(b)))
  {
    a || b
  }

  function Xor(a: bool, b: bool): (r: bool)
    ensures r == And(Or(a, b), Nand(a, b))
  {
    a != b
  }

  /** Selects `a` when `sel` holds and `b` otherwise. */
  function Mux(a: bool, b: bool, sel: bool): (r: bool)
    ensures sel ==> r == a
    ensures !sel ==> r == b
  {
    if sel then a else b
  }

  /** Routes `a` to the output chosen by `sel`; the other output is false. */
  function Dmux(a: bool, sel: bool): (r: (bool, bool))
    ensures sel ==> r == (false, a)
    ensures !sel ==> r == (a, false)
  {
    if sel then (false, a) else (a, false)
  }

  lemma NotInvolution(a: bool)
    ensures Not(Not(a)) == a
  {
  }

  /** The rows of each gate's truth table, inputs taken in the order FF, FT, TF, TT. */
  lemma BinaryTruthTables()
    ensures [Nand(false, false), Nand(false, true), Nand(true, false), Nand(true, true)] == [true, true, true, false]
    ensures [And(false, false), And(false, true), And(true, false), And(true, true)] == [false, false, false, true]
    ensures [Or(false, false), Or(false, true), Or(true, false), Or(true, true)] == [false, true, true, true]
    ensures [Xor(false, false), Xor(false, true), Xor(true, false), Xor(true, true)] == [false, true, true, false]
    ensures [Not(false), Not(true)] == [true, false]
  {
  }

  lemma XorIsInequality(a: bool, b: bool)
    ensures Xor(a, b) == (a != b)
  {
  }

  /** Inputs (a, b, sel) in counting order FFF, FFT, ..., TTT. */
  lemma MuxTruthTable()
    ensures [Mux(false, false, false), Mux(false, false, true), Mux(false, true, false), Mux(false, true, true),
             Mux(true, false, false), Mux(true, false, true), Mux(true, true, false), Mux(true, true, true)]
         == [false, false, true, false, false, true, true, true]
  {
  }

  /** At most one Dmux output is set, and together they carry the data input. */
  lemma DmuxRoutes(a: bool, sel: bool)
    ensures !(Dmux(a, sel).0 && Dmux(a, sel).1)
    ensures Or(Dmux(a, sel).0, Dmux(a, sel).1) == a
    ensures Mux(Dmux(a, sel).1, Dmux(a, sel).0, sel) == a
  {
  }
}
