/**
 * The assignment generator of evaluation/calculator.go.
 *
 * `GenerateCombinations(n)` lists all 2^n assignments of `n` inputs: row `i`
 * holds the binary digits of `i`, most significant first, so the rows run
 * from all-false to all-true in ascending binary order. `Row` is the
 * reference definition of one row, and the lemmas below show that the rows
 * are exactly the boolean sequences of length `n`, each once, in ascending
 * lexicographic order.
 */
module Calculator {

  /** 2^n, the value of the source's `1 << n`. */
  function Pow2(n: nat): (r: nat)
    ensures r >= 1
  {
    if n == 0 then 1 else 2 * Pow2(n - 1)
  }

  /** Bit `j` of `i`: the source's `(i & (1 << j)) != 0`. */
  function Bit(i: nat, j: nat): bool {
    (i / Pow2(j)) % 2 == 1
  }

  /** Row `i` of the table: the `n` low bits of `i`, most significant first. */
  function Row(n: nat, i: nat): (r: seq<bool>)
    ensures |r| == n
  {
    seq(n, k requires 0 <= k < n => Bit(i, n - 1 - k))
  }

  /** The number an assignment spells in binary, most significant digit first. */
  function FromBits(s: seq<bool>): (v: nat)
    decreases |s|
  {
    if s == [] then 0 else 2 * FromBits(s[..|s| - 1]) + (if s[|s| - 1] then 1 else 0)
  }

  /** Every assignment of `n` inputs, row `i` spelling `i` in binary. */
  method GenerateCombinations(n: nat) returns (result: seq<seq<bool>>)
    ensures |result| == Pow2(n)
    ensures forall i :: 0 <= i < |result| ==> result[i] == Row(n, i)
  {
    var total := Pow2(n);
    var rows := new seq<bool>[total];
    for i := 0 to total
      invariant forall k :: 0 <= k < i ==> rows[k] == Row(n, k)
    {
      var combination := new bool[n];
      for j := 0 to n
        invariant forall k :: n - j <= k < n ==> combination[k] == Bit(i, n - 1 - k)
        modifies combination
      {
        combination[n - j - 1] := Bit(i, j);
      }
      rows[i] := combination[..];
    }
    return rows[..];
  }

  // ---------------------------------------------------------------------
  // Arithmetic of bits

  /** Euclidean division by a positive divisor has one quotient. */
  lemma DivisionUnique(a: nat, d: nat, q: nat, r: nat)
    requires 0 <= r < d && a == q * d + r
    ensures a / d == q && a % d == r
  {
    var q' := a / d;
    assert (q + 1) * d == q * d + d && (q' + 1) * d == q' * d + d;
    MulMonotone(q + 1, q', d);
    MulMonotone(q' + 1, q, d);
  }

  lemma MulMonotone(x: int, y: int, d: nat)
    ensures x <= y ==> x * d <= y * d
  {
    assert y * d - x * d == (y - x) * d;
  }

  /** Bit `j + 1` of `i` is bit `j` of `i / 2`. */
  lemma BitShift(i: nat, j: nat)
    ensures Bit(i, j + 1) == Bit(i / 2, j)
  {
    var p := Pow2(j);
    var q, r := (i / 2) / p, (i / 2) % p;
    assert i / 2 == q * p + r;
    assert i == q * (2 * p) + (2 * r + i % 2);
    DivisionUnique(i, 2 * p, q, 2 * r + i % 2);
  }

  /** A row is the row of `i / 2` for one input fewer, followed by the lowest bit of `i`. */
  lemma RowSplit(n: nat, i: nat)
    requires n > 0
    ensures Row(n, i) == Row(n - 1, i / 2) + [i % 2 == 1]
  {
    var r := Row(n - 1, i / 2) + [i % 2 == 1];
    forall k | 0 <= k < n
      ensures Row(n, i)[k] == r[k]
    {
      if k < n - 1 {
        BitShift(i, n - 2 - k);
        assert Row(n, i)[k] == Bit(i, n - 2 - k + 1);
        assert r[k] == Row(n - 1, i / 2)[k] == Bit(i / 2, n - 2 - k);
      } else {
        assert Pow2(0) == 1;
        assert Row(n, i)[k] == Bit(i, 0);
      }
    }
  }

  // ---------------------------------------------------------------------
  // The rows are every assignment, each once, in order

  /** Row `i` spells `i`. */
  lemma {:induction false} RowSpellsIndex(n: nat, i: nat)
    requires i < Pow2(n)
    ensures FromBits(Row(n, i)) == i
  {
    if n > 0 {
      RowSplit(n, i);
      var r := Row(n, i);
      assert r[..|r| - 1] == Row(n - 1, i / 2);
      RowSpellsIndex(n - 1, i / 2);
    }
  }

  /** Every assignment of `|s|` inputs is the row of the number it spells. */
  lemma {:induction false} AssignmentIsRow(s: seq<bool>)
    ensures FromBits(s) < Pow2(|s|)
    ensures Row(|s|, FromBits(s)) == s
    decreases |s|
  {
    if s != [] {
      var p := s[..|s| - 1];
      AssignmentIsRow(p);
      var v := FromBits(s);
      assert v / 2 == FromBits(p) && v % 2 == (if s[|s| - 1] then 1 else 0);
      RowSplit(|s|, v);
      assert s == p + [s[|s| - 1]];
    }
  }

  /** The table holds every assignment of `n` inputs exactly once. */
  lemma RowsAreAllAssignments(n: nat, table: seq<seq<bool>>)
    requires |table| == Pow2(n) && forall i :: 0 <= i < |table| ==> table[i] == Row(n, i)
    ensures forall s :: |s| == n ==> s in table
    ensures forall i, j :: 0 <= i < j < |table| ==> table[i] != table[j]
  {
    forall s: seq<bool> | |s| == n
      ensures s in table
    {
      AssignmentIsRow(s);
      assert table[FromBits(s)] == s;
    }
    forall i, j | 0 <= i < j < |table|
      ensures table[i] != table[j]
    {
      RowSpellsIndex(n, i);
      RowSpellsIndex(n, j);
    }
  }

  /** `a` comes before `b`: they agree up to a position where `a` has false and `b` true. */
  predicate LexLess(a: seq<bool>, b: seq<bool>) {
    exists k :: 0 <= k < |a| && k < |b| && a[..k] == b[..k] && !a[k] && b[k]
  }

  /** Later rows come after earlier ones. */
  lemma {:induction false} RowsAscend(n: nat, i: nat, j: nat)
    requires i < j < Pow2(n)
    ensures LexLess(Row(n, i), Row(n, j))
  {
    RowSplit(n, i);
    RowSplit(n, j);
    var a, b := Row(n - 1, i / 2), Row(n - 1, j / 2);
    if i / 2 < j / 2 {
      RowsAscend(n - 1, i / 2, j / 2);
      var k :| 0 <= k < |a| && k < |b| && a[..k] == b[..k] && !a[k] && b[k];
      assert Row(n, i)[..k] == a[..k] && Row(n, j)[..k] == b[..k];
      assert Row(n, i)[k] == a[k] && Row(n, j)[k] == b[k];
    } else {
      assert Row(n, i)[..n - 1] == a == b == Row(n, j)[..n - 1];
    }
  }

  /** The first row is all false and the last all true. */
  lemma FirstAndLastRows(n: nat)
    ensures Row(n, 0) == seq(n, _ => false)
    ensures Row(n, Pow2(n) - 1) == seq(n, _ => true)
  {
    var none, all := seq(n, _ => false), seq(n, _ => true);
    AllFalseSpells(n);
    AllTrueSpells(n);
    AssignmentIsRow(none);
    AssignmentIsRow(all);
  }

  lemma {:induction false} AllFalseSpells(n: nat)
    ensures FromBits(seq(n, _ => false)) == 0
  {
    if n > 0 {
      assert seq(n, _ => false)[..n - 1] == seq(n - 1, _ => false);
      AllFalseSpells(n - 1);
    }
  }

  lemma {:induction false} AllTrueSpells(n: nat)
    ensures FromBits(seq(n, _ => true)) == Pow2(n) - 1
  {
    if n > 0 {
      assert seq(n, _ => true)[..n - 1] == seq(n - 1, _ => true);
      AllTrueSpells(n - 1);
    }
  }
}
