/** Numbers as SQLite hands them out, and what Python makes of them. */
module Cells {
  import opened Prelude

  /**
   A column declared INTEGER keeps an integer, a real that is not a whole number, or a text that
   is not a number; a column of another kind may also keep a whole real.
   */
  datatype Cell = Integer(n: int) | Real(x: real) | TextCell(s: string)

  /** Python's `int`: truncates a real toward zero and reads some texts. */
  function PyInt(readInt: string -> Option<int>, c: Cell): Option<int> {
    match c
    case Integer(n) => Some(n)
    case Real(x) => Some(if x >= 0.0 then x.Floor else -((-x).Floor))
    case TextCell(s) => readInt(s)
  }

  /** Python's `==` between a cell and an integer. */
  predicate Equals(c: Cell, n: int) {
    c == Integer(n) || c == Real(n as real)
  }

  predicate Whole(c: Cell) {
    c.Integer? || (c.Real? && c.x == c.x.Floor as real)
  }

  /** A cell equals a number exactly when it is whole and reads as that number. */
  lemma EqualsIsWholeReading(readInt: string -> Option<int>, c: Cell, n: int)
    ensures Equals(c, n) <==> Whole(c) && PyInt(readInt, c) == Some(n)
  {
    if c.Real? {
      RealReading(c.x, n);
    }
  }

  lemma RealReading(x: real, n: int)
    ensures x == n as real <==> x == x.Floor as real && (if x >= 0.0 then x.Floor else -((-x).Floor)) == n
  {
    if x == x.Floor as real {
      assert -x == (-x.Floor) as real;
      assert (-x).Floor == -x.Floor;
    }
  }
}
