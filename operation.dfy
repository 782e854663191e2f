/**
 * The closed set of arithmetic operations an adjustment can apply to a
 * sale's price.
 */
module Operations {
  import opened JavaInt

  /** Exactly three variants; a `match` on an operation is always exhaustive. */
  datatype Operation = Add | Subtract | Multiply

  /** The mathematical meaning of an operation, on unbounded integers. */
  function Exact(op: Operation, a: int, b: int): int {
    match op
    case Add => a + b
    case Subtract => a - b
    case Multiply => a * b
  }

  /**
   * The operation evaluated with Java `int` arithmetic: the exact result
   * narrowed to 32 bits, which is the exact result whenever it fits.
   * It depends on nothing but the variant and the two operands.
   */
  function Calculate(op: Operation, a: i32, b: i32): (r: i32)
    ensures (r - Exact(op, a, b)) % MODULUS == 0
    ensures InRange(Exact(op, a, b)) ==> r == Exact(op, a, b)
  {
    match op
    case Add => Wrap(a + b)
    case Subtract => Wrap(a - b)
    case Multiply => Wrap(a * b)
  }

  /** Subtracting an amount undoes adding it, overflow included. */
  lemma SubtractUndoesAdd(a: i32, b: i32)
    ensures Calculate(Subtract, Calculate(Add, a, b), b) == a
  {
    WrapAdd(a + b, -(b as int));
  }

  /** Adding an amount undoes subtracting it, overflow included. */
  lemma AddUndoesSubtract(a: i32, b: i32)
    ensures Calculate(Add, Calculate(Subtract, a, b), b) == a
  {
    WrapAdd(a - b, b);
  }

  /** The expected values of the operation unit tests. */
  lemma OperationExamples()
    ensures Calculate(Add, 2, 5) == 7 && Calculate(Add, -3, 3) == 0 && Calculate(Add, -10, -45) == -55
    ensures Calculate(Subtract, 2, 5) == -3 && Calculate(Subtract, -3, 3) == -6
    ensures Calculate(Subtract, -10, -45) == 35
    ensures Calculate(Multiply, 2, 5) == 10 && Calculate(Multiply, -3, 3) == -9
    ensures Calculate(Multiply, -10, -45) == 450
  {
  }

  /** Java overflow: the largest `int` plus one is the smallest. */
  lemma AddOverflowWraps()
    ensures Calculate(Add, MAX, 1) == MIN
  {
  }
}
