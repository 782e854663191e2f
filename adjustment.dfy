/**
 * A price adjustment: an operation and an amount applied to every sale of one
 * category. The processor only ever reads an adjustment after creating it,
 * so it is a value; its setters are record updates.
 */
module Adjustments {
  import opened JavaInt
  import opened Operations

  datatype Adjustment = Adjustment(saleType: string, operation: Operation, amount: i32)

  /** Replaces the category and keeps the operation and the amount. */
  function SetSaleType(a: Adjustment, saleType: string): (r: Adjustment)
    ensures r.saleType == saleType && r.operation == a.operation && r.amount == a.amount
  {
    a.(saleType := saleType)
  }

  /** Replaces the operation and keeps the category and the amount. */
  function SetOperation(a: Adjustment, operation: Operation): (r: Adjustment)
    ensures r.operation == operation && r.saleType == a.saleType && r.amount == a.amount
  {
    a.(operation := operation)
  }

  /** Replaces the amount and keeps the category and the operation. */
  function SetAmount(a: Adjustment, amount: i32): (r: Adjustment)
    ensures r.amount == amount && r.saleType == a.saleType && r.operation == a.operation
  {
    a.(amount := amount)
  }
}
