/**
 * The processor's state as a value, and each message as a pure transition on
 * it. The class in module Processor is proved to follow these transitions;
 * the properties of the bookkeeping are proved here, on the values.
 */
module Ledger {
  import opened JavaInt
  import opened Operations
  import opened Adjustments

  /** A sale summary is reported after every 10th accepted message. */
  const REPORT_INTERVAL: nat := 10
  /** After the 50th accepted message the processor terminates. */
  const MESSAGE_LIMIT: nat := 50

  /**
   * `sales` holds, per category, the current prices of its sales in arrival
   * order; `adjustments` holds, per category, its adjustment history.
   */
  datatype State = State(
    counter: nat,
    terminated: bool,
    sales: map<string, seq<i32>>,
    adjustments: map<string, seq<Adjustment>>)

  /** The one failure: a negative number of sales in a multiple-sales message. */
  datatype Error = NegativeNumberOfSales

  datatype Result<T> = Success(value: T) | Failure(error: Error)

  /**
   * What the processor reports after a message, without the text: the total
   * of every category with sales, and on the final message also every
   * category's adjustment history.
   */
  datatype Report =
    | Silent
    | SaleSummary(totals: map<string, i32>)
    | FinalSummary(totals: map<string, i32>, history: map<string, seq<Adjustment>>)

  /** The messages a processor accepts. */
  datatype Message =
    | SingleSale(saleType: string, salePrice: i32)
    | MultipleSales(saleType: string, salePrice: i32, numberOfSales: i32)
    | SaleAndAdjustment(saleType: string, salePrice: i32,
                        adjustmentSaleType: string, operation: Operation, amount: i32)

  /** The invariant every reachable state keeps. */
  predicate Inv(s: State) {
    && s.counter <= MESSAGE_LIMIT
    && (s.terminated <==> s.counter == MESSAGE_LIMIT)
    && (forall c | c in s.sales :: s.sales[c] != [])
    && (forall c | c in s.adjustments :: s.adjustments[c] != [])
    && (forall c, i | c in s.adjustments && 0 <= i < |s.adjustments[c]| ::
          s.adjustments[c][i].saleType == c)
  }

  /** A fresh processor: no messages, nothing recorded. */
  function Init(): (r: State)
    ensures Inv(r) && !r.terminated && r.counter == 0
    ensures r.sales == map[] && r.adjustments == map[]
  {
    State(0, false, map[], map[])
  }

  /** A category's list; a category never written reads as empty. */
  function Lookup<T>(m: map<string, seq<T>>, c: string): seq<T> {
    if c in m then m[c] else []
  }

  /** Appends `x` to the list of `c`, creating the list when absent. */
  function Append<T>(m: map<string, seq<T>>, c: string, x: T): (r: map<string, seq<T>>)
    ensures r.Keys == m.Keys + {c}
    ensures r[c] == Lookup(m, c) + [x]
    ensures forall d | d in m && d != c :: r[d] == m[d]
  {
    if c in m then m[c := m[c] + [x]] else m[c := [x]]
  }

  /** Appends `n` copies of `x` to the list of `c`, one at a time. */
  function AppendRepeated<T>(m: map<string, seq<T>>, c: string, x: T, n: nat): (r: map<string, seq<T>>)
    ensures n == 0 ==> r == m
    ensures n > 0 ==> r.Keys == m.Keys + {c}
    ensures |Lookup(r, c)| == |Lookup(m, c)| + n
    ensures forall d | d in m && d != c :: r[d] == m[d]
  {
    if n == 0 then m else Append(AppendRepeated(m, c, x, n - 1), c, x)
  }

  /** Appending one at a time appends `n` copies at the end, keeping what was there. */
  lemma {:induction false} AppendRepeatedIsRepeat<T>(m: map<string, seq<T>>, c: string, x: T, n: nat)
    ensures Lookup(AppendRepeated(m, c, x, n), c) == Lookup(m, c) + Repeat(x, n)
  {
    if n > 0 {
      AppendRepeatedIsRepeat(m, c, x, n - 1);
      assert Lookup(m, c) + Repeat(x, n) == (Lookup(m, c) + Repeat(x, n - 1)) + [x];
    } else {
      assert Lookup(m, c) + Repeat(x, n) == Lookup(m, c);
    }
  }

  /** Every price rewritten by the operation, keeping length and order. */
  function Adjust(prices: seq<i32>, op: Operation, amount: i32): (r: seq<i32>)
    ensures |r| == |prices|
    ensures forall i | 0 <= i < |r| :: r[i] == Calculate(op, prices[i], amount)
  {
    if prices == [] then []
    else Adjust(prices[..|prices| - 1], op, amount) + [Calculate(op, prices[|prices| - 1], amount)]
  }

  /**
   * Records an adjustment of category `c` in its history (even when `c` has
   * no sales) and rewrites the prices of the sales currently held under `c`.
   */
  function ApplyAdjustment(s: State, c: string, op: Operation, amount: i32): (r: State)
    ensures r.counter == s.counter && r.terminated == s.terminated
    ensures r.adjustments == Append(s.adjustments, c, Adjustment(c, op, amount))
    ensures r.sales.Keys == s.sales.Keys
    ensures forall d | d in s.sales ::
              r.sales[d] == if d == c then Adjust(s.sales[d], op, amount) else s.sales[d]
  {
    s.(adjustments := Append(s.adjustments, c, Adjustment(c, op, amount)),
       sales := if c in s.sales then s.sales[c := Adjust(s.sales[c], op, amount)] else s.sales)
  }

  /**
   * Counts one accepted message; on the 50th the processor terminates. Below
   * the limit the two modulus tests amount to reaching the limit exactly.
   */
  function Register(s: State): (r: State)
    ensures r.counter == s.counter + 1 && r.sales == s.sales && r.adjustments == s.adjustments
    ensures s.counter < MESSAGE_LIMIT && !s.terminated ==> (r.terminated <==> r.counter == MESSAGE_LIMIT)
  {
    var counter := s.counter + 1;
    s.(counter := counter,
       terminated := if counter % REPORT_INTERVAL == 0 && counter % MESSAGE_LIMIT == 0 then true
                     else s.terminated)
  }

  /** A terminated processor ignores the sale; a running one appends it and counts the message. */
  function ProcessSingleSale(s: State, saleType: string, salePrice: i32): (r: State)
    ensures s.terminated ==> r == s
    ensures !s.terminated ==>
              && r.sales == Append(s.sales, saleType, salePrice)
              && r.adjustments == s.adjustments
              && r.counter == s.counter + 1
  {
    if s.terminated then s
    else Register(s.(sales := Append(s.sales, saleType, salePrice)))
  }

  /** The count is checked before the termination flag, so it fails even when terminated. */
  function ProcessMultipleSales(s: State, saleType: string, salePrice: i32, numberOfSales: i32): (r: Result<State>)
    ensures r.Failure? <==> numberOfSales < 0
    ensures numberOfSales >= 0 && s.terminated ==> r == Success(s)
    ensures numberOfSales >= 0 && !s.terminated ==>
              && r.value.sales == AppendRepeated(s.sales, saleType, salePrice, numberOfSales as nat)
              && r.value.adjustments == s.adjustments
              && r.value.counter == s.counter + 1
  {
    if numberOfSales < 0 then Failure(NegativeNumberOfSales)
    else if s.terminated then Success(s)
    else Success(Register(s.(sales := AppendRepeated(s.sales, saleType, salePrice, numberOfSales))))
  }

  /**
   * A terminated processor ignores the message. A running one records the
   * sale before it applies the adjustment, then counts the message.
   */
  function ProcessSaleAndAdjustment(s: State, saleType: string, salePrice: i32,
                                    adjustmentSaleType: string, op: Operation, amount: i32): (r: State)
    ensures s.terminated ==> r == s
    ensures !s.terminated ==>
              && r.sales == ApplyAdjustment(s.(sales := Append(s.sales, saleType, salePrice)),
                                            adjustmentSaleType, op, amount).sales
              && r.adjustments == Append(s.adjustments, adjustmentSaleType,
                                         Adjustment(adjustmentSaleType, op, amount))
              && r.counter == s.counter + 1
  {
    if s.terminated then s
    else Register(ApplyAdjustment(s.(sales := Append(s.sales, saleType, salePrice)),
                                  adjustmentSaleType, op, amount))
  }

  function Process(s: State, m: Message): (r: Result<State>)
    ensures r.Failure? <==> m.MultipleSales? && m.numberOfSales < 0
  {
    match m
    case SingleSale(c, p) => Success(ProcessSingleSale(s, c, p))
    case MultipleSales(c, p, n) => ProcessMultipleSales(s, c, p, n)
    case SaleAndAdjustment(c, p, ac, op, amount) => Success(ProcessSaleAndAdjustment(s, c, p, ac, op, amount))
  }

  /** One message of a stream: a message that fails leaves the state as it was. */
  function Step(s: State, m: Message): State {
    match Process(s, m)
    case Success(t) => t
    case Failure(_) => s
  }

  /** A stream of messages, processed in order. */
  function ProcessAll(s: State, ms: seq<Message>): State
    decreases |ms|
  {
    if ms == [] then s else ProcessAll(Step(s, ms[0]), ms[1..])
  }

  /**
   * The total value of a category in `sales`: the exact sum of its prices
   * narrowed to an `int`, and 0 for a category never written.
   */
  function TotalValue(sales: map<string, seq<i32>>, c: string): (r: i32)
    ensures c !in sales ==> r == 0
    ensures InRange(Sum(Lookup(sales, c))) ==> r == Sum(Lookup(sales, c))
  {
    Wrap(Sum(Lookup(sales, c)))
  }

  /** The totals a sale summary lists: one per category holding sales. */
  function Totals(sales: map<string, seq<i32>>): (r: map<string, i32>)
    ensures r.Keys == sales.Keys
    ensures forall c | c in r :: r[c] == TotalValue(sales, c)
  {
    map c | c in sales :: TotalValue(sales, c)
  }

  /** The report emitted once the counter has been incremented. */
  function ReportAfter(s: State): (r: Report)
    ensures r.Silent? <==> s.counter % REPORT_INTERVAL != 0
    ensures !r.Silent? ==> r.totals == Totals(s.sales)
    ensures r.FinalSummary? ==> r.history == s.adjustments
    ensures Inv(s) && s.counter > 0 ==> (r.FinalSummary? <==> s.terminated)
  {
    if s.counter % REPORT_INTERVAL == 0 then
      if s.counter % MESSAGE_LIMIT == 0 then FinalSummary(Totals(s.sales), s.adjustments)
      else SaleSummary(Totals(s.sales))
    else Silent
  }
}
