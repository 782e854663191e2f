/**
 * Streams of messages. Categories are independent: while the processor is
 * running, the prices of one category depend only on the messages that name
 * it, in order. `CategoryHistory` states that per-category meaning on its
 * own, and `CategoriesAreIndependent` ties it to the whole ledger. A `Tally`
 * (count and exact total) abstracts a history, and `TallyAllDescribes` shows
 * the abstraction sound, so a category's total can be read off its tally.
 */
module LedgerStreams {
  import opened JavaInt
  import opened Operations
  import opened Ledger
  import opened LedgerInvariant
  import opened LedgerTotals

  /** What one message does to the prices of category `c`, looking at `c` alone. */
  function CategoryStep(prices: seq<i32>, m: Message, c: string): seq<i32> {
    match m
    case SingleSale(saleType, p) =>
      if saleType == c then prices + [p] else prices
    case MultipleSales(saleType, p, n) =>
      if saleType == c && n >= 0 then prices + Repeat(p, n) else prices
    case SaleAndAdjustment(saleType, p, adjustmentSaleType, op, amount) =>
      var withSale := if saleType == c then prices + [p] else prices;
      if adjustmentSaleType == c then Adjust(withSale, op, amount) else withSale
  }

  /** The prices of category `c` after a stream, starting from `prices`. */
  function CategoryHistory(prices: seq<i32>, ms: seq<Message>, c: string): seq<i32>
    decreases |ms|
  {
    if ms == [] then prices else CategoryHistory(CategoryStep(prices, ms[0], c), ms[1..], c)
  }

  /** Whether message `m` adjusts the prices of category `c`. */
  predicate Adjusts(m: Message, c: string) {
    m.SaleAndAdjustment? && m.adjustmentSaleType == c
  }

  /** On a running processor, one message changes category `c` as `CategoryStep` says. */
  lemma StepIsCategoryStep(s: State, m: Message, c: string)
    requires !s.terminated
    ensures Lookup(Step(s, m).sales, c) == CategoryStep(Lookup(s.sales, c), m, c)
  {
    match m
    case SingleSale(saleType, p) =>
      SingleSaleIsCategoryStep(s, saleType, p, c);
    case MultipleSales(saleType, p, n) =>
      MultipleSalesIsCategoryStep(s, saleType, p, n, c);
    case SaleAndAdjustment(saleType, p, adjustmentSaleType, op, amount) =>
      SaleAndAdjustmentIsCategoryStep(s, saleType, p, adjustmentSaleType, op, amount, c);
  }

  lemma SingleSaleIsCategoryStep(s: State, saleType: string, p: i32, c: string)
    requires !s.terminated
    ensures var m := SingleSale(saleType, p);
            Lookup(Step(s, m).sales, c) == CategoryStep(Lookup(s.sales, c), m, c)
  {
    SingleSaleTotals(s, saleType, p);
  }

  lemma MultipleSalesIsCategoryStep(s: State, saleType: string, p: i32, n: i32, c: string)
    requires !s.terminated
    ensures var m := MultipleSales(saleType, p, n);
            Lookup(Step(s, m).sales, c) == CategoryStep(Lookup(s.sales, c), m, c)
  {
    if n >= 0 && saleType == c {
      AppendRepeatedIsRepeat(s.sales, c, p, n);
    } else if n >= 0 {
      MultipleSalesTotals(s, saleType, p, n);
    }
  }

  lemma SaleAndAdjustmentIsCategoryStep(s: State, saleType: string, p: i32, adjustmentSaleType: string,
                                        op: Operation, amount: i32, c: string)
    requires !s.terminated
    ensures var m := SaleAndAdjustment(saleType, p, adjustmentSaleType, op, amount);
            Lookup(Step(s, m).sales, c) == CategoryStep(Lookup(s.sales, c), m, c)
  {
    var t := s.(sales := Append(s.sales, saleType, p));
    var withSale := if saleType == c then Lookup(s.sales, c) + [p] else Lookup(s.sales, c);
    assert Lookup(t.sales, c) == withSale;
    var r := ApplyAdjustment(t, adjustmentSaleType, op, amount);
    assert Step(s, SaleAndAdjustment(saleType, p, adjustmentSaleType, op, amount)).sales == r.sales;
    if adjustmentSaleType == c {
      assert Lookup(r.sales, c) == Adjust(withSale, op, amount);
    } else {
      assert Lookup(r.sales, c) == withSale;
    }
  }

  /**
   * Until the message limit, the prices of every category are the history of
   * that category's own messages, whatever the other categories receive.
   */
  lemma {:induction false} CategoriesAreIndependent(s: State, ms: seq<Message>, c: string)
    requires Inv(s) && s.counter + |ms| <= MESSAGE_LIMIT
    ensures Lookup(ProcessAll(s, ms).sales, c) == CategoryHistory(Lookup(s.sales, c), ms, c)
    decreases |ms|
  {
    if ms != [] {
      ProcessStep(s, ms[0]);
      StepIsCategoryStep(s, ms[0], c);
      CategoriesAreIndependent(Step(s, ms[0]), ms[1..], c);
    }
  }

  /** Processing two streams one after the other is processing their concatenation. */
  lemma {:induction false} ProcessAllAppend(s: State, a: seq<Message>, b: seq<Message>)
    ensures ProcessAll(s, a + b) == ProcessAll(ProcessAll(s, a), b)
    decreases |a|
  {
    if a != [] {
      assert (a + b)[0] == a[0];
      assert (a + b)[1..] == a[1..] + b;
      ProcessAllAppend(Step(s, a[0]), a[1..], b);
    } else {
      assert a + b == b;
    }
  }

  /** The number of sales of a category and the exact, unwrapped total of their prices. */
  datatype Tally = Tally(count: nat, total: int)

  /** What one message does to the tally of category `c`, in exact arithmetic. */
  function TallyStep(t: Tally, m: Message, c: string): Tally {
    match m
    case SingleSale(saleType, p) =>
      if saleType == c then Tally(t.count + 1, t.total + p) else t
    case MultipleSales(saleType, p, n) =>
      // a count of 0 adds nothing, like a negative count that is refused
      if saleType == c && n > 0 then Tally(t.count + n, t.total + p * n) else t
    case SaleAndAdjustment(saleType, p, adjustmentSaleType, op, amount) =>
      var withSale := if saleType == c then Tally(t.count + 1, t.total + p) else t;
      if adjustmentSaleType == c
      then Tally(withSale.count, AdjustedTotal(op, withSale.total, withSale.count, amount))
      else withSale
  }

  /** The tally of category `c` after a stream, starting from `t`. */
  function TallyAll(t: Tally, ms: seq<Message>, c: string): Tally
    decreases |ms|
  {
    if ms == [] then t else TallyAll(TallyStep(t, ms[0], c), ms[1..], c)
  }

  /** A tally describes `prices` when it counts them and its total wraps to their sum. */
  predicate Describes(t: Tally, prices: seq<i32>) {
    t.count == |prices| && Wrap(t.total) == Wrap(Sum(prices))
  }

  /** One step of the tally follows one step of the history. */
  lemma TallyStepDescribes(t: Tally, prices: seq<i32>, m: Message, c: string)
    requires Describes(t, prices)
    ensures Describes(TallyStep(t, m, c), CategoryStep(prices, m, c))
  {
    match m
    case SingleSale(saleType, p) =>
      if saleType == c {
        SaleDescribes(t, prices, p);
      }
    case MultipleSales(saleType, p, n) =>
      if saleType == c && n >= 0 {
        SalesDescribe(t, prices, p, n);
      }
    case SaleAndAdjustment(saleType, p, adjustmentSaleType, op, amount) =>
      var withSale := if saleType == c then Tally(t.count + 1, t.total + p) else t;
      var sold := if saleType == c then prices + [p] else prices;
      assert Describes(withSale, sold) by {
        if saleType == c {
          SaleDescribes(t, prices, p);
        }
      }
      if adjustmentSaleType == c {
        AdjustmentDescribes(withSale, sold, op, amount);
      }
  }

  /** A sale of price `p` adds one to the count and `p` to the total. */
  lemma SaleDescribes(t: Tally, prices: seq<i32>, p: i32)
    requires Describes(t, prices)
    ensures Describes(Tally(t.count + 1, t.total + p), prices + [p])
  {
    assert (prices + [p])[..|prices|] == prices;
    WrapAddCongruent(t.total, Sum(prices), p);
  }

  /** `n` sales of price `p` add `n` to the count and `p * n` to the total. */
  lemma SalesDescribe(t: Tally, prices: seq<i32>, p: i32, n: nat)
    requires Describes(t, prices)
    ensures Describes(Tally(t.count + n, t.total + p * n), prices + Repeat(p, n))
  {
    WrappedSumRepeat(prices, p, n);
    WrapAddCongruent(t.total, Sum(prices), p * n);
  }

  /** An adjustment keeps the count and moves the total as `AdjustedTotal` says. */
  lemma AdjustmentDescribes(t: Tally, prices: seq<i32>, op: Operation, amount: i32)
    requires Describes(t, prices)
    ensures Describes(Tally(t.count, AdjustedTotal(op, t.total, t.count, amount)), Adjust(prices, op, amount))
  {
    SumAdjust(prices, op, amount);
    AdjustedTotalCongruent(op, t.total, Sum(prices), t.count, amount);
  }

  /** The tally of a stream describes the history of the stream. */
  lemma {:induction false} TallyAllDescribes(t: Tally, prices: seq<i32>, ms: seq<Message>, c: string)
    requires Describes(t, prices)
    ensures Describes(TallyAll(t, ms, c), CategoryHistory(prices, ms, c))
    decreases |ms|
  {
    if ms != [] {
      TallyStepDescribes(t, prices, ms[0], c);
      TallyAllDescribes(TallyStep(t, ms[0], c), CategoryStep(prices, ms[0], c), ms[1..], c);
    }
  }

  /** The tally of a concatenation is the tally of the second stream after the first. */
  lemma {:induction false} TallyAllAppend(t: Tally, a: seq<Message>, b: seq<Message>, c: string)
    ensures TallyAll(t, a + b, c) == TallyAll(TallyAll(t, a, c), b, c)
    decreases |a|
  {
    if a != [] {
      assert (a + b)[0] == a[0];
      assert (a + b)[1..] == a[1..] + b;
      TallyAllAppend(TallyStep(t, a[0], c), a[1..], b, c);
    } else {
      assert a + b == b;
    }
  }

  /** A stream that never adjusts `c` adds the same count and total whatever the tally it starts from. */
  lemma {:induction false} UnadjustedTallyAdds(t: Tally, ms: seq<Message>, c: string)
    requires forall i | 0 <= i < |ms| :: !Adjusts(ms[i], c)
    ensures var d := TallyAll(Tally(0, 0), ms, c);
            TallyAll(t, ms, c) == Tally(t.count + d.count, t.total + d.total)
    decreases |ms|
  {
    if ms != [] {
      assert !Adjusts(ms[0], c);
      var head := TallyStep(Tally(0, 0), ms[0], c);
      UnadjustedTallyAdds(TallyStep(t, ms[0], c), ms[1..], c);
      UnadjustedTallyAdds(head, ms[1..], c);
    }
  }

  /** From a fresh processor, a category's total after a stream is its tally, wrapped to an `int`. */
  lemma FreshTotalIsTally(ms: seq<Message>, c: string)
    requires |ms| <= MESSAGE_LIMIT
    ensures TotalValue(ProcessAll(Init(), ms).sales, c) == Wrap(TallyAll(Tally(0, 0), ms, c).total)
  {
    CategoriesAreIndependent(Init(), ms, c);
    TallyAllDescribes(Tally(0, 0), [], ms, c);
  }
}
