/**
 * What each message does to the total value of every category: a sale adds
 * its price, a multiple-sales message adds price times count, and an
 * adjustment shifts or scales the total of the sales it rewrites, all in
 * wrapping `int` arithmetic.
 */
module LedgerTotals {
  import opened JavaInt
  import opened Operations
  import opened Ledger

  /** The exact effect of an adjustment on the exact total of `n` prices. */
  function AdjustedTotal(op: Operation, total: int, n: nat, amount: int): int {
    match op
    case Add => total + n * amount
    case Subtract => total - n * amount
    case Multiply => total * amount
  }

  /** One more price adds its own exact result to the adjusted total. */
  lemma AdjustedTotalStep(op: Operation, total: int, n: nat, amount: int, x: int)
    ensures AdjustedTotal(op, total + x, n + 1, amount) == AdjustedTotal(op, total, n, amount) + Exact(op, x, amount)
  {
    match op
    case Add =>
    case Subtract =>
    case Multiply =>
      assert (total + x) * amount == total * amount + x * amount;
  }

  /** Totals that wrap alike still wrap alike after the same adjustment. */
  lemma AdjustedTotalCongruent(op: Operation, x: int, x': int, n: nat, amount: int)
    requires Wrap(x) == Wrap(x')
    ensures Wrap(AdjustedTotal(op, x, n, amount)) == Wrap(AdjustedTotal(op, x', n, amount))
  {
    match op
    case Add => WrapAddCongruent(x, x', n * amount);
    case Subtract => WrapAddCongruent(x, x', -(n * amount));
    case Multiply =>
      WrapMul(x, amount);
      WrapMul(x', amount);
  }

  /** Adjusting every price shifts or scales the sum, up to wrap-around. */
  lemma {:induction false} SumAdjust(xs: seq<i32>, op: Operation, amount: i32)
    ensures Wrap(Sum(Adjust(xs, op, amount))) == Wrap(AdjustedTotal(op, Sum(xs), |xs|, amount))
  {
    if xs != [] {
      var init, last := xs[..|xs| - 1], xs[|xs| - 1];
      var adjusted := Adjust(xs, op, amount);
      var rewritten := Calculate(op, last, amount);
      var before := AdjustedTotal(op, Sum(init), |init|, amount);
      assert adjusted[..|adjusted| - 1] == Adjust(init, op, amount);
      assert Sum(adjusted) == Sum(Adjust(init, op, amount)) + rewritten;
      SumAdjust(init, op, amount);
      WrapAddCongruent(Sum(Adjust(init, op, amount)), before, rewritten);
      WrapCongruent(rewritten, Exact(op, last, amount));
      WrapAddCongruent(rewritten, Exact(op, last, amount), before);
      AdjustedTotalStep(op, Sum(init), |init|, amount, last);
    }
  }

  /** Appending a price adds it to the category's total. */
  lemma AppendTotal(m: map<string, seq<i32>>, c: string, p: i32)
    ensures TotalValue(Append(m, c, p), c) == Wrap(TotalValue(m, c) + p)
  {
    var prices := Append(m, c, p)[c];
    assert prices[..|prices| - 1] == Lookup(m, c);
    WrapAdd(Sum(Lookup(m, c)), p);
  }

  /** Appending `n` copies of a price adds `p * n` to the category's total. */
  lemma AppendRepeatedTotal(m: map<string, seq<i32>>, c: string, p: i32, n: nat)
    ensures TotalValue(AppendRepeated(m, c, p, n), c) == Wrap(TotalValue(m, c) + p * n)
  {
    var prices := Lookup(m, c);
    assert TotalValue(AppendRepeated(m, c, p, n), c) == Wrap(Sum(prices) + p * n) by {
      AppendRepeatedIsRepeat(m, c, p, n);
      WrappedSumRepeat(prices, p, n);
    }
    WrapAdd(Sum(prices), p * n);
  }

  /** A single sale adds its price to its category's total and touches no other category. */
  lemma SingleSaleTotals(s: State, c: string, p: i32)
    requires !s.terminated
    ensures var r := ProcessSingleSale(s, c, p).sales;
            && Lookup(r, c) == Lookup(s.sales, c) + [p]
            && TotalValue(r, c) == Wrap(TotalValue(s.sales, c) + p)
            && forall d | d != c :: Lookup(r, d) == Lookup(s.sales, d)
  {
    AppendTotal(s.sales, c, p);
  }

  /** `n` sales at price `p` add `n` prices and `p * n` to their category's total. */
  lemma MultipleSalesTotals(s: State, c: string, p: i32, n: i32)
    requires !s.terminated && n >= 0
    ensures ProcessMultipleSales(s, c, p, n).Success?
    ensures ProcessMultipleSales(s, c, p, n).value.counter == s.counter + 1
    ensures var r := ProcessMultipleSales(s, c, p, n).value.sales;
            && |Lookup(r, c)| == |Lookup(s.sales, c)| + n
            && TotalValue(r, c) == Wrap(TotalValue(s.sales, c) + p * n)
            && forall d | d != c :: Lookup(r, d) == Lookup(s.sales, d)
  {
    AppendRepeatedTotal(s.sales, c, p, n);
  }

  /**
   * An adjustment keeps the number of sales of its category and moves its
   * total by the operation: plus or minus count times amount, or times amount.
   */
  lemma AdjustmentTotals(s: State, c: string, op: Operation, amount: i32)
    ensures var r := ApplyAdjustment(s, c, op, amount).sales;
            && Lookup(r, c) == Adjust(Lookup(s.sales, c), op, amount)
            && TotalValue(r, c)
               == Wrap(AdjustedTotal(op, TotalValue(s.sales, c), |Lookup(s.sales, c)|, amount))
            && forall d | d != c :: Lookup(r, d) == Lookup(s.sales, d)
  {
    var prices := Lookup(s.sales, c);
    var n := |prices|;
    var r := ApplyAdjustment(s, c, op, amount).sales;
    assert Lookup(r, c) == Adjust(prices, op, amount) by {
      if c !in s.sales {
        assert Adjust(prices, op, amount) == prices;
      }
    }
    assert TotalValue(r, c) == Wrap(AdjustedTotal(op, Sum(prices), n, amount)) by {
      SumAdjust(prices, op, amount);
    }
    match op
    case Add => WrapAdd(Sum(prices), n * amount);
    case Subtract => WrapAdd(Sum(prices), -(n * amount));
    case Multiply => WrapMul(Sum(prices), amount);
  }

  /**
   * A sale-and-adjustment message appends its sale, then adjusts the named
   * category, whose list holds the new sale too when the categories match.
   */
  lemma SaleAndAdjustmentTotals(s: State, c: string, p: i32, ac: string, op: Operation, amount: i32)
    requires !s.terminated
    ensures var mid := Append(s.sales, c, p);
            var r := ProcessSaleAndAdjustment(s, c, p, ac, op, amount).sales;
            && TotalValue(mid, c) == Wrap(TotalValue(s.sales, c) + p)
            && Lookup(r, ac) == Adjust(Lookup(mid, ac), op, amount)
            && TotalValue(r, ac)
               == Wrap(AdjustedTotal(op, TotalValue(mid, ac), |Lookup(mid, ac)|, amount))
            && forall d | d != ac :: Lookup(r, d) == Lookup(mid, d)
  {
    var t := s.(sales := Append(s.sales, c, p));
    assert TotalValue(t.sales, c) == Wrap(TotalValue(s.sales, c) + p) by {
      AppendTotal(s.sales, c, p);
    }
    assert ProcessSaleAndAdjustment(s, c, p, ac, op, amount).sales == ApplyAdjustment(t, ac, op, amount).sales;
    AdjustmentTotals(t, ac, op, amount);
  }

  /**
   * An adjustment rewrites the sales held when it arrives, including the
   * sale of its own message, and not a sale that arrives after it.
   */
  lemma AdjustmentReachesOnlyEarlierSales(s: State, c: string, p: i32, op: Operation, amount: i32, q: i32)
    requires Inv(s) && s.counter + 1 < MESSAGE_LIMIT
    ensures var t := ProcessSaleAndAdjustment(s, c, p, c, op, amount);
            var u := ProcessSingleSale(t, c, q);
            Lookup(u.sales, c) == Adjust(Lookup(s.sales, c) + [p], op, amount) + [q]
  {
  }
}
