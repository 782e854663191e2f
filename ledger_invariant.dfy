/**
 * The invariant of module Ledger is kept by every step: the counter never
 * passes the limit, the flag is set exactly at the limit, lists are never
 * empty and every adjustment is filed under its own category.
 */
module LedgerInvariant {
  import opened JavaInt
  import opened Operations
  import opened Adjustments
  import opened Ledger

  /** Appending sales keeps every list non-empty. */
  lemma AppendSaleKeepsInv(s: State, c: string, p: i32)
    requires Inv(s)
    ensures Inv(s.(sales := Append(s.sales, c, p)))
  {
    var t := s.(sales := Append(s.sales, c, p));
    forall d | d in t.sales
      ensures t.sales[d] != []
    {
      if d != c {
        assert t.sales[d] == s.sales[d];
      }
    }
  }

  lemma {:induction false} AppendRepeatedKeepsInv(s: State, c: string, p: i32, n: nat)
    requires Inv(s)
    ensures Inv(s.(sales := AppendRepeated(s.sales, c, p, n)))
  {
    if n > 0 {
      AppendRepeatedKeepsInv(s, c, p, n - 1);
      AppendSaleKeepsInv(s.(sales := AppendRepeated(s.sales, c, p, n - 1)), c, p);
    }
  }

  /** An adjustment is filed under its own category, and rewriting prices keeps list lengths. */
  lemma ApplyAdjustmentKeepsInv(s: State, c: string, op: Operation, amount: i32)
    requires Inv(s)
    ensures Inv(ApplyAdjustment(s, c, op, amount))
  {
    var t := ApplyAdjustment(s, c, op, amount);
    forall d | d in t.sales
      ensures t.sales[d] != []
    {
      assert |t.sales[d]| == |s.sales[d]|;
    }
    forall d, i | d in t.adjustments && 0 <= i < |t.adjustments[d]|
      ensures t.adjustments[d][i].saleType == d
    {
      if d == c {
        assert t.adjustments[d] == Lookup(s.adjustments, c) + [Adjustment(c, op, amount)];
      } else {
        assert t.adjustments[d] == s.adjustments[d];
      }
    }
  }

  /** Registering a message accepted while running keeps the counter within the limit. */
  lemma RegisterKeepsInv(s: State)
    requires Inv(s) && !s.terminated
    ensures Inv(Register(s))
  {
  }

  /**
   * Every message keeps the invariant. An accepted message on a running
   * processor advances the counter by exactly one; on a terminated one, and
   * for a rejected message, nothing changes.
   */
  lemma ProcessStep(s: State, m: Message)
    requires Inv(s)
    ensures Process(s, m).Success? ==> Inv(Process(s, m).value)
    ensures Process(s, m).Success? && s.terminated ==> Process(s, m).value == s
    ensures Process(s, m).Success? && !s.terminated ==> Process(s, m).value.counter == s.counter + 1
  {
    if !s.terminated {
      match m
      case SingleSale(c, p) =>
        AppendSaleKeepsInv(s, c, p);
        RegisterKeepsInv(s.(sales := Append(s.sales, c, p)));
      case MultipleSales(c, p, n) =>
        if n >= 0 {
          AppendRepeatedKeepsInv(s, c, p, n);
          RegisterKeepsInv(s.(sales := AppendRepeated(s.sales, c, p, n)));
        }
      case SaleAndAdjustment(c, p, ac, op, amount) =>
        var t := s.(sales := Append(s.sales, c, p));
        AppendSaleKeepsInv(s, c, p);
        ApplyAdjustmentKeepsInv(t, ac, op, amount);
        RegisterKeepsInv(ApplyAdjustment(t, ac, op, amount));
    }
  }

  /** Every state reached from a fresh processor keeps the invariant. */
  lemma {:induction false} ProcessAllKeepsInv(s: State, ms: seq<Message>)
    requires Inv(s)
    ensures Inv(ProcessAll(s, ms))
    decreases |ms|
  {
    if ms != [] {
      ProcessStep(s, ms[0]);
      ProcessAllKeepsInv(Step(s, ms[0]), ms[1..]);
    }
  }

  /** Once terminated, no message changes anything: totals freeze. */
  lemma {:induction false} TerminatedIsFrozen(s: State, ms: seq<Message>)
    requires s.terminated
    ensures ProcessAll(s, ms) == s
    decreases |ms|
  {
    if ms != [] {
      TerminatedIsFrozen(s, ms[1..]);
    }
  }

  /**
   * The counter counts accepted messages: a stream of `n` valid messages from
   * a running state advances it by `n` until the limit, and the processor is
   * terminated exactly when the limit is reached.
   */
  lemma {:induction false} CounterCountsAcceptedMessages(s: State, ms: seq<Message>)
    requires Inv(s)
    requires forall i | 0 <= i < |ms| :: !(ms[i].MultipleSales? && ms[i].numberOfSales < 0)
    ensures var r := ProcessAll(s, ms);
            && r.counter == (if s.counter + |ms| <= MESSAGE_LIMIT then s.counter + |ms| else MESSAGE_LIMIT)
            && (r.terminated <==> r.counter == MESSAGE_LIMIT)
    decreases |ms|
  {
    if ms != [] {
      ProcessStep(s, ms[0]);
      var next := Process(s, ms[0]).value;
      CounterCountsAcceptedMessages(next, ms[1..]);
    }
  }
}
