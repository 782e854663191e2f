/**
 * The processor's unit tests, replayed on the values of module Ledger: each
 * sends the test's messages to a fresh processor and states the totals the
 * test expects. Each category is read through its own history of messages.
 */
module Scenarios {
  import opened Operations
  import opened Ledger
  import opened LedgerInvariant
  import opened LedgerStreams

  function SingleSalesMessages(): seq<Message> {
    [SingleSale("apple", 10),
     SingleSale("apple", 2),
     SingleSale("banana", -20),
     SingleSale("banana", 5),
     SingleSale("cucumber", 30),
     SingleSale("cucumber", -67)]
  }

  /** The category tallies of the stream above, in exact arithmetic. */
  lemma SingleSalesTallies()
    ensures TallyAll(Tally(0, 0), SingleSalesMessages(), "apple").total == 12
            && TallyAll(Tally(0, 0), SingleSalesMessages(), "banana").total == -15
            && TallyAll(Tally(0, 0), SingleSalesMessages(), "cucumber").total == -37
            && TallyAll(Tally(0, 0), SingleSalesMessages(), "dandelion").total == 0
  {
  }

  /** Single sales add up per category; a category never sold totals 0. */
  lemma SingleSalesScenario()
    ensures var s := ProcessAll(Init(), SingleSalesMessages());
            && TotalValue(s.sales, "apple") == 12
            && TotalValue(s.sales, "banana") == -15
            && TotalValue(s.sales, "cucumber") == -37
            && TotalValue(s.sales, "dandelion") == 0
  {
    var ms := SingleSalesMessages();
    SingleSalesTallies();
    FreshTotalIsTally(ms, "apple");
    FreshTotalIsTally(ms, "banana");
    FreshTotalIsTally(ms, "cucumber");
    FreshTotalIsTally(ms, "dandelion");
  }

  function MultipleSalesMessages(): seq<Message> {
    [MultipleSales("apple", 10, 5),
     MultipleSales("apple", 15, 2),
     MultipleSales("banana", 20, 0),
     MultipleSales("banana", 25, 1),
     MultipleSales("cucumber", -30, 5),
     MultipleSales("cucumber", 35, 3)]
  }

  /** The category tallies of the stream above, in exact arithmetic. */
  lemma MultipleSalesTallies()
    ensures TallyAll(Tally(0, 0), MultipleSalesMessages(), "apple").total == 80
            && TallyAll(Tally(0, 0), MultipleSalesMessages(), "banana").total == 25
            && TallyAll(Tally(0, 0), MultipleSalesMessages(), "cucumber").total == -45
            && TallyAll(Tally(0, 0), MultipleSalesMessages(), "dandelion").total == 0
  {
  }

  /** A multiple-sales message adds price times count; a negative count is refused. */
  lemma MultipleSalesScenario()
    ensures var s := ProcessAll(Init(), MultipleSalesMessages());
            && TotalValue(s.sales, "apple") == 80
            && TotalValue(s.sales, "banana") == 25
            && TotalValue(s.sales, "cucumber") == -45
            && TotalValue(s.sales, "dandelion") == 0
            && Process(s, MultipleSales("dandelion", 1, -1)) == Failure(NegativeNumberOfSales)
  {
    var ms := MultipleSalesMessages();
    MultipleSalesTallies();
    FreshTotalIsTally(ms, "apple");
    FreshTotalIsTally(ms, "banana");
    FreshTotalIsTally(ms, "cucumber");
    FreshTotalIsTally(ms, "dandelion");
  }

  function AdjustmentMessages(): seq<Message> {
    [SingleSale("apple", 10),
     SingleSale("apple", 2),
     SingleSale("banana", -20),
     SingleSale("banana", 5),
     SingleSale("cucumber", 30),
     SingleSale("cucumber", 0),
     SingleSale("cucumber", -67),
     SaleAndAdjustment("cucumber", 3, "cucumber", Multiply, 10),
     MultipleSales("banana", 12, 5),
     SingleSale("cucumber", 50),
     SaleAndAdjustment("cucumber", 3, "banana", Subtract, 11)]
  }

  /** The category tallies of the stream above, in exact arithmetic. */
  lemma AdjustmentTallies()
    ensures TallyAll(Tally(0, 0), AdjustmentMessages(), "apple").total == 12
            && TallyAll(Tally(0, 0), AdjustmentMessages(), "dandelion").total == 0
  {
  }

  /** The tally of the category whose multiple sales a later message adjusts. */
  lemma AdjustmentBananaTally()
    ensures TallyAll(Tally(0, 0), AdjustmentMessages(), "banana") == Tally(7, -32)
  {
  }

  /** The tally of the category adjusted by its own sale's message. */
  lemma AdjustmentCucumberTally()
    ensures TallyAll(Tally(0, 0), AdjustmentMessages(), "cucumber") == Tally(6, -287)
  {
  }

  /**
   * Adjustments rewrite the sales held so far, including the sale of their
   * own message and every sale of a multiple-sales message.
   */
  lemma AdjustmentScenario()
    ensures var s := ProcessAll(Init(), AdjustmentMessages());
            && TotalValue(s.sales, "apple") == 12
            && TotalValue(s.sales, "banana") == -32
            && TotalValue(s.sales, "cucumber") == -287
            && TotalValue(s.sales, "dandelion") == 0
  {
    var ms := AdjustmentMessages();
    AdjustmentTallies();
    AdjustmentBananaTally();
    AdjustmentCucumberTally();
    FreshTotalIsTally(ms, "apple");
    FreshTotalIsTally(ms, "banana");
    FreshTotalIsTally(ms, "cucumber");
    FreshTotalIsTally(ms, "dandelion");
  }

  /** The five messages the termination test sends in every round. */
  function Round(): seq<Message> {
    [SingleSale("apple", 1),
     MultipleSales("banana", 1, 5),
     SaleAndAdjustment("cucumber", 3, "dandelion", Multiply, 1),
     MultipleSales("eclair", 100, 0),
     SingleSale("fondue", 2)]
  }

  /** `n` rounds: five messages each, none with a negative count. */
  function Rounds(n: nat): (r: seq<Message>)
    ensures |r| == 5 * n
    ensures forall i | 0 <= i < |r| :: !(r[i].MultipleSales? && r[i].numberOfSales < 0)
  {
    if n == 0 then [] else Rounds(n - 1) + Round()
  }

  lemma {:induction false} RoundsAppend(a: nat, b: nat)
    ensures Rounds(a + b) == Rounds(a) + Rounds(b)
    decreases b
  {
    if b == 0 {
      assert Rounds(a) + [] == Rounds(a);
    } else {
      RoundsAppend(a, b - 1);
      assert Rounds(a) + (Rounds(b - 1) + Round()) == (Rounds(a) + Rounds(b - 1)) + Round();
    }
  }

  /** A category that no round adjusts gains in every round what one round gives it. */
  lemma {:induction false} RoundsTally(n: nat, c: string, t: Tally)
    requires c != "dandelion" && TallyAll(Tally(0, 0), Round(), c) == t
    ensures TallyAll(Tally(0, 0), Rounds(n), c) == Tally(n * t.count, n * t.total)
  {
    if n > 0 {
      var before := TallyAll(Tally(0, 0), Rounds(n - 1), c);
      RoundsTally(n - 1, c, t);
      TallyAllAppend(Tally(0, 0), Rounds(n - 1), Round(), c);
      assert forall i | 0 <= i < |Round()| :: !Adjusts(Round()[i], c);
      UnadjustedTallyAdds(before, Round(), c);
      assert (n - 1) * t.count + t.count == n * t.count;
      assert (n - 1) * t.total + t.total == n * t.total;
    }
  }

  /** What one round gives each category, in exact arithmetic. */
  lemma RoundTallies()
    ensures TallyAll(Tally(0, 0), Round(), "apple") == Tally(1, 1)
    ensures TallyAll(Tally(0, 0), Round(), "banana") == Tally(5, 5)
    ensures TallyAll(Tally(0, 0), Round(), "cucumber") == Tally(1, 3)
    ensures TallyAll(Tally(0, 0), Round(), "eclair") == Tally(0, 0)
    ensures TallyAll(Tally(0, 0), Round(), "fondue") == Tally(1, 2)
  {
  }

  /** Ten rounds are exactly the 50 messages a processor accepts. */
  lemma TenRounds()
    ensures var s := ProcessAll(Init(), Rounds(10));
            && s.terminated
            && TotalValue(s.sales, "apple") == 10
            && TotalValue(s.sales, "banana") == 50
            && TotalValue(s.sales, "cucumber") == 30
            && TotalValue(s.sales, "eclair") == 0
            && TotalValue(s.sales, "fondue") == 20
  {
    var s := ProcessAll(Init(), Rounds(10));
    assert s.terminated by {
      CounterCountsAcceptedMessages(Init(), Rounds(10));
    }
    assert TotalValue(s.sales, "apple") == 10 by {
      RoundTallies();
      RoundsTally(10, "apple", Tally(1, 1));
      FreshTotalIsTally(Rounds(10), "apple");
    }
    assert TotalValue(s.sales, "banana") == 50 by {
      RoundTallies();
      RoundsTally(10, "banana", Tally(5, 5));
      FreshTotalIsTally(Rounds(10), "banana");
    }
    assert TotalValue(s.sales, "cucumber") == 30 by {
      RoundTallies();
      RoundsTally(10, "cucumber", Tally(1, 3));
      FreshTotalIsTally(Rounds(10), "cucumber");
    }
    assert TotalValue(s.sales, "eclair") == 0 by {
      RoundTallies();
      RoundsTally(10, "eclair", Tally(0, 0));
      FreshTotalIsTally(Rounds(10), "eclair");
    }
    assert TotalValue(s.sales, "fondue") == 20 by {
      RoundTallies();
      RoundsTally(10, "fondue", Tally(1, 2));
      FreshTotalIsTally(Rounds(10), "fondue");
    }
  }

  /**
   * After the 50th message, that is after 10 rounds, the processor is
   * terminated: any further rounds (the test sends 90) and a late
   * adjustment of "apple" change nothing.
   */
  lemma TerminationScenario(extra: nat)
    ensures var s := ProcessAll(Init(), Rounds(10 + extra) + [SaleAndAdjustment("cucumber", 3, "apple", Multiply, 100)]);
            && s.terminated
            && TotalValue(s.sales, "apple") == 10
            && TotalValue(s.sales, "banana") == 50
            && TotalValue(s.sales, "cucumber") == 30
            && TotalValue(s.sales, "eclair") == 0
            && TotalValue(s.sales, "fondue") == 20
  {
    var late := [SaleAndAdjustment("cucumber", 3, "apple", Multiply, 100)];
    var s := ProcessAll(Init(), Rounds(10));
    TenRounds();
    assert ProcessAll(Init(), Rounds(10 + extra) + late) == s by {
      RoundsAppend(10, extra);
      ProcessAllAppend(Init(), Rounds(10 + extra), late);
      ProcessAllAppend(Init(), Rounds(10), Rounds(extra));
      TerminatedIsFrozen(s, Rounds(extra));
      TerminatedIsFrozen(s, late);
    }
  }
}
