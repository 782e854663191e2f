/**
 * The message processor: a state machine over a message counter, a
 * termination flag, the sales of each category and each category's
 * adjustment history. Every public operation is proved to follow the
 * matching transition of module Ledger.
 */
module Processor {
  import opened JavaInt
  import opened Operations
  import opened Adjustments
  import opened Ledger
  import opened LedgerInvariant

  class MessageProcessor {
    var counter: nat
    var terminated: bool
    var typeToAdjustments: map<string, seq<Adjustment>>
    /** Each category's sales, as the prices they currently hold, in arrival order. */
    var typeToSales: map<string, seq<i32>>

    /** The state as a value, for the transitions of module Ledger. */
    ghost function Abstract(): State
      reads this
    {
      State(counter, terminated, typeToSales, typeToAdjustments)
    }

    ghost predicate Valid()
      reads this
    {
      Inv(Abstract())
    }

    constructor ()
      ensures Valid() && Abstract() == Init()
    {
      counter := 0;
      terminated := false;
      typeToAdjustments := map[];
      typeToSales := map[];
    }

    /** Appends a new sale to the list of its category, creating the list when absent. */
    method AddSale(saleType: string, salePrice: i32)
      modifies this
      ensures typeToSales == Append(old(typeToSales), saleType, salePrice)
      ensures counter == old(counter) && terminated == old(terminated)
      ensures typeToAdjustments == old(typeToAdjustments)
    {
      if saleType in typeToSales {
        typeToSales := typeToSales[saleType := typeToSales[saleType] + [salePrice]];
      } else {
        typeToSales := typeToSales[saleType := [salePrice]];
      }
    }

    /**
     * Records the adjustment in the history of its category, then rewrites
     * the price of every sale currently held under that category.
     */
    method AddAdjustment(saleType: string, op: Operation, amount: i32)
      modifies this
      ensures Abstract() == ApplyAdjustment(old(Abstract()), saleType, op, amount)
    {
      var adjustment := Adjustment(saleType, op, amount);
      if saleType in typeToAdjustments {
        typeToAdjustments := typeToAdjustments[saleType := typeToAdjustments[saleType] + [adjustment]];
      } else {
        typeToAdjustments := typeToAdjustments[saleType := [adjustment]];
      }

      if saleType in typeToSales {
        var sales := typeToSales[saleType];
        var i := 0;
        while i < |sales|
          invariant 0 <= i <= |sales| == |typeToSales[saleType]|
          invariant forall k | 0 <= k < i ::
                      sales[k] == Calculate(op, typeToSales[saleType][k], amount)
          invariant sales[i..] == typeToSales[saleType][i..]
        {
          sales := sales[i := Calculate(op, sales[i], amount)];
          i := i + 1;
        }
        assert sales == Adjust(typeToSales[saleType], op, amount);
        typeToSales := typeToSales[saleType := sales];
      }
    }

    /** Counts the message; reports every 10th, and on the 50th reports and terminates. */
    method RegisterMessageProcessed() returns (report: Report)
      modifies this
      ensures Abstract() == Register(old(Abstract()))
      ensures report == ReportAfter(Abstract())
    {
      counter := counter + 1;
      if counter % REPORT_INTERVAL == 0 {
        var totals := map c | c in typeToSales :: GetTotalValue(c);
        assert totals == Totals(typeToSales);
        if counter % MESSAGE_LIMIT == 0 {
          report := FinalSummary(totals, typeToAdjustments);
          terminated := true;
        } else {
          report := SaleSummary(totals);
        }
      } else {
        report := Silent;
      }
    }

    method ProcessSingleSale(saleType: string, salePrice: i32) returns (report: Report)
      requires Valid()
      modifies this
      ensures Valid()
      ensures Abstract() == Ledger.ProcessSingleSale(old(Abstract()), saleType, salePrice)
      ensures report == if old(terminated) then Silent else ReportAfter(Abstract())
    {
      if terminated {
        return Silent;
      }
      AddSale(saleType, salePrice);
      report := RegisterMessageProcessed();
      ProcessStep(old(Abstract()), SingleSale(saleType, salePrice));
    }

    /** Fails on a negative count, before looking at the termination flag. */
    method ProcessMultipleSales(saleType: string, salePrice: i32, numberOfSales: i32)
      returns (result: Result<Report>)
      requires Valid()
      modifies this
      ensures Valid()
      ensures numberOfSales < 0 ==>
                result == Failure(NegativeNumberOfSales) && Abstract() == old(Abstract())
      ensures numberOfSales >= 0 ==>
                && Ledger.ProcessMultipleSales(old(Abstract()), saleType, salePrice, numberOfSales)
                   == Success(Abstract())
                && result == Success(if old(terminated) then Silent else ReportAfter(Abstract()))
    {
      if numberOfSales < 0 {
        return Failure(NegativeNumberOfSales);
      }
      if terminated {
        return Success(Silent);
      }
      ghost var before := Abstract();
      var i := 0;
      while i < numberOfSales
        invariant 0 <= i <= numberOfSales
        invariant Abstract() == before.(sales := AppendRepeated(before.sales, saleType, salePrice, i))
      {
        AddSale(saleType, salePrice);
        i := i + 1;
      }
      var report := RegisterMessageProcessed();
      result := Success(report);
      ProcessStep(before, MultipleSales(saleType, salePrice, numberOfSales));
    }

    /** The sale is added first, so an adjustment of its own category rewrites it too. */
    method ProcessSingleSaleAndPriceAdjustment(saleType: string, salePrice: i32,
                                               adjustmentSaleType: string, op: Operation, amount: i32)
      returns (report: Report)
      requires Valid()
      modifies this
      ensures Valid()
      ensures Abstract() == ProcessSaleAndAdjustment(old(Abstract()), saleType, salePrice,
                                                     adjustmentSaleType, op, amount)
      ensures report == if old(terminated) then Silent else ReportAfter(Abstract())
    {
      if terminated {
        return Silent;
      }
      AddSale(saleType, salePrice);
      AddAdjustment(adjustmentSaleType, op, amount);
      report := RegisterMessageProcessed();
      ProcessStep(old(Abstract()), SaleAndAdjustment(saleType, salePrice, adjustmentSaleType, op, amount));
    }

    /** `IntStream.sum` over a category's prices; 0 for a category never written. */
    function GetTotalValue(saleType: string): (r: i32)
      reads this
      ensures r == TotalValue(typeToSales, saleType)
    {
      if saleType in typeToSales then StreamSum(typeToSales[saleType])
      else 0
    }
  }
}
