# MessageProcessor in Dafny

A model of the sales message processor in `com.jpmorgan.messageprocessor`,
with proofs about it. The processor accepts three kinds of message:

- a single sale of a category at a price;
- a number of sales of one category at one price;
- a sale together with a price adjustment of some category.

An adjustment adds, subtracts or multiplies an amount into the price of
every sale currently held under its category. The processor keeps:

- the sales of each category, in arrival order;
- the adjustment history of each category;
- a message counter and a termination flag.

After every 10th accepted message it reports each category's total value.
On the 50th accepted message it also reports the adjustment histories, and
then it terminates. A terminated processor ignores every later message,
except that a multiple-sales message with a negative count is still refused,
because the count is checked before the termination flag.

The model is layered as follows.

- `java_int.dfy` (module `JavaInt`): Java's 32-bit `int`.
  - The subset type `i32` holds the Java range.
  - `Wrap` is the two's-complement narrowing that every `int` operation performs.
  - `StreamSum` is `IntStream.sum`, a left fold in which every addition wraps.
- `operation.dfy` (module `Operations`): the closed enum `Operation`.
  - `Calculate` evaluates it with wrapping arithmetic.
  - `Exact` is its unbounded meaning.
- `sale.dfy` (module `Sales`): the `Sale` class, with its getters and setters.
- `adjustment.dfy` (module `Adjustments`): the `Adjustment` record.
  - The processor never mutates an adjustment, so the record is a datatype.
  - Its setters are record updates.
- `ledger.dfy` (module `Ledger`): the processor's state as a value, and each message as a pure transition.
  - `Process` handles one message and can fail; `ProcessAll` handles a stream of messages.
  - `ReportAfter` is the report that replaces the console output.
- `ledger_invariant.dfy`, `ledger_totals.dfy` and `ledger_streams.dfy`: properties of those transitions.
  - The invariant, and freezing after termination.
  - What each message does to each category's total.
  - Categories are independent, and a category's total can be computed from its messages alone.
- `message_processor.dfy` (module `Processor`): the `MessageProcessor` class.
  - Its fields are updated in place by methods with loops.
  - Each method is proved to perform the matching `Ledger` transition.
  - The constructor establishes the invariant, and the three message operations keep it.
- `scenarios.dfy` (module `Scenarios`): the expected values of the processor's JUnit tests, proved of the model.

## Model

| member | source | states |
|---|---|---|
| JavaInt.Wrap | src/com/jpmorgan/messageprocessor/Operation.java:10-26 | The Java `int` result is congruent to the exact result modulo 2^32, and equals it whenever the exact result is in range |
| JavaInt.WrapAdd | src/com/jpmorgan/messageprocessor/MessageProcessor.java:143 | Wrapping an intermediate sum before adding more gives the same `int` as wrapping once at the end |
| JavaInt.WrapMul | src/com/jpmorgan/messageprocessor/Operation.java:22-27 | Wrapping before a multiplication gives the same `int` as wrapping the exact product |
| JavaInt.WrapCongruent | src/com/jpmorgan/messageprocessor/Operation.java:8-27 | Values congruent modulo 2^32 become the same `int` |
| JavaInt.WrapAddCongruent | src/com/jpmorgan/messageprocessor/MessageProcessor.java:143 | Adding the same amount to values that wrap alike gives values that wrap alike |
| JavaInt.WrapShift | src/com/jpmorgan/messageprocessor/Operation.java:8-27 | Adding any multiple of 2^32 does not change the `int` produced |
| JavaInt.StreamSum | src/com/jpmorgan/messageprocessor/MessageProcessor.java:143 | `IntStream.sum`, which wraps at every step, equals the exact sum wrapped once, and equals the exact sum when that fits in an `int` |
| JavaInt.Repeat | src/com/jpmorgan/messageprocessor/MessageProcessor.java:112-114 | `n` copies of a value: length `n`, every element that value |
| JavaInt.WrappedSumRepeat | src/com/jpmorgan/messageprocessor/MessageProcessor.java:112-114 | Appending `n` copies of price `p` adds `p * n` to the sum, modulo 2^32 |
| Operations.Calculate | src/com/jpmorgan/messageprocessor/Operation.java:8-35 | ADD, SUBTRACT and MULTIPLY give `a + b`, `a - b` and `a * b` in Java `int` arithmetic: congruent to the exact result, and equal to it when in range; the result depends only on the variant and the two operands |
| Operations.SubtractUndoesAdd | src/com/jpmorgan/messageprocessor/Operation.java:10-19 | SUBTRACT with an amount undoes ADD with the same amount, for every pair of `int`s, overflow included |
| Operations.AddUndoesSubtract | src/com/jpmorgan/messageprocessor/Operation.java:10-19 | ADD with an amount undoes SUBTRACT with the same amount, overflow included |
| Operations.OperationExamples | src/com/jpmorgan/messageprocessor/test/OperationTest.java:11-36 | The expected results of the add, subtract and multiply unit tests |
| Operations.AddOverflowWraps | src/com/jpmorgan/messageprocessor/Operation.java:10-12 | Adding 1 to the largest `int` gives the smallest, as in Java |
| Sales.Sale.constructor | src/com/jpmorgan/messageprocessor/Sale.java:9-17 | A new sale returns the given type and price from its getters |
| Sales.Sale.GetType | src/com/jpmorgan/messageprocessor/Sale.java:15-17 | Returns the stored type |
| Sales.Sale.GetPrice | src/com/jpmorgan/messageprocessor/Sale.java:23-25 | Returns the stored price |
| Sales.Sale.SetType | src/com/jpmorgan/messageprocessor/Sale.java:19-21 | Sets the type and leaves the price unchanged |
| Sales.Sale.SetPrice | src/com/jpmorgan/messageprocessor/Sale.java:27-29 | Sets the price, which `GetPrice` then returns, and leaves the type unchanged |
| Adjustments.SetSaleType | src/com/jpmorgan/messageprocessor/Adjustment.java:25-27 | Changes only the category |
| Adjustments.SetOperation | src/com/jpmorgan/messageprocessor/Adjustment.java:33-35 | Changes only the operation |
| Adjustments.SetAmount | src/com/jpmorgan/messageprocessor/Adjustment.java:41-43 | Changes only the amount |
| Ledger.Init | src/com/jpmorgan/messageprocessor/MessageProcessor.java:28-34 | A fresh processor has counter 0, is running, holds nothing, and satisfies the invariant |
| Ledger.Append | src/com/jpmorgan/messageprocessor/MessageProcessor.java:44-50 | Appends one element to the end of a category's list, creating the list when absent; every other category is unchanged |
| Ledger.AppendRepeated | src/com/jpmorgan/messageprocessor/MessageProcessor.java:112-114 | `n` appends lengthen the category's list by `n`, create it only when `n > 0`, and leave other categories unchanged |
| Ledger.AppendRepeatedIsRepeat | src/com/jpmorgan/messageprocessor/MessageProcessor.java:112-114 | The loop of appends leaves the old list followed by `n` copies of the price |
| Ledger.Adjust | src/com/jpmorgan/messageprocessor/MessageProcessor.java:71-74 | Rewriting prices keeps length and order and replaces each price `x` with `calculate(x, amount)` |
| Ledger.ApplyAdjustment | src/com/jpmorgan/messageprocessor/MessageProcessor.java:59-76 | The adjustment is appended to its category's history even when the category has no sales; only that category's prices are rewritten; the counter and flag are unchanged |
| Ledger.Register | src/com/jpmorgan/messageprocessor/MessageProcessor.java:154-194 | The counter grows by one and the maps are unchanged; from a running state below the limit, the flag is set exactly when the counter reaches 50 |
| Ledger.ProcessSingleSale | src/com/jpmorgan/messageprocessor/MessageProcessor.java:83-93 | A terminated processor is left unchanged; a running one gets the sale appended to its category, keeps its adjustments and counts one more message |
| Ledger.ProcessMultipleSales | src/com/jpmorgan/messageprocessor/MessageProcessor.java:101-117 | Fails exactly when the count is negative, even on a terminated processor; otherwise a terminated processor is left unchanged, and a running one gets `n` copies of the sale appended to its category, keeps its adjustment histories and counts one more message |
| Ledger.ProcessSaleAndAdjustment | src/com/jpmorgan/messageprocessor/MessageProcessor.java:126-139 | A terminated processor is left unchanged; a running one appends the sale first and then applies the adjustment to the sales held, so a sale of the adjusted category is rewritten too; the adjustment joins its category's history and one more message is counted |
| Ledger.Process | src/com/jpmorgan/messageprocessor/MessageProcessor.java:83-139 | A message fails exactly when it is a multiple-sales message with a negative count |
| Ledger.TotalValue | src/com/jpmorgan/messageprocessor/MessageProcessor.java:141-146 | 0 for a category never written; otherwise the exact sum of its prices whenever that fits in an `int` |
| Ledger.Totals | src/com/jpmorgan/messageprocessor/MessageProcessor.java:164-168 | A summary lists exactly the categories with sales, each with its total value |
| Ledger.ReportAfter | src/com/jpmorgan/messageprocessor/MessageProcessor.java:158-192 | A report is made exactly on every 10th message and carries every category's total; the adjustment histories are added exactly on the 50th message, which is when the processor terminates |
| LedgerInvariant.AppendSaleKeepsInv | src/com/jpmorgan/messageprocessor/MessageProcessor.java:44-50 | Appending a sale keeps every list non-empty |
| LedgerInvariant.AppendRepeatedKeepsInv | src/com/jpmorgan/messageprocessor/MessageProcessor.java:112-114 | Any number of appended sales keeps the invariant |
| LedgerInvariant.ApplyAdjustmentKeepsInv | src/com/jpmorgan/messageprocessor/MessageProcessor.java:62-75 | An adjustment is filed under its own category, and rewriting prices keeps every list non-empty |
| LedgerInvariant.RegisterKeepsInv | src/com/jpmorgan/messageprocessor/MessageProcessor.java:155-191 | Counting a message on a running processor keeps `counter <= 50` and `terminated <==> counter == 50` |
| LedgerInvariant.ProcessStep | src/com/jpmorgan/messageprocessor/MessageProcessor.java:83-139 | Every accepted message keeps the invariant; on a running processor it adds exactly one to the counter, and on a terminated one it changes nothing |
| LedgerInvariant.ProcessAllKeepsInv | src/com/jpmorgan/messageprocessor/MessageProcessor.java:83-139 | Every stream of messages keeps the invariant |
| LedgerInvariant.TerminatedIsFrozen | src/com/jpmorgan/messageprocessor/MessageProcessor.java:86-132 | Once terminated, no stream of messages changes the state, so totals freeze |
| LedgerInvariant.CounterCountsAcceptedMessages | src/com/jpmorgan/messageprocessor/MessageProcessor.java:155-191 | A stream of valid messages advances the counter by its length, capped at 50, and the processor is terminated exactly when the counter is 50 |
| LedgerTotals.AdjustedTotalStep | src/com/jpmorgan/messageprocessor/MessageProcessor.java:71-74 | One more adjusted price adds its own exact result to the adjusted total |
| LedgerTotals.AdjustedTotalCongruent | src/com/jpmorgan/messageprocessor/MessageProcessor.java:71-74 | Totals that wrap alike still wrap alike after the same adjustment |
| LedgerTotals.SumAdjust | src/com/jpmorgan/messageprocessor/MessageProcessor.java:71-74 | Adjusting every price moves the sum by `n * amount` for add and subtract, and multiplies it by `amount` for multiply, modulo 2^32 |
| LedgerTotals.AppendTotal | src/com/jpmorgan/messageprocessor/MessageProcessor.java:44-50 | Appending a sale adds its price to the category's total, wrapping |
| LedgerTotals.AppendRepeatedTotal | src/com/jpmorgan/messageprocessor/MessageProcessor.java:112-114 | Appending `n` sales at price `p` adds `p * n` to the category's total, wrapping |
| LedgerTotals.SingleSaleTotals | src/com/jpmorgan/messageprocessor/MessageProcessor.java:83-93 | A single sale appends its price to its category, adds it to that total, and leaves every other category unchanged |
| LedgerTotals.MultipleSalesTotals | src/com/jpmorgan/messageprocessor/MessageProcessor.java:101-117 | A non-negative count succeeds, counts exactly one message whatever the count (0 included), adds `n` sales and `p * n` to the total, and leaves other categories unchanged |
| LedgerTotals.AdjustmentTotals | src/com/jpmorgan/messageprocessor/MessageProcessor.java:59-76 | An adjustment rewrites its category's prices pointwise, moves that total by the operation, and leaves other categories unchanged |
| LedgerTotals.SaleAndAdjustmentTotals | src/com/jpmorgan/messageprocessor/MessageProcessor.java:126-139 | The sale is appended first, then the named category is adjusted, including the new sale when the categories match |
| LedgerTotals.AdjustmentReachesOnlyEarlierSales | src/com/jpmorgan/messageprocessor/MessageProcessor.java:134-136 | An adjustment rewrites the sale of its own message and not a sale that arrives after it |
| LedgerStreams.StepIsCategoryStep | src/com/jpmorgan/messageprocessor/MessageProcessor.java:83-139 | On a running processor, a message changes a category's prices as a function of that category's prices and the message alone |
| LedgerStreams.SingleSaleIsCategoryStep | src/com/jpmorgan/messageprocessor/MessageProcessor.java:83-93 | A single sale extends only its own category |
| LedgerStreams.MultipleSalesIsCategoryStep | src/com/jpmorgan/messageprocessor/MessageProcessor.java:101-117 | A multiple-sales message extends only its own category, by `n` copies of the price |
| LedgerStreams.SaleAndAdjustmentIsCategoryStep | src/com/jpmorgan/messageprocessor/MessageProcessor.java:126-139 | A sale-and-adjustment message extends the sale's category, then rewrites the adjusted category |
| LedgerStreams.CategoriesAreIndependent | src/com/jpmorgan/messageprocessor/MessageProcessor.java:83-139 | Until the 50-message limit, each category's prices are the history of the messages that name it, whatever other categories receive |
| LedgerStreams.ProcessAllAppend | src/com/jpmorgan/messageprocessor/MessageProcessor.java:83-139 | Processing two streams one after the other is processing their concatenation |
| LedgerStreams.TallyStepDescribes | src/com/jpmorgan/messageprocessor/MessageProcessor.java:83-139 | One message moves a category's count and exact total consistently with its prices, modulo 2^32 |
| LedgerStreams.SaleDescribes | src/com/jpmorgan/messageprocessor/MessageProcessor.java:44-50 | A sale adds one to the count and its price to the total |
| LedgerStreams.SalesDescribe | src/com/jpmorgan/messageprocessor/MessageProcessor.java:112-114 | `n` sales add `n` to the count and `p * n` to the total |
| LedgerStreams.AdjustmentDescribes | src/com/jpmorgan/messageprocessor/MessageProcessor.java:70-75 | An adjustment keeps the count and moves the total by the operation |
| LedgerStreams.TallyAllDescribes | src/com/jpmorgan/messageprocessor/MessageProcessor.java:83-146 | The count and exact total computed from a category's messages agree with its price history, modulo 2^32 |
| LedgerStreams.TallyAllAppend | src/com/jpmorgan/messageprocessor/MessageProcessor.java:83-139 | The tally of a concatenated stream is the tally of the second stream after the first |
| LedgerStreams.UnadjustedTallyAdds | src/com/jpmorgan/messageprocessor/MessageProcessor.java:83-117 | A stream that never adjusts a category adds the same count and total to it, whatever it held before |
| LedgerStreams.FreshTotalIsTally | src/com/jpmorgan/messageprocessor/MessageProcessor.java:141-146 | From a fresh processor, a category's total value after up to 50 messages is the exact total of its messages, wrapped to an `int` |
| Processor.MessageProcessor.constructor | src/com/jpmorgan/messageprocessor/MessageProcessor.java:28-34 | A new processor is the fresh state and satisfies the invariant |
| Processor.MessageProcessor.AddSale | src/com/jpmorgan/messageprocessor/MessageProcessor.java:41-51 | Appends one price to its category's list, creating it when absent; the counter, the flag and the adjustments are unchanged |
| Processor.MessageProcessor.AddAdjustment | src/com/jpmorgan/messageprocessor/MessageProcessor.java:59-76 | The loop rewrites, in place, every price held under the category; the new state is `ApplyAdjustment` of the old |
| Processor.MessageProcessor.RegisterMessageProcessed | src/com/jpmorgan/messageprocessor/MessageProcessor.java:154-194 | The new state is `Register` of the old, and the report is the one due at the new counter |
| Processor.MessageProcessor.ProcessSingleSale | src/com/jpmorgan/messageprocessor/MessageProcessor.java:83-93 | Keeps the invariant, performs the single-sale transition, and reports nothing when already terminated |
| Processor.MessageProcessor.ProcessMultipleSales | src/com/jpmorgan/messageprocessor/MessageProcessor.java:101-117 | A negative count fails and leaves the state unchanged; otherwise the loop of appends performs the multiple-sales transition and keeps the invariant |
| Processor.MessageProcessor.ProcessSingleSaleAndPriceAdjustment | src/com/jpmorgan/messageprocessor/MessageProcessor.java:126-139 | Keeps the invariant and performs the sale-then-adjustment transition |
| Processor.MessageProcessor.GetTotalValue | src/com/jpmorgan/messageprocessor/MessageProcessor.java:141-146 | The wrapping stream sum of the category's prices is its total value: 0 when absent, the exact sum when it fits |
| Scenarios.Rounds | src/com/jpmorgan/messageprocessor/test/MessageProcessorTest.java:86-92 | `n` rounds of the termination test are `5 * n` messages, none with a negative count |
| Scenarios.RoundsAppend | src/com/jpmorgan/messageprocessor/test/MessageProcessorTest.java:86-92 | `a + b` rounds are `a` rounds followed by `b` rounds |
| Scenarios.RoundsTally | src/com/jpmorgan/messageprocessor/test/MessageProcessorTest.java:86-92 | A category no round adjusts gains, over `n` rounds, `n` times what one round gives it |
| Scenarios.SingleSalesScenario | src/com/jpmorgan/messageprocessor/test/MessageProcessorTest.java:12-28 | The single-sale test's expected totals: 12, -15, -37, and 0 for a category never sold |
| Scenarios.MultipleSalesScenario | src/com/jpmorgan/messageprocessor/test/MessageProcessorTest.java:30-49 | The multiple-sales test's expected totals: 80, 25, -45 and 0; a negative count fails |
| Scenarios.AdjustmentScenario | src/com/jpmorgan/messageprocessor/test/MessageProcessorTest.java:51-78 | The adjustment test's expected totals: 12, -32, -287 and 0 |
| Scenarios.TenRounds | src/com/jpmorgan/messageprocessor/test/MessageProcessorTest.java:80-102 | Ten rounds are the 50 accepted messages: the processor is terminated with totals 10, 50, 30, 0 and 20 |
| Scenarios.TerminationScenario | src/com/jpmorgan/messageprocessor/test/MessageProcessorTest.java:80-103 | However many rounds follow the tenth (the test sends 90 more), plus a late adjustment of "apple", the processor stays terminated with totals 10, 50, 30, 0 and 20 |

## Left out

- Console output: the summaries printed by `registerMessageProcessed` are not modelled as text. This covers the `MessageFormat` currency rendering of `getTotalValue(...) / 100.0`, which is floating point. `Ledger.ReportAfter` is the abstract content of each report: the totals map, plus the adjustment histories on the 50th message.
- HashMap iteration order: reports are maps, so the order in which categories are printed is not modelled.
- The Java `assert x != null` checks: Dafny strings cannot be null.
- A null `Operation`: in Java, a sale-and-adjustment message with a null operation for a category that holds sales records the sale and the adjustment, then fails at `calculate` (MessageProcessor.java line 73) before the message is counted. An `Operation` value here is always one of the three variants, so that path is not modelled.
- The `RuntimeException` for a negative count is a `Failure(NegativeNumberOfSales)` result that leaves the state unchanged.
- Processor.MessageProcessor: holds each category's sales by value, as a sequence of prices, and not as `Sale` objects. Each `Sale` lives in exactly one list and is never aliased, so object identity is lost. A sale's own type field is not stored either: it always equals the key of the list that holds the sale, so nothing observable is lost with it. The in-place `setPrice` of the adjustment loop is the pointwise update of that sequence. The `Sale` class itself is modelled on its own in module `Sales`.
- Adjustment constructor and getters: the datatype constructor and its fields are the constructor and getters, so they have no members of their own.
- The processor's `counter` is a Java `int` that could wrap, but it never passes 50. It is a `nat` here, and the invariant bounds it.
- The JUnit harness itself: only the tests' expected values are used, as lemmas in module `Scenarios`.
- Scenarios.TerminationScenario: states the termination test for any number of extra rounds. The test's own loop counter is not modelled.
