# crypto-taxes: the lot-matching engine, modelled in Dafny

This project models `process` in `main.py` of crypto-taxes, together with the
grand total that the script prints. `process` takes parsed market orders, each a
Buy or a Sell of some amount of one asset at a unit price and a date. It
computes one realized profit per asset:

- The records are ordered by `(date, action)`, so a Buy comes before a Sell of
  the same date. Each asset is then taken in order of first appearance.
- Each asset's records go through a max-heap of open buy lots keyed by
  `(-price, amount)`.
  - A Buy pushes a lot.
  - A Sell runs a loop. It pops the dearest lot and charges
    `price_bought * amount_needed` to the cost basis. It pushes back any
    remainder. It stops once the accumulated amount covers the sale or no lot
    is left.
  - The Sell's profit `amount*price - cost` is written to `profits[asset]`. It
    replaces any earlier value, so the latest Sell wins.
- An asset with a single record is skipped.

Modules, one per file:

- `Options` (options.dfy) holds the optional value used for lookups and booked
  profits.
- `Lots` (lots.dfy) covers open lots and the heap.
  - `Precedes` is the heap's key order: higher price first, then smaller
    amount.
  - The heap is represented by its lots listed in pop order: a pop takes the
    head, and a push is `Insert`.
  - The heap laws tie this to a heap seen as an unordered bag whose push
    appends and whose pop is `PopMax`:
    - `PopMaxHeadsOrder`: a pop on the bag takes the head of the pop order.
    - `PopOrderIgnoresPushOrder`: the pop order depends only on which lots
      the bag holds.
    - `SortedUnique`: the pop order of a bag is unique.
  - `Total` is the quantity held. `Value` is what the lots cost to buy.
- `Matching` (matching.dfy) covers the Sell loop.
  - `Match` is the loop as written.
  - `MatchNeeded` advances the accumulator by the amount actually taken
    instead.
  - `Sell` is the loop as a method, proved equal to `Match`.
- `Ledger` (ledger.dfy) covers one asset's records replayed in order.
  - `Step` applies one record; `Replay` applies them all in order.
  - `State.last` is the profit booked by the latest Sell.
- `Engine` (engine.dfy) covers the whole of `process`:
  - the insertion-ordered profits dictionary;
  - the `(date, action)` sort;
  - grouping by asset;
  - the methods `ProcessAsset` and `Process`;
  - the grand total.

Amounts and prices are exact `real`s. Dates are integer timestamps.

## Model

| member | source | states |
|---|---|---|
| `Lots.Precedes` | main.py:49-57 | the heap key `(-price, amount)` as an order on lots: the higher price leaves first, and on equal price the smaller amount; `PrecedesIsKeyOrder` states what it is |
| `Lots.PrecedesIsKeyOrder` | main.py:49-57 | the key orders any two lots, only equal lots tie, and it is transitive, so the pop order is fully determined |
| `Lots.Insert` | main.py:49-68 | a push on the lots kept in pop order; it grows the heap by one, and the `Insert` lemmas below state which lot it adds and that order is kept |
| `Lots.InsertPermutes` | main.py:49 | a push adds exactly the pushed lot to the open lots and keeps every other |
| `Lots.InsertSorted` | main.py:49 | a push keeps the lots in the heap's pop order (higher price first, smaller amount first on equal price) |
| `Lots.InsertTotal` | main.py:49 | a push adds the lot's amount to the quantity held |
| `Lots.InsertValue` | main.py:49 | a push adds the lot's purchase cost `price*amount` to the value held |
| `Lots.OrderedIsPopOrder` | main.py:49 | the pop-order listing of a heap holds exactly its lots, in key order |
| `Lots.SortedUnique` | main.py:57 | two key-ordered listings of the same lots are equal, so the pop order is determined by the lots alone |
| `Lots.PopOrderIgnoresPushOrder` | main.py:49-57 | two heaps holding the same lots release them in the same order, however they were pushed |
| `Lots.PopMax` | main.py:57 | a pop on the heap seen as a bag; it removes one lot, and the `PopMax` lemmas below state which |
| `Lots.PopMaxPermutes` | main.py:57 | a pop takes out exactly one lot and keeps all the others |
| `Lots.PopMaxTakesFirst` | main.py:57-58 | the popped lot precedes every lot left: no higher price remains, and on equal price no smaller amount remains |
| `Lots.PopMaxHeadsOrder` | main.py:57 | the popped lot is the head of the pop order, and the rest of the pop order is that of the heap left |
| `Lots.WellFormedInsert` | main.py:49 | pushing a lot of non-negative amount keeps the open lots in pop order with no negative amount |
| `Lots.TotalNonNegative` | main.py:56 | lots with non-negative amounts hold a non-negative quantity |
| `Matching.Min` | main.py:59 | `amount_needed` is at most what is still to sell and at most the popped lot, and equals one of them |
| `Matching.NeededWithinLot` | main.py:59-66 | `amount_needed` is between nothing and the popped lot's amount, and a remainder is pushed back exactly when the lot holds more than is still to sell |
| `Matching.Leftover` | main.py:62-68 | popping the first lot and pushing back its remainder removes exactly `amount_needed` from the quantity held and `price_bought * amount_needed` from the purchase value |
| `Matching.Match` | main.py:56-68 | the loop as written, with the accumulator advanced by `amount_bought`; its meaning is stated by the lemmas below and by `Sell` |
| `Matching.Sell` | main.py:53-68 | the loop leaves exactly the open lots and cost basis of `Match`, the loop as written |
| `Matching.MatchEnds` | main.py:56 | the loop ends with the accumulated amount covering the sale or with no lot left |
| `Matching.AdvanceByBoughtIsHarmless` | main.py:61 | advancing the accumulator by `amount_bought` instead of `amount_needed` changes neither the lots left nor the cost basis, and never accumulates less |
| `Matching.MatchedIsLedgerDrop` | main.py:56-62 | the amounts taken add up to what the open lots lost, which is the amount sold or, when the lots run short, all they held |
| `Matching.CostIsValueDrop` | main.py:60 | the cost basis is the purchase value that left the open lots: each amount taken is charged at its own lot's price |
| `Matching.MatchTakesFromFront` | main.py:57-68 | a Sell drops a prefix of the pop order; at most one lot, the last popped, returns cut to a smaller positive amount at its own price; no other lot changes (the cut amount is stated by `CutIsRemainder`) |
| `Matching.CutIsRemainder` | main.py:59-68 | the lot cut on the last pass goes back holding exactly `amount_bought - amount_needed`, where `amount_needed` is what was still to sell after the lots popped whole |
| `Matching.RemnantWellFormed` | main.py:66-68 | what is left after popping from the front of well-formed lots is well formed |
| `Matching.MatchKeepsWellFormed` | main.py:56-68 | a Sell keeps the open lots in pop order with no negative amount |
| `Matching.PoppedNotCheaper` | main.py:57-58 | every lot taken is priced at least as high as every lot left open |
| `Matching.SellTakesDearest` | main.py:56-68 | a Sell on lots in pop order takes only lots priced at least as high as any it leaves |
| `Ledger.Profit` | main.py:70 | a Sell's profit from its cost basis; `SellBooksProfit` states it as proceeds less the purchase value that left the open lots |
| `Ledger.Step` | main.py:47-72 | a Buy leaves the booked profit alone; a Sell always books one |
| `Ledger.Replay` | main.py:42-71 | one asset's rows applied in order from an empty heap and no profit; the `Ledger` lemmas below state what it books and keeps open |
| `Ledger.BuyAddsLot` | main.py:47-49 | a Buy adds exactly the lot `(price, amount)` to the asset's open lots and books nothing |
| `Ledger.SellBooksProfit` | main.py:70-71 | a Sell books `amount*price` less the purchase value that left the open lots |
| `Ledger.SellFromNothing` | main.py:53-70 | a Sell with no open lots leaves none and books the whole `amount*price` |
| `Ledger.SellDrawsDown` | main.py:56-68 | a Sell removes its amount from the quantity held, or all of it when the lots hold less |
| `Ledger.NoProfitIffNoSell` | main.py:71 | an asset's records book a profit if and only if one of them is a Sell |
| `Ledger.LastSellWins` | main.py:71 | the booked profit is that of the last Sell; later Buys do not change it, and earlier Sells are overwritten |
| `Ledger.OnlyBuysKeepEveryLot` | main.py:47-49 | with Buys only, the open lots are exactly the bought lots and nothing is booked |
| `Ledger.ReplayWellFormed` | main.py:42-68 | with non-negative amounts, the open lots stay in pop order with no negative amount across all records |
| `Ledger.WorkedExample` | main.py:40-72 | Buys of 10 at 5 and 20 at 3, then a Sell of 4 at 15, book 40 and leave 6 at 5 and 20 at 3 open |
| `Ledger.WorkedExampleTwoPops` | main.py:40-72 | Buys of 5 at 10 and 3 at 20, then a Sell of 4 at 15, use the lot at 20 whole and 1 unit at 10, book -10 and leave 4 at 10 open |
| `Engine.Keys` | main.py:74 | the dictionary's keys are its entries' assets, in insertion order |
| `Engine.Lookup` | main.py:71 | a key reads a value if and only if it is in the dictionary |
| `Engine.Put` | main.py:71 | assigning an existing key keeps the keys in place; a new key is appended at the end |
| `Engine.PutThenLookup` | main.py:71 | after `profits[asset] = profit` that key reads `profit` and every other key reads as before |
| `Engine.PutOverwrites` | main.py:71 | a second assignment to the same key replaces the first |
| `Engine.GrandTotal` | main.py:136 | the grand total of the profits dictionary; `GrandTotalPut` states how an assignment moves it |
| `Engine.GrandTotalPut` | main.py:136 | assigning one asset's profit moves the grand total by the new value less the old one (nothing for a new key) |
| `Engine.InsertRecordPermutes` | main.py:30 | placing one record into ordered records adds exactly that record |
| `Engine.InsertRecordChronological` | main.py:30 | placing a record keeps the records in `(date, action)` order |
| `Engine.SortRecords` | main.py:28-30 | the sort by `(date, action)`; it keeps the number of records, and `SortRecordsSorts` states the order and the permutation |
| `Engine.SortRecordsSorts` | main.py:30 | the records end up in `(date, action)` order, Buy before Sell on the same date, as a permutation of the input |
| `Engine.Assets` | main.py:27 | each asset is listed once, and the list holds exactly the assets that have records (the order is stated by `AssetsFirstAppearance`) |
| `Engine.FirstOf` | main.py:27 | the position of an asset's first record: a record of that asset is there, and none comes before it |
| `Engine.AssetsFirstAppearance` | main.py:27 | the assets are listed in the order of their first records, as `unique()` lists them |
| `Engine.RowsOf` | main.py:34 | an asset's rows are exactly the records of that asset |
| `Engine.RowsOfCounts` | main.py:34-38 | every record of the asset occurs in its rows as often as among all records, so two identical rows still count as two for the one-row skip |
| `Engine.RowsOfChronological` | main.py:28-34 | an asset's rows, taken from the ordered records, are in `(date, action)` order |
| `Engine.Expected` | main.py:33-71 | what the engine books for one asset: nothing for a single record, else the last Sell's profit over its rows in `(date, action)` order; `BookedIffSold` and `LastSellWins` state when and what |
| `Engine.BookedIffSold` | main.py:37-71 | an asset gets a profit if and only if it has more than one record and one of them is a Sell |
| `Engine.Booked` | main.py:33-74 | the assets with a profit are those assets listed that book one |
| `Engine.BookedDistinct` | main.py:71-74 | no asset gets two entries in the profits |
| `Engine.BookRecord` | main.py:47-71 | a Buy pushes its lot and leaves the dictionary alone; a Sell runs the loop and writes its profit under the asset, replacing any earlier one |
| `Engine.ProcessAsset` | main.py:37-72 | an asset with one record is skipped; otherwise its rows are replayed from an empty heap, and `profits[asset]` ends holding the last Sell's profit, or is left untouched when there is no Sell |
| `Engine.BookNext` | main.py:33-72 | processing one more asset keeps the dictionary, its lookups and its total in step with the assets done |
| `Engine.ExpectedNeedsRecords` | main.py:27-33 | an asset without records gets no profit |
| `Engine.Process` | main.py:25-75 | the profits hold one entry per asset that booked a profit, in first-appearance order, with no asset twice; each reads that asset's last Sell profit; the total is their sum |

## Left out

- The log parser and its regular expressions (main.py:10-23, 77-120) are not part of this model. Records enter as values.
- The command line and its file default (main.py:122-135) are not part of this model.
- All printing, including the trace lines inside `process`, is not part of this model.
- Floating-point rounding of `float(...)` (main.py:44-45) is not modelled. Amounts and prices are exact reals.
- The fee, total and unit fields of a record are not modelled. `process` never reads them.
- `data.apply(pd.to_numeric, errors='ignore')` (main.py:26) is not modelled. Its result is discarded.
- pandas' order for records of the same asset, date and action is left out: the sort it uses is not stable. `SortRecords` keeps their input order, which is one order pandas may produce.
- The heap's array layout is left out: `heapq` keeps a binary heap in a list. The model keeps the lots in pop order, so a pop takes the head and a push is `Insert`. The `Lots` heap laws tie this to push and pop-max on an unordered bag.
- Process: with no records at all, the source's `pd.DataFrame([])` (main.py:118) has no `asset` column, so main.py:27 raises `KeyError`. The model returns an empty dictionary and a total of 0 instead.
- The conversion of the profits dictionary to a DataFrame (main.py:74) is modelled as the dictionary itself. `Process` states the dictionary's keys in order and the value under each key.
- Lots of equal price leave the heap in the order of the tuple key `(-price, amount)`: the smaller amount leaves first. The model follows this.
