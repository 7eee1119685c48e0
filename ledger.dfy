/** The records of one asset, replayed in order: a Buy opens a lot, a Sell
    runs the matching loop against the open lots and books a profit that
    replaces any profit booked before for the asset. */
module Ledger {
  import opened Options
  import opened Lots
  import opened Matching

  /** The two kinds of market order in the trading log. `Buy` sorts before
      `Sell`, as the strings "Buy" and "Sell" do. */
  datatype Action = Buy | Sell

  /** A parsed transaction: what was done, to which asset, how many units,
      at what unit price, and when (a timestamp). */
  datatype Record = Record(action: Action, asset: string, amount: real, price: real, date: int)

  /** What the engine holds for one asset between records: the open lots in
      pop order and the profit booked by the latest Sell, if any. */
  datatype State = State(open: seq<Lot>, last: Option<real>)

  /** The lot a Buy opens. */
  function LotOf(r: Record): Lot
  {
    Lot(r.price, r.amount)
  }

  /** What a Sell brings in: its amount at its price. */
  function Proceeds(r: Record): real
  {
    r.amount * r.price
  }

  /** Profit of a Sell whose matched lots cost `cost`. */
  function Profit(r: Record, cost: real): real
  {
    Proceeds(r) - cost
  }

  /** One record applied to the asset's state. */
  function Step(s: State, r: Record): (t: State)
    ensures r.action == Buy ==> t.last == s.last
    ensures r.action == Sell ==> t.last.Some?
  {
    match r.action
    case Buy => State(Insert(LotOf(r), s.open), s.last)
    case Sell =>
      var m := Match(s.open, r.amount, 0.0, 0.0);
      State(m.open, Some(Profit(r, m.cost)))
  }

  /** The asset's records replayed from no open lots and no profit. */
  function Replay(rows: seq<Record>): State
  {
    if rows == [] then State([], None) else Step(Replay(rows[..|rows| - 1]), rows[|rows| - 1])
  }

  lemma ReplayAppend(rows: seq<Record>, r: Record)
    ensures Replay(rows + [r]) == Step(Replay(rows), r)
  {
    assert (rows + [r])[..|rows|] == rows;
  }

  lemma ReplayNext(rows: seq<Record>, i: nat)
    requires i < |rows|
    ensures Replay(rows[..i + 1]) == Step(Replay(rows[..i]), rows[i])
  {
    assert rows[..i + 1] == rows[..i] + [rows[i]];
    ReplayAppend(rows[..i], rows[i]);
  }

  /** A Buy adds exactly its own lot to the open lots and books nothing. */
  lemma BuyAddsLot(s: State, r: Record)
    requires r.action == Buy
    ensures multiset(Step(s, r).open) == multiset(s.open) + multiset{Lot(r.price, r.amount)}
    ensures Step(s, r).last == s.last
  {
    InsertPermutes(LotOf(r), s.open);
  }

  lemma StepOnSell(s: State, r: Record)
    requires r.action == Sell
    ensures Step(s, r).open == Match(s.open, r.amount, 0.0, 0.0).open
    ensures Step(s, r).last == Some(Profit(r, Match(s.open, r.amount, 0.0, 0.0).cost))
  {
    var m := Match(s.open, r.amount, 0.0, 0.0);
    assert Step(s, r) == State(m.open, Some(Profit(r, m.cost)));
  }

  /** A Sell books the sale proceeds less what the lots it used cost: the
      purchase value that left the open lots. */
  lemma SellBooksProfit(s: State, r: Record)
    requires r.action == Sell
    ensures Step(s, r).last == Some(Proceeds(r) - (Value(s.open) - Value(Step(s, r).open)))
  {
    StepOnSell(s, r);
    CostIsValueDrop(s.open, r.amount, 0.0, 0.0);
  }

  /** With no open lots a Sell costs nothing: the profit is the whole sale. */
  lemma SellFromNothing(last: Option<real>, r: Record)
    requires r.action == Sell
    ensures Step(State([], last), r) == State([], Some(Proceeds(r)))
  {
    StepOnSell(State([], last), r);
    Stop([], r.amount, 0.0, 0.0);
  }

  /** A Sell of a non-negative amount removes that quantity from well-formed
      open lots, or all of them when they hold less. */
  lemma SellDrawsDown(s: State, r: Record)
    requires r.action == Sell && 0.0 <= r.amount
    requires AmountsNonNegative(s.open)
    ensures Total(Step(s, r).open) == if Total(s.open) <= r.amount then 0.0 else Total(s.open) - r.amount
  {
    MatchedIsLedgerDrop(s.open, r.amount, 0.0, 0.0);
    AdvanceByBoughtIsHarmless(s.open, r.amount, 0.0, 0.0);
  }

  predicate NoSell(rows: seq<Record>)
  {
    forall j :: 0 <= j < |rows| ==> rows[j].action == Buy
  }

  /** No profit is booked exactly when no record is a Sell. */
  lemma {:induction false} NoProfitIffNoSell(rows: seq<Record>)
    ensures Replay(rows).last == None <==> NoSell(rows)
  {
    if rows != [] {
      var init := rows[..|rows| - 1];
      NoProfitIffNoSell(init);
      assert NoSell(rows) <==> NoSell(init) && rows[|rows| - 1].action == Buy;
    }
  }

  /** The profit left booked is the one of the last Sell: any later records
      are Buys, which book nothing. */
  lemma {:induction false} LastSellWins(rows: seq<Record>, i: nat)
    requires i < |rows| && rows[i].action == Sell
    requires NoSell(rows[i + 1..])
    ensures Replay(rows).last == Replay(rows[..i + 1]).last
    ensures Replay(rows).last == Some(Profit(rows[i], Match(Replay(rows[..i]).open, rows[i].amount, 0.0, 0.0).cost))
  {
    if i + 1 < |rows| {
      var init := rows[..|rows| - 1];
      var later := init[i + 1..];
      assert NoSell(later) by {
        forall j | 0 <= j < |later| ensures later[j].action == Buy {
          assert later[j] == rows[i + 1..][j];
        }
      }
      assert rows[|rows| - 1] == rows[i + 1..][|rows| - i - 2];
      LastSellWins(init, i);
      assert init[..i + 1] == rows[..i + 1];
      assert init[..i] == rows[..i];
    } else {
      assert rows[..i + 1] == rows;
    }
    assert rows[..i + 1][..i] == rows[..i];
  }

  /** The lots the records would open as Buys: one lot per record, counted
      with repetition. */
  function Bought(rows: seq<Record>): (m: multiset<Lot>)
    ensures |m| == |rows|
  {
    if rows == [] then multiset{} else Bought(rows[..|rows| - 1]) + multiset{LotOf(rows[|rows| - 1])}
  }

  /** Without Sells every bought lot stays open, whole, and nothing is booked. */
  lemma {:induction false} OnlyBuysKeepEveryLot(rows: seq<Record>)
    requires NoSell(rows)
    ensures multiset(Replay(rows).open) == Bought(rows)
    ensures Replay(rows).last == None
  {
    if rows != [] {
      var init := rows[..|rows| - 1];
      assert NoSell(init) by {
        forall j | 0 <= j < |init| ensures init[j].action == Buy {
          assert init[j] == rows[j];
        }
      }
      OnlyBuysKeepEveryLot(init);
      BuyAddsLot(Replay(init), rows[|rows| - 1]);
    }
  }

  /** Every record's amount is non-negative, as the log's number format allows. */
  predicate AmountsValid(rows: seq<Record>)
  {
    forall j :: 0 <= j < |rows| ==> 0.0 <= rows[j].amount
  }

  /** Replaying keeps the open lots in pop order with no negative quantity. */
  lemma {:induction false} ReplayWellFormed(rows: seq<Record>)
    requires AmountsValid(rows)
    ensures WellFormed(Replay(rows).open)
  {
    if rows != [] {
      var init := rows[..|rows| - 1];
      var r := rows[|rows| - 1];
      assert AmountsValid(init) by {
        forall j | 0 <= j < |init| ensures 0.0 <= init[j].amount {
          assert init[j] == rows[j];
        }
      }
      ReplayWellFormed(init);
      if r.action == Buy {
        WellFormedInsert(LotOf(r), Replay(init).open);
      } else {
        MatchKeepsWellFormed(Replay(init).open, r.amount, 0.0, 0.0);
      }
    }
  }

  /** Two buys, 10 units at 5 and 20 units at 3, then a sale of 4 units at
      15: the dearer lot is used first, so the sale costs 20, books a profit
      of 60 - 20 = 40 and leaves 6 units at 5 and 20 units at 3 open. */
  lemma WorkedExample()
    ensures Replay([Record(Buy, "BTC", 10.0, 5.0, 1), Record(Buy, "BTC", 20.0, 3.0, 2), Record(Sell, "BTC", 4.0, 15.0, 3)])
         == State([Lot(5.0, 6.0), Lot(3.0, 20.0)], Some(40.0))
  {
    var b1, b2, s := Record(Buy, "BTC", 10.0, 5.0, 1), Record(Buy, "BTC", 20.0, 3.0, 2), Record(Sell, "BTC", 4.0, 15.0, 3);
    ReplayAppend([], b1);
    assert Replay([b1]) == State([Lot(5.0, 10.0)], None);
    ReplayAppend([b1], b2);
    assert Replay([b1, b2]) == State([Lot(5.0, 10.0), Lot(3.0, 20.0)], None);
    ReplayAppend([b1, b2], s);
    var q := [Lot(5.0, 10.0), Lot(3.0, 20.0)];
    LastPass(q, 4.0, 0.0, 0.0);
    assert Match(q, 4.0, 0.0, 0.0) == Sale([Lot(5.0, 6.0), Lot(3.0, 20.0)], 10.0, 20.0);
  }

  /** Two buys, 5 units at 10 and 3 units at 20, then a sale of 4 units at
      15: the lot at 20 is used whole (cost 60), then 1 unit of the lot at 10
      (cost 10). The accumulator overshoots to 8, the sale books
      60 - 70 = -10 and 4 units at 10 stay open. */
  lemma WorkedExampleTwoPops()
    ensures Replay([Record(Buy, "ETH", 5.0, 10.0, 1), Record(Buy, "ETH", 3.0, 20.0, 2), Record(Sell, "ETH", 4.0, 15.0, 3)])
         == State([Lot(10.0, 4.0)], Some(-10.0))
  {
    var b1, b2, s := Record(Buy, "ETH", 5.0, 10.0, 1), Record(Buy, "ETH", 3.0, 20.0, 2), Record(Sell, "ETH", 4.0, 15.0, 3);
    ReplayAppend([], b1);
    assert Replay([b1]) == State([Lot(10.0, 5.0)], None);
    ReplayAppend([b1], b2);
    assert Replay([b1, b2]) == State([Lot(20.0, 3.0), Lot(10.0, 5.0)], None);
    ReplayAppend([b1, b2], s);
    var q := [Lot(20.0, 3.0), Lot(10.0, 5.0)];
    WholePass(q, 4.0, 0.0, 0.0);
    assert q[1..] == [Lot(10.0, 5.0)];
    LastPass(q[1..], 4.0, 3.0, 60.0);
    assert Match(q, 4.0, 0.0, 0.0) == Sale([Lot(10.0, 4.0)], 8.0, 70.0);
  }
}
