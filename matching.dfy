/** One Sell against an asset's open lots: the loop that pops the
    highest-priced lot, charges it to the cost basis and pushes back what is
    left of it, until the sold amount is covered or no lot is left. */
module Matching {
  import opened Lots

  /** Python's two-argument `min`: the first argument unless the second is smaller. */
  function Min(x: real, y: real): (m: real)
    ensures m <= x && m <= y
    ensures m == x || m == y
  {
    if y < x then y else x
  }

  /** What taking `n` units of lot `l` adds to the cost basis. */
  function Charge(l: Lot, n: real): real
  {
    l.price * n
  }

  /** The state the matching loop ends in: the open lots in pop order, the
      accumulator of amounts bought (`acc_amount_bought`) and the cost basis
      (`acc_total_bought`). */
  datatype Sale = Sale(open: seq<Lot>, consumed: real, cost: real)

  /** The lots in pop order after the first is popped and `needed` of it is
      taken: a positive remainder goes back at the same price. Exactly
      `needed` units, worth `needed` at the lot's price, leave the lots. */
  function Leftover(q: seq<Lot>, needed: real): (r: seq<Lot>)
    requires q != [] && needed <= q[0].amount
    ensures Total(r) == Total(q) - needed
    ensures Value(r) == Value(q) - Charge(q[0], needed)
  {
    var remain := q[0].amount - needed;
    var rest := Lot(q[0].price, remain);
    InsertTotal(rest, q[1..]);
    InsertValue(rest, q[1..]);
    assert Cost(q[0]) == Cost(rest) + Charge(q[0], needed);
    if remain > 0.0 then Insert(rest, q[1..]) else q[1..]
  }

  /** The amount a pass takes lies between nothing and the whole popped lot,
      and a remainder is pushed back exactly when the lot holds more than is
      still to sell. */
  lemma NeededWithinLot(q: seq<Lot>, amount: real, acc: real)
    requires acc < amount && q != [] && 0.0 <= q[0].amount
    ensures 0.0 <= Min(amount - acc, q[0].amount) <= q[0].amount
    ensures q[0].amount - Min(amount - acc, q[0].amount) > 0.0 <==> amount - acc < q[0].amount
  {
  }

  /** The matching loop as written, run on the lots `q` in pop order for a
      Sell of `amount`, from accumulator `acc` and cost basis `cost`. The
      accumulator advances by the whole amount of the popped lot, although
      only `needed` of it is charged. */
  function Match(q: seq<Lot>, amount: real, acc: real, cost: real): (r: Sale)
    decreases |q|, if acc < amount then 1 else 0
  {
    if acc < amount && q != [] then
      var needed := Min(amount - acc, q[0].amount);
      Match(Leftover(q, needed), amount, acc + q[0].amount, cost + Charge(q[0], needed))
    else
      Sale(q, acc, cost)
  }

  /** The same loop with the accumulator advanced by `needed`, the amount
      actually taken from the popped lot; `consumed` is then the quantity
      matched. */
  function MatchNeeded(q: seq<Lot>, amount: real, acc: real, cost: real): (r: Sale)
    decreases |q|, if acc < amount then 1 else 0
  {
    if acc < amount && q != [] then
      var needed := Min(amount - acc, q[0].amount);
      MatchNeeded(Leftover(q, needed), amount, acc + needed, cost + Charge(q[0], needed))
    else
      Sale(q, acc, cost)
  }

  /** One pass of the loop: pop the first lot, charge what is needed of it,
      push back the remainder, advance the accumulator. */
  lemma Pass(q: seq<Lot>, amount: real, acc: real, cost: real)
    requires acc < amount && q != []
    ensures Match(q, amount, acc, cost)
         == Match(Leftover(q, Min(amount - acc, q[0].amount)), amount, acc + q[0].amount,
                  cost + Charge(q[0], Min(amount - acc, q[0].amount)))
  {
  }

  /** The loop stops once the amount is covered or no lot is left. */
  lemma Stop(q: seq<Lot>, amount: real, acc: real, cost: real)
    requires amount <= acc || q == []
    ensures Match(q, amount, acc, cost) == Sale(q, acc, cost)
  {
  }

  /** A pass that takes only part of the popped lot is the last one. */
  lemma LastPass(q: seq<Lot>, amount: real, acc: real, cost: real)
    requires acc < amount && q != [] && amount - acc < q[0].amount
    ensures Match(q, amount, acc, cost)
         == Sale(Leftover(q, amount - acc), acc + q[0].amount, cost + Charge(q[0], amount - acc))
    ensures MatchNeeded(q, amount, acc, cost)
         == Sale(Leftover(q, amount - acc), amount, cost + Charge(q[0], amount - acc))
  {
  }

  /** A pass that takes the whole popped lot drops it and goes on. */
  lemma WholePass(q: seq<Lot>, amount: real, acc: real, cost: real)
    requires acc < amount && q != [] && q[0].amount <= amount - acc
    ensures Match(q, amount, acc, cost) == Match(q[1..], amount, acc + q[0].amount, cost + Cost(q[0]))
    ensures MatchNeeded(q, amount, acc, cost) == MatchNeeded(q[1..], amount, acc + q[0].amount, cost + Cost(q[0]))
  {
    assert Leftover(q, q[0].amount) == q[1..];
    assert Charge(q[0], q[0].amount) == Cost(q[0]);
  }

  /** The loop ends with the amount covered or with no lot left. */
  lemma {:induction false} MatchEnds(q: seq<Lot>, amount: real, acc: real, cost: real)
    ensures amount <= Match(q, amount, acc, cost).consumed || Match(q, amount, acc, cost).open == []
    decreases |q|
  {
    if acc < amount && q != [] {
      if amount - acc < q[0].amount {
        LastPass(q, amount, acc, cost);
      } else {
        WholePass(q, amount, acc, cost);
        MatchEnds(q[1..], amount, acc + q[0].amount, cost + Cost(q[0]));
      }
    } else {
      Stop(q, amount, acc, cost);
    }
  }

  /** Advancing the accumulator by the popped lot's whole amount rather than
      by the amount taken from it changes neither the cost basis nor the lots
      left open: it only makes the accumulator overshoot on the last pass,
      which ends the loop either way. */
  lemma {:induction false} AdvanceByBoughtIsHarmless(q: seq<Lot>, amount: real, acc: real, cost: real)
    ensures Match(q, amount, acc, cost).open == MatchNeeded(q, amount, acc, cost).open
    ensures Match(q, amount, acc, cost).cost == MatchNeeded(q, amount, acc, cost).cost
    ensures MatchNeeded(q, amount, acc, cost).consumed <= Match(q, amount, acc, cost).consumed
    decreases |q|
  {
    if acc < amount && q != [] {
      if amount - acc < q[0].amount {
        LastPass(q, amount, acc, cost);
      } else {
        WholePass(q, amount, acc, cost);
        AdvanceByBoughtIsHarmless(q[1..], amount, acc + q[0].amount, cost + Cost(q[0]));
      }
    }
  }

  /** Conservation of quantity: the amounts taken from the popped lots add up
      to what the open lots lost, which is the amount still to sell or, when
      the lots run out first, all of them. So the matched quantity never
      exceeds the amount sold. */
  lemma {:induction false} MatchedIsLedgerDrop(q: seq<Lot>, amount: real, acc: real, cost: real)
    requires AmountsNonNegative(q)
    requires acc <= amount
    ensures MatchNeeded(q, amount, acc, cost).consumed - acc == Total(q) - Total(MatchNeeded(q, amount, acc, cost).open)
    ensures Total(q) - Total(MatchNeeded(q, amount, acc, cost).open) == Min(amount - acc, Total(q))
    decreases |q|
  {
    if q == [] {
    } else if acc == amount {
      TotalNonNegative(q);
    } else {
      assert AmountsNonNegative(q[1..]) by {
        forall l | l in q[1..] ensures 0.0 <= l.amount { assert l in q; }
      }
      TotalNonNegative(q[1..]);
      if amount - acc < q[0].amount {
        LastPass(q, amount, acc, cost);
        InsertTotal(Lot(q[0].price, q[0].amount - (amount - acc)), q[1..]);
      } else {
        WholePass(q, amount, acc, cost);
        MatchedIsLedgerDrop(q[1..], amount, acc + q[0].amount, cost + Cost(q[0]));
      }
    }
  }

  /** The cost basis a Sell adds is the purchase value of what left the open
      lots: each popped lot is charged at the price it was bought at. */
  lemma {:induction false} CostIsValueDrop(q: seq<Lot>, amount: real, acc: real, cost: real)
    ensures Match(q, amount, acc, cost).cost - cost == Value(q) - Value(Match(q, amount, acc, cost).open)
    decreases |q|
  {
    if acc < amount && q != [] {
      if amount - acc < q[0].amount {
        LastPass(q, amount, acc, cost);
        var rest := Lot(q[0].price, q[0].amount - (amount - acc));
        InsertValue(rest, q[1..]);
        assert Cost(q[0]) == Cost(rest) + Charge(q[0], amount - acc);
      } else {
        WholePass(q, amount, acc, cost);
        CostIsValueDrop(q[1..], amount, acc + q[0].amount, cost + Cost(q[0]));
      }
    }
  }

  /** `open` is what popping from the front of `q` leaves: a prefix of `q`
      is gone, and the first lot left may have been cut to a smaller positive
      amount at the same price; every other lot is untouched. */
  predicate Remnant(q: seq<Lot>, open: seq<Lot>)
  {
    |open| <= |q| &&
    (open != [] ==>
      var j := |q| - |open|;
      open[1..] == q[j + 1..] && open[0].price == q[j].price &&
      (open[0] == q[j] || 0.0 < open[0].amount < q[j].amount))
  }

  /** A Sell takes lots from the front of the pop order: the lots popped
      whole are dropped, and at most one lot (the last popped) is cut short
      and returns at its own price. */
  lemma {:induction false} MatchTakesFromFront(q: seq<Lot>, amount: real, acc: real, cost: real)
    requires Sorted(q)
    ensures Remnant(q, Match(q, amount, acc, cost).open)
    decreases |q|
  {
    var open := Match(q, amount, acc, cost).open;
    if acc < amount && q != [] {
      if amount - acc < q[0].amount {
        LastPass(q, amount, acc, cost);
        var cut := Lot(q[0].price, q[0].amount - (amount - acc));
        assert q[1..] == [] || Precedes(cut, q[1..][0]) by {
          if q[1..] != [] {
            assert Precedes(q[0], q[1]);
          }
        }
        assert open == [cut] + q[1..];
        assert open[1..] == q[1..];
      } else {
        WholePass(q, amount, acc, cost);
        assert Sorted(q[1..]);
        MatchTakesFromFront(q[1..], amount, acc + q[0].amount, cost + Cost(q[0]));
        if open != [] {
          var j := |q| - |open|;
          assert q[1..][j - 1 + 1..] == q[j + 1..];
          assert q[1..][j - 1] == q[j];
        }
      }
    } else {
      assert open == q;
    }
  }

  /** `open` is what popping from the front of `q` leaves, from accumulator
      `acc`, for a Sell of `amount`, when its first lot is not one of `q`:
      that lot holds exactly what is left of the lot it was cut from once the
      amount still to sell after the lots popped whole is taken. */
  predicate CutExactly(q: seq<Lot>, open: seq<Lot>, amount: real, acc: real)
  {
    |open| <= |q| &&
    (var j := |q| - |open|;
     open != [] && open[0] != q[j] ==>
       acc + Total(q[..j]) < amount &&
       open[0].amount == q[j].amount - (amount - (acc + Total(q[..j]))))
  }

  lemma CutExactlyStep(q: seq<Lot>, open: seq<Lot>, amount: real, acc: real)
    requires q != [] && CutExactly(q[1..], open, amount, acc + q[0].amount)
    ensures CutExactly(q, open, amount, acc)
  {
    if open != [] {
      var j := |q| - |open|;
      assert q[1..][j - 1] == q[j];
      assert q[..j][1..] == q[1..][..j - 1];
      assert Total(q[..j]) == q[0].amount + Total(q[1..][..j - 1]);
    }
  }

  /** The lot cut short on the last pass goes back holding exactly
      `amount_bought - amount_needed`. */
  lemma {:induction false} CutIsRemainder(q: seq<Lot>, amount: real, acc: real, cost: real)
    requires Sorted(q)
    ensures CutExactly(q, Match(q, amount, acc, cost).open, amount, acc)
    decreases |q|
  {
    var open := Match(q, amount, acc, cost).open;
    if acc < amount && q != [] {
      if amount - acc < q[0].amount {
        LastPass(q, amount, acc, cost);
        var cut := Lot(q[0].price, q[0].amount - (amount - acc));
        assert q[1..] == [] || Precedes(cut, q[1..][0]) by {
          if q[1..] != [] {
            assert Precedes(q[0], q[1]);
          }
        }
        assert open == [cut] + q[1..];
        assert q[..0] == [];
      } else {
        WholePass(q, amount, acc, cost);
        assert Sorted(q[1..]);
        CutIsRemainder(q[1..], amount, acc + q[0].amount, cost + Cost(q[0]));
        CutExactlyStep(q, open, amount, acc);
      }
    } else {
      assert open == q;
    }
  }

  /** What popping from the front of well-formed lots leaves is well formed. */
  lemma RemnantWellFormed(q: seq<Lot>, open: seq<Lot>)
    requires WellFormed(q) && Remnant(q, open)
    ensures WellFormed(open)
  {
    if open != [] {
      var j := |q| - |open|;
      forall k | 0 < k < |open| ensures open[k] == q[j + k] {
        assert open[k] == open[1..][k - 1];
      }
      forall l | l in open ensures 0.0 <= l.amount {
        var k :| 0 <= k < |open| && open[k] == l;
        if k > 0 {
          assert q[j + k] in q;
        } else {
          assert q[j] in q;
        }
      }
      forall a, b | 0 <= a < b < |open| ensures Precedes(open[a], open[b]) {
        assert Precedes(q[j + a], q[j + b]);
      }
    }
  }

  /** A Sell keeps the open lots well formed. */
  lemma MatchKeepsWellFormed(q: seq<Lot>, amount: real, acc: real, cost: real)
    requires WellFormed(q)
    ensures WellFormed(Match(q, amount, acc, cost).open)
  {
    MatchTakesFromFront(q, amount, acc, cost);
    RemnantWellFormed(q, Match(q, amount, acc, cost).open);
  }

  /** What popping from the front leaves is never dearer than what was
      popped: every lot taken had a price at least that of every lot still
      open. */
  lemma PoppedNotCheaper(q: seq<Lot>, open: seq<Lot>)
    requires Sorted(q) && Remnant(q, open)
    ensures forall i, k :: 0 <= i < |q| - |open| && 0 <= k < |open| ==> open[k].price <= q[i].price
  {
    forall i, k | 0 <= i < |q| - |open| && 0 <= k < |open| ensures open[k].price <= q[i].price {
      var j := |q| - |open|;
      if k == 0 {
        assert Precedes(q[i], q[j]);
      } else {
        assert open[k] == open[1..][k - 1] == q[j + k];
        assert Precedes(q[i], q[j + k]);
      }
    }
  }

  /** Highest price first: every lot a Sell takes from lots in pop order
      was priced at least as high as every lot it leaves open. */
  lemma SellTakesDearest(q: seq<Lot>, amount: real)
    requires Sorted(q)
    ensures var open := Match(q, amount, 0.0, 0.0).open;
      forall i, k :: 0 <= i < |q| - |open| && 0 <= k < |open| ==> open[k].price <= q[i].price
  {
    MatchTakesFromFront(q, amount, 0.0, 0.0);
    PoppedNotCheaper(q, Match(q, amount, 0.0, 0.0).open);
  }

  /** The engine's loop for one Sell of `amount`, run on the open lots kept
      in pop order: `left[0]` is what a pop returns and `Insert` is a push.
      It returns the lots it leaves open and the cost basis of what it sold. */
  method Sell(lots: seq<Lot>, amount: real) returns (left: seq<Lot>, cost: real)
    ensures left == Match(lots, amount, 0.0, 0.0).open
    ensures cost == Match(lots, amount, 0.0, 0.0).cost
  {
    left := lots;
    var accAmountBought := 0.0;
    cost := 0.0;
    while accAmountBought < amount && |left| > 0
      invariant Match(left, amount, accAmountBought, cost) == Match(lots, amount, 0.0, 0.0)
      decreases |left|, if accAmountBought < amount then 1 else 0
    {
      Pass(left, amount, accAmountBought, cost);
      var top := left[0];
      left := left[1..];
      var amountNeeded := Min(amount - accAmountBought, top.amount);
      cost := cost + Charge(top, amountNeeded);
      accAmountBought := accAmountBought + top.amount;
      var amountRemain := top.amount - amountNeeded;
      if amountRemain > 0.0 {
        left := Insert(Lot(top.price, amountRemain), left);
      }
    }
    Stop(left, amount, accAmountBought, cost);
  }
}
