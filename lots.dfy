/** Open buy lots and the order in which the engine's max-heap releases them.
    The engine keeps its lots in a heap keyed by the pair (-price, amount):
    the lot that comes out first has the highest price and, among lots of
    equal price, the smallest amount. Here the heap itself is an unordered
    sequence (a bag of lots), a push appends, and `PopMax` takes out the lot
    that comes first. `Ordered` lists a heap's lots in the order successive
    pops would release them; the matching rules are stated on that view. */
module Lots {

  /** An open buy: the unit price paid and the quantity still held. */
  datatype Lot = Lot(price: real, amount: real)

  /** `a` leaves the heap no later than `b`. */
  predicate Precedes(a: Lot, b: Lot)
  {
    a.price > b.price || (a.price == b.price && a.amount <= b.amount)
  }

  /** The heap key `(-price, amount)` orders any two lots, and only equal
      lots tie. */
  lemma PrecedesIsKeyOrder(a: Lot, b: Lot, c: Lot)
    ensures Precedes(a, b) || Precedes(b, a)
    ensures Precedes(a, b) && Precedes(b, a) ==> a == b
    ensures Precedes(a, b) && Precedes(b, c) ==> Precedes(a, c)
  {
  }

  /** Lots listed in pop order. */
  predicate Sorted(s: seq<Lot>)
  {
    forall i, j :: 0 <= i < j < |s| ==> Precedes(s[i], s[j])
  }

  /** No lot holds a negative quantity. */
  predicate AmountsNonNegative(s: seq<Lot>)
  {
    forall l :: l in s ==> 0.0 <= l.amount
  }

  /** Quantity held across the lots. */
  function Total(s: seq<Lot>): real
  {
    if s == [] then 0.0 else s[0].amount + Total(s[1..])
  }

  /** What the quantity held in a lot cost to buy. */
  function Cost(l: Lot): real
  {
    l.price * l.amount
  }

  /** What the lots cost when they were bought. */
  function Value(s: seq<Lot>): real
  {
    if s == [] then 0.0 else Cost(s[0]) + Value(s[1..])
  }

  lemma {:induction false} TotalNonNegative(s: seq<Lot>)
    requires AmountsNonNegative(s)
    ensures 0.0 <= Total(s)
  {
    if s != [] {
      assert forall l :: l in s[1..] ==> l in s;
      TotalNonNegative(s[1..]);
    }
  }

  /** Place `l` among lots already in pop order. */
  function Insert(l: Lot, s: seq<Lot>): (r: seq<Lot>)
    ensures |r| == |s| + 1
  {
    if s == [] || Precedes(l, s[0]) then
      [l] + s
    else
      assert s == [s[0]] + s[1..];
      [s[0]] + Insert(l, s[1..])
  }

  /** Placing a lot adds exactly that lot: nothing else is gained or lost. */
  lemma {:induction false} InsertPermutes(l: Lot, s: seq<Lot>)
    ensures multiset(Insert(l, s)) == multiset(s) + multiset{l}
  {
    if s != [] && !Precedes(l, s[0]) {
      InsertPermutes(l, s[1..]);
      assert s == [s[0]] + s[1..];
    }
  }

  /** Placing a lot adds that lot and keeps every other. */
  lemma {:induction false} InsertMembers(l: Lot, s: seq<Lot>)
    ensures forall x :: x in Insert(l, s) <==> x == l || x in s
  {
    InsertPermutes(l, s);
    forall x ensures x in Insert(l, s) <==> x == l || x in s {
      assert x in Insert(l, s) <==> x in multiset(Insert(l, s));
      assert x in s <==> x in multiset(s);
    }
  }

  /** Placing a lot adds its quantity to the ledger. */
  lemma {:induction false} InsertTotal(l: Lot, s: seq<Lot>)
    ensures Total(Insert(l, s)) == Total(s) + l.amount
  {
    if s != [] && !Precedes(l, s[0]) {
      InsertTotal(l, s[1..]);
      assert Insert(l, s)[1..] == Insert(l, s[1..]);
    }
  }

  /** Placing a lot adds what it cost to the ledger's value. */
  lemma {:induction false} InsertValue(l: Lot, s: seq<Lot>)
    ensures Value(Insert(l, s)) == Value(s) + Cost(l)
  {
    if s != [] && !Precedes(l, s[0]) {
      InsertValue(l, s[1..]);
      assert Insert(l, s)[1..] == Insert(l, s[1..]);
    }
  }

  lemma {:induction false} InsertSorted(l: Lot, s: seq<Lot>)
    requires Sorted(s)
    ensures Sorted(Insert(l, s))
  {
    if s != [] && !Precedes(l, s[0]) {
      var t := Insert(l, s[1..]);
      InsertSorted(l, s[1..]);
      InsertMembers(l, s[1..]);
      assert s == [s[0]] + s[1..];
      forall k | 0 <= k < |t| ensures Precedes(s[0], t[k]) {
        assert t[k] in t;
      }
    }
  }

  /** The lots of heap `h` in the order successive pops release them. The
      last element of `h` is the most recent push. */
  function Ordered(h: seq<Lot>): (r: seq<Lot>)
    ensures |r| == |h|
  {
    if h == [] then [] else Insert(h[|h| - 1], Ordered(h[..|h| - 1]))
  }

  /** `Ordered` lists exactly the heap's lots, in pop order. */
  lemma {:induction false} OrderedIsPopOrder(h: seq<Lot>)
    ensures Sorted(Ordered(h))
    ensures multiset(Ordered(h)) == multiset(h)
  {
    if h != [] {
      var init := h[..|h| - 1];
      assert h == init + [h[|h| - 1]];
      OrderedIsPopOrder(init);
      InsertSorted(h[|h| - 1], Ordered(init));
      InsertPermutes(h[|h| - 1], Ordered(init));
    }
  }

  /** Two listings in pop order of the same lots are the same listing: the
      pop order of a heap does not depend on how its lots are arranged. */
  lemma {:induction false} SortedUnique(a: seq<Lot>, b: seq<Lot>)
    requires Sorted(a) && Sorted(b)
    requires multiset(a) == multiset(b)
    ensures a == b
    decreases |a|
  {
    if a != [] {
      assert |a| == |multiset(a)| == |multiset(b)| == |b|;
      assert a[0] in multiset(b);
      assert b[0] in multiset(a);
      assert Precedes(b[0], a[0]);
      assert Precedes(a[0], b[0]);
      assert a == [a[0]] + a[1..];
      assert b == [b[0]] + b[1..];
      assert a[0] == b[0];
      assert multiset(a[1..]) == multiset(a) - multiset{a[0]};
      assert multiset(b[1..]) == multiset(b) - multiset{b[0]};
      SortedUnique(a[1..], b[1..]);
    } else {
      assert |b| == |multiset(b)| == 0;
    }
  }

  /** The pop order depends only on which lots the heap holds, not on the
      order in which they were pushed. */
  lemma PopOrderIgnoresPushOrder(h: seq<Lot>, h': seq<Lot>)
    requires multiset(h) == multiset(h')
    ensures Ordered(h) == Ordered(h')
  {
    OrderedIsPopOrder(h);
    OrderedIsPopOrder(h');
    SortedUnique(Ordered(h), Ordered(h'));
  }

  datatype Popped = Popped(top: Lot, rest: seq<Lot>)

  /** A pop: takes out the lot the heap releases first. */
  function PopMax(h: seq<Lot>): (r: Popped)
    requires h != []
    ensures |r.rest| == |h| - 1
  {
    if |h| == 1 then
      Popped(h[0], [])
    else
      var p := PopMax(h[1..]);
      if Precedes(h[0], p.top) then
        Popped(h[0], h[1..])
      else
        Popped(p.top, [h[0]] + p.rest)
  }

  /** A pop takes out exactly one lot and keeps all the others. */
  lemma {:induction false} PopMaxPermutes(h: seq<Lot>)
    requires h != []
    ensures multiset(h) == multiset(PopMax(h).rest) + multiset{PopMax(h).top}
  {
    if |h| > 1 {
      PopMaxPermutes(h[1..]);
      assert h == [h[0]] + h[1..];
    }
  }

  /** The lot a pop takes out leaves the heap no later than any lot it keeps. */
  lemma {:induction false} PopMaxTakesFirst(h: seq<Lot>)
    requires h != []
    ensures forall l :: l in PopMax(h).rest ==> Precedes(PopMax(h).top, l)
  {
    if |h| > 1 {
      var p := PopMax(h[1..]);
      PopMaxTakesFirst(h[1..]);
      PopMaxPermutes(h[1..]);
      forall l | l in p.rest ensures Precedes(p.top, l) {
      }
      if !Precedes(h[0], p.top) {
        forall l | l in [h[0]] + p.rest ensures Precedes(p.top, l) {
          assert l == h[0] || l in p.rest;
        }
      } else {
        forall l | l in h[1..] ensures Precedes(h[0], l) {
          assert l in multiset(h[1..]);
          if l != p.top {
            assert l in multiset(p.rest);
            assert Precedes(p.top, l);
          }
        }
      }
    }
  }

  /** The lot a pop takes out heads the pop order, and the rest of the pop
      order is that of the heap left behind. */
  lemma PopMaxHeadsOrder(h: seq<Lot>)
    requires h != []
    ensures Ordered(h) == [PopMax(h).top] + Ordered(PopMax(h).rest)
  {
    var p := PopMax(h);
    var o := Ordered(p.rest);
    assert Sorted([p.top] + o) by {
      OrderedIsPopOrder(p.rest);
      PopMaxTakesFirst(h);
      forall k | 0 <= k < |o| ensures Precedes(p.top, o[k]) {
        assert o[k] in multiset(p.rest);
      }
    }
    assert multiset([p.top] + o) == multiset(h) by {
      OrderedIsPopOrder(p.rest);
      PopMaxPermutes(h);
    }
    OrderedIsPopOrder(h);
    SortedUnique(Ordered(h), [p.top] + o);
  }

  /** Open lots kept in pop order with no negative quantity. */
  predicate WellFormed(q: seq<Lot>)
  {
    Sorted(q) && AmountsNonNegative(q)
  }

  lemma WellFormedTail(q: seq<Lot>)
    requires q != [] && WellFormed(q)
    ensures WellFormed(q[1..])
  {
    forall l | l in q[1..] ensures 0.0 <= l.amount {
      assert l in q;
    }
  }

  /** A push keeps the open lots well formed. */
  lemma WellFormedInsert(l: Lot, q: seq<Lot>)
    requires WellFormed(q) && 0.0 <= l.amount
    ensures WellFormed(Insert(l, q))
  {
    InsertSorted(l, q);
    InsertMembers(l, q);
  }
}
