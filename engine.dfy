/** The whole of `process`: order the records by (date, action), take each
    asset in order of first appearance, replay its records with a heap of
    open lots, and keep, per asset, the profit of its latest Sell in a
    dictionary that remembers insertion order. The grand total is the sum
    of that dictionary's profits. */
module Engine {
  import opened Options
  import opened Lots
  import opened Matching
  import opened Ledger

  /* ---------- the profits dictionary ---------- */

  /** One entry of the profits dictionary. */
  datatype Entry = Entry(asset: string, profit: real)

  /** The dictionary's keys in insertion order. */
  function Keys(d: seq<Entry>): (ks: seq<string>)
    ensures |ks| == |d|
    ensures forall i :: 0 <= i < |d| ==> ks[i] == d[i].asset
  {
    if d == [] then [] else [d[0].asset] + Keys(d[1..])
  }

  predicate Distinct(ks: seq<string>)
  {
    forall i, j :: 0 <= i < j < |ks| ==> ks[i] != ks[j]
  }

  /** `d[k]`, or nothing when `k` is not a key. */
  function Lookup(d: seq<Entry>, k: string): (v: Option<real>)
    ensures v.Some? <==> k in Keys(d)
  {
    if d == [] then None
    else if d[0].asset == k then Some(d[0].profit)
    else Lookup(d[1..], k)
  }

  /** `d[k] = v`: an existing key keeps its place and takes the new value; a
      new key goes at the end. */
  function Put(d: seq<Entry>, k: string, v: real): (r: seq<Entry>)
    ensures k in Keys(d) ==> Keys(r) == Keys(d)
    ensures k !in Keys(d) ==> r == d + [Entry(k, v)]
  {
    if d == [] then [Entry(k, v)]
    else if d[0].asset == k then [Entry(k, v)] + d[1..]
    else [d[0]] + Put(d[1..], k, v)
  }

  /** After `d[k] = v`, `d[k]` is `v` and every other key reads as before. */
  lemma {:induction false} PutThenLookup(d: seq<Entry>, k: string, v: real, k': string)
    ensures Lookup(Put(d, k, v), k') == if k' == k then Some(v) else Lookup(d, k')
  {
    if d != [] && d[0].asset != k {
      PutThenLookup(d[1..], k, v, k');
    }
  }

  /** A second assignment to the same key undoes the first. */
  lemma {:induction false} PutOverwrites(d: seq<Entry>, k: string, v: real, w: real)
    ensures Put(Put(d, k, v), k, w) == Put(d, k, w)
  {
    if d != [] && d[0].asset != k {
      PutOverwrites(d[1..], k, v, w);
    }
  }

  /** `d[k] = v` when the latest Sell booked `v`, nothing when no Sell did. */
  function PutBooked(d: seq<Entry>, k: string, booked: Option<real>): seq<Entry>
  {
    match booked
    case None => d
    case Some(v) => Put(d, k, v)
  }

  /** The grand total: the sum of the dictionary's profits. */
  function GrandTotal(d: seq<Entry>): real
  {
    if d == [] then 0.0 else d[0].profit + GrandTotal(d[1..])
  }

  /** Replacing one asset's profit moves the grand total by the difference;
      a new asset adds its profit. */
  lemma {:induction false} GrandTotalPut(d: seq<Entry>, k: string, v: real)
    ensures GrandTotal(Put(d, k, v)) == GrandTotal(d) + v - (match Lookup(d, k) case Some(u) => u case None => 0.0)
  {
    if d != [] && d[0].asset != k {
      GrandTotalPut(d[1..], k, v);
    }
  }

  /* ---------- ordering and grouping the records ---------- */

  /** `a` comes no later than `b` in (date, action) order; a Buy comes before
      a Sell of the same date. */
  predicate NotLater(a: Record, b: Record)
  {
    a.date < b.date || (a.date == b.date && (a.action == Buy || b.action == Sell))
  }

  predicate Chronological(s: seq<Record>)
  {
    forall i, j :: 0 <= i < j < |s| ==> NotLater(s[i], s[j])
  }

  /** Place `r` after every record of `s` that is not later than it. */
  function InsertRecord(r: Record, s: seq<Record>): (t: seq<Record>)
    ensures |t| == |s| + 1
  {
    if s == [] || NotLater(s[|s| - 1], r) then s + [r]
    else InsertRecord(r, s[..|s| - 1]) + [s[|s| - 1]]
  }

  lemma {:induction false} InsertRecordPermutes(r: Record, s: seq<Record>)
    ensures multiset(InsertRecord(r, s)) == multiset(s) + multiset{r}
  {
    if s != [] && !NotLater(s[|s| - 1], r) {
      InsertRecordPermutes(r, s[..|s| - 1]);
      assert s == s[..|s| - 1] + [s[|s| - 1]];
    }
  }

  lemma {:induction false} InsertRecordChronological(r: Record, s: seq<Record>)
    requires Chronological(s)
    ensures Chronological(InsertRecord(r, s))
  {
    if s != [] && !NotLater(s[|s| - 1], r) {
      var init, last := s[..|s| - 1], s[|s| - 1];
      var t := InsertRecord(r, init);
      InsertRecordChronological(r, init);
      InsertRecordPermutes(r, init);
      forall k | 0 <= k < |t| ensures NotLater(t[k], last) {
        assert t[k] in multiset(init) + multiset{r};
        if t[k] != r {
          assert t[k] in init;
        }
      }
    }
  }

  /** The records in (date, action) order; records of equal date and action
      keep their input order. */
  function SortRecords(rs: seq<Record>): (s: seq<Record>)
    ensures |s| == |rs|
  {
    if rs == [] then [] else InsertRecord(rs[|rs| - 1], SortRecords(rs[..|rs| - 1]))
  }

  /** Sorting orders the records by (date, action) and neither adds nor
      drops one. */
  lemma {:induction false} SortRecordsSorts(rs: seq<Record>)
    ensures Chronological(SortRecords(rs))
    ensures multiset(SortRecords(rs)) == multiset(rs)
  {
    if rs != [] {
      var init := rs[..|rs| - 1];
      SortRecordsSorts(init);
      InsertRecordChronological(rs[|rs| - 1], SortRecords(init));
      InsertRecordPermutes(rs[|rs| - 1], SortRecords(init));
      assert rs == init + [rs[|rs| - 1]];
    }
  }

  /** The assets in order of first appearance, each once. */
  function Assets(rs: seq<Record>): (names: seq<string>)
    ensures Distinct(names)
    ensures forall a :: a in names <==> exists j :: 0 <= j < |rs| && rs[j].asset == a
  {
    if rs == [] then []
    else
      var prev := Assets(rs[..|rs| - 1]);
      var a := rs[|rs| - 1].asset;
      assert forall j :: 0 <= j < |rs| - 1 ==> rs[..|rs| - 1][j] == rs[j];
      if a in prev then prev else prev + [a]
  }

  /** Where asset `a` first appears among the records; `|rs|` when it does
      not. */
  function FirstOf(rs: seq<Record>, a: string): (f: nat)
    ensures f <= |rs|
    ensures f < |rs| ==> rs[f].asset == a
    ensures forall j :: 0 <= j < f ==> rs[j].asset != a
  {
    if rs == [] then 0
    else
      var init := rs[..|rs| - 1];
      var f := FirstOf(init, a);
      assert forall j :: 0 <= j < |init| ==> init[j] == rs[j];
      if f < |init| then f else if rs[|rs| - 1].asset == a then |init| else |rs|
  }

  /** `Assets` lists the assets in order of first appearance. */
  lemma {:induction false} AssetsFirstAppearance(rs: seq<Record>)
    ensures forall i, k :: 0 <= i < k < |Assets(rs)| ==> FirstOf(rs, Assets(rs)[i]) < FirstOf(rs, Assets(rs)[k])
  {
    if rs != [] {
      var init, r := rs[..|rs| - 1], rs[|rs| - 1];
      var prev, names := Assets(init), Assets(rs);
      AssetsFirstAppearance(init);
      forall x | x in prev ensures FirstOf(rs, x) == FirstOf(init, x) < |init| {
        var j :| 0 <= j < |init| && init[j].asset == x;
      }
      forall i, k | 0 <= i < k < |names| ensures FirstOf(rs, names[i]) < FirstOf(rs, names[k]) {
        assert names == prev || names == prev + [r.asset];
        assert prev[i] in prev;
        if k < |prev| {
          assert prev[k] in prev;
          assert names[i] == prev[i] && names[k] == prev[k];
        } else {
          assert names[k] == r.asset && r.asset !in prev;
        }
      }
    }
  }

  /** The records of asset `a`, in the order they come in `s`. */
  function RowsOf(s: seq<Record>, a: string): (rows: seq<Record>)
    ensures forall r :: r in rows <==> r in s && r.asset == a
  {
    if s == [] then []
    else
      var init := RowsOf(s[..|s| - 1], a);
      assert forall r :: r in s <==> r in s[..|s| - 1] || r == s[|s| - 1] by {
        assert s == s[..|s| - 1] + [s[|s| - 1]];
      }
      if s[|s| - 1].asset == a then init + [s[|s| - 1]] else init
  }

  /** Picking an asset's records keeps every copy of each: a record of
      asset `a` occurs in the rows as often as in `s`, any other not at all. */
  lemma {:induction false} RowsOfCounts(s: seq<Record>, a: string)
    ensures forall r :: multiset(RowsOf(s, a))[r] == if r.asset == a then multiset(s)[r] else 0
  {
    if s != [] {
      var init := s[..|s| - 1];
      RowsOfCounts(init, a);
      assert s == init + [s[|s| - 1]];
    }
  }

  /** Picking one asset's records out of ordered records keeps them ordered. */
  lemma {:induction false} RowsOfChronological(s: seq<Record>, a: string)
    requires Chronological(s)
    ensures Chronological(RowsOf(s, a))
  {
    if s != [] {
      var init := s[..|s| - 1];
      assert Chronological(init);
      RowsOfChronological(init, a);
      var rows := RowsOf(init, a);
      forall k | 0 <= k < |rows| ensures NotLater(rows[k], s[|s| - 1]) {
        assert rows[k] in rows;
        var i :| 0 <= i < |init| && init[i] == rows[k];
      }
    }
  }

  /** The profit the engine books for asset `a`: none when the asset has a
      single record (the engine skips it), otherwise the profit of the latest
      Sell among its records in (date, action) order, if there is one. */
  function Expected(records: seq<Record>, a: string): Option<real>
  {
    var rows := RowsOf(SortRecords(records), a);
    if |rows| == 1 then None else Replay(rows).last
  }

  /** An asset gets a profit exactly when it has more than one record and
      one of them is a Sell. */
  lemma BookedIffSold(records: seq<Record>, a: string)
    ensures Expected(records, a).Some? <==> |RowsOf(SortRecords(records), a)| != 1 && !NoSell(RowsOf(SortRecords(records), a))
  {
    NoProfitIffNoSell(RowsOf(SortRecords(records), a));
  }

  /** The assets of `assets` that get a profit, in the same order. */
  function Booked(assets: seq<string>, records: seq<Record>): (bs: seq<string>)
    ensures forall b :: b in bs <==> b in assets && Expected(records, b).Some?
  {
    if assets == [] then []
    else
      var prev := Booked(assets[..|assets| - 1], records);
      var a := assets[|assets| - 1];
      assert forall b :: b in assets <==> b in assets[..|assets| - 1] || b == a by {
        assert assets == assets[..|assets| - 1] + [a];
      }
      if Expected(records, a).Some? then prev + [a] else prev
  }

  /** Picking assets out of a list without repeats gives a list without
      repeats. */
  lemma {:induction false} BookedDistinct(assets: seq<string>, records: seq<Record>)
    requires Distinct(assets)
    ensures Distinct(Booked(assets, records))
  {
    if assets != [] {
      var init, a := assets[..|assets| - 1], assets[|assets| - 1];
      BookedDistinct(init, records);
      assert a !in init;
    }
  }

  /** Sum of the profits booked for `assets`. */
  function SumBooked(assets: seq<string>, records: seq<Record>): real
  {
    if assets == [] then 0.0
    else
      SumBooked(assets[..|assets| - 1], records) +
      match Expected(records, assets[|assets| - 1]) case Some(v) => v case None => 0.0
  }

  /* ---------- the engine ---------- */

  /** What one record does to the open lots and to the profits dictionary:
      a Buy pushes its lot and leaves the dictionary alone; a Sell runs the
      matching loop and writes its profit under the asset. */
  lemma BookRecord(profits: seq<Entry>, asset: string, s: State, r: Record)
    ensures Step(s, r).open == if r.action == Buy then Insert(Lot(r.price, r.amount), s.open) else Match(s.open, r.amount, 0.0, 0.0).open
    ensures PutBooked(profits, asset, Step(s, r).last)
         == if r.action == Buy then PutBooked(profits, asset, s.last)
            else Put(PutBooked(profits, asset, s.last), asset, Profit(r, Match(s.open, r.amount, 0.0, 0.0).cost))
  {
    if r.action == Sell {
      var profit := Profit(r, Match(s.open, r.amount, 0.0, 0.0).cost);
      StepOnSell(s, r);
      assert PutBooked(profits, asset, Step(s, r).last) == Put(profits, asset, profit);
      match s.last {
        case Some(p) =>
          PutOverwrites(profits, asset, p, profit);
          assert PutBooked(profits, asset, s.last) == Put(profits, asset, p);
        case None =>
          assert PutBooked(profits, asset, s.last) == profits;
      }
    } else {
      assert Step(s, r) == State(Insert(Lot(r.price, r.amount), s.open), s.last);
    }
  }

  /** `BookRecord` for the next of an asset's rows. */
  lemma BookRow(profits: seq<Entry>, asset: string, rows: seq<Record>, row: nat)
    requires row < |rows|
    ensures Replay(rows[..row + 1]).open
         == if rows[row].action == Buy then Insert(Lot(rows[row].price, rows[row].amount), Replay(rows[..row]).open)
            else Match(Replay(rows[..row]).open, rows[row].amount, 0.0, 0.0).open
    ensures PutBooked(profits, asset, Replay(rows[..row + 1]).last)
         == if rows[row].action == Buy then PutBooked(profits, asset, Replay(rows[..row]).last)
            else Put(PutBooked(profits, asset, Replay(rows[..row]).last), asset,
                     Profit(rows[row], Match(Replay(rows[..row]).open, rows[row].amount, 0.0, 0.0).cost))
  {
    var before, r := Replay(rows[..row]), rows[row];
    ReplayNext(rows, row);
    BookRecord(profits, asset, before, r);
  }

  /** The engine's work on one asset: skip an asset with a single record;
      otherwise replay its rows with a heap of open lots (`Insert` pushes a
      lot, `Sell` runs the matching loop) and write each Sell's profit to
      `profits[asset]`. */
  method ProcessAsset(asset: string, rows: seq<Record>, profits: seq<Entry>) returns (updated: seq<Entry>)
    ensures updated == PutBooked(profits, asset, if |rows| == 1 then None else Replay(rows).last)
  {
    updated := profits;
    if |rows| == 1 {
      return;
    }
    var maxHeap: seq<Lot> := [];
    for row := 0 to |rows|
      invariant maxHeap == Replay(rows[..row]).open
      invariant updated == PutBooked(profits, asset, Replay(rows[..row]).last)
    {
      var r := rows[row];
      BookRow(profits, asset, rows, row);
      if r.action == Buy {
        maxHeap := Insert(Lot(r.price, r.amount), maxHeap);
      } else {
        var cost;
        maxHeap, cost := Matching.Sell(maxHeap, r.amount);
        var profit := Profit(r, cost);
        updated := Put(updated, asset, profit);
      }
    }
    assert rows[..|rows|] == rows;
  }

  /** `profits` holds what the engine books for the assets of `done`, in
      their order, and nothing else; `GrandTotal` is their sum. */
  ghost predicate BookedSoFar(records: seq<Record>, done: seq<string>, profits: seq<Entry>)
  {
    Keys(profits) == Booked(done, records) &&
    (forall a :: Lookup(profits, a) == if a in done then Expected(records, a) else None) &&
    GrandTotal(profits) == SumBooked(done, records)
  }

  /** Booking one more asset, not seen before, extends what is booked. */
  lemma BookNext(records: seq<Record>, done: seq<string>, a: string, profits: seq<Entry>)
    requires BookedSoFar(records, done, profits) && a !in done
    ensures BookedSoFar(records, done + [a], PutBooked(profits, a, Expected(records, a)))
  {
    var after := PutBooked(profits, a, Expected(records, a));
    assert (done + [a])[..|done|] == done;
    match Expected(records, a) {
      case None =>
      case Some(v) =>
        assert Lookup(profits, a) == None;
        assert after == profits + [Entry(a, v)];
        assert Keys(after) == Keys(profits) + [a];
        GrandTotalPut(profits, a, v);
        forall b ensures Lookup(after, b) == if b in done + [a] then Expected(records, b) else None {
          PutThenLookup(profits, a, v, b);
        }
    }
  }

  /** Once every asset is booked, every lookup reads what the engine books. */
  lemma BookedAll(records: seq<Record>, profits: seq<Entry>)
    requires BookedSoFar(records, Assets(records), profits)
    ensures forall a :: Lookup(profits, a) == Expected(records, a)
  {
    forall a ensures Lookup(profits, a) == Expected(records, a) {
      if a !in Assets(records) {
        ExpectedNeedsRecords(records, a);
      }
    }
  }

  /** `process`: the profits dictionary, one entry per asset that booked a
      profit, in order of the assets' first appearance, each holding the
      profit of that asset's latest Sell; and its grand total. */
  method Process(records: seq<Record>) returns (profits: seq<Entry>, total: real)
    ensures Keys(profits) == Booked(Assets(records), records)
    ensures Distinct(Keys(profits))
    ensures forall a :: Lookup(profits, a) == Expected(records, a)
    ensures total == SumBooked(Assets(records), records)
  {
    var assets := Assets(records);
    var data := SortRecords(records);
    profits := [];
    for k := 0 to |assets|
      invariant BookedSoFar(records, assets[..k], profits)
    {
      var a := assets[k];
      assert assets[..k + 1] == assets[..k] + [a];
      assert a !in assets[..k];
      BookNext(records, assets[..k], a, profits);
      profits := ProcessAsset(a, RowsOf(data, a), profits);
    }
    assert assets[..|assets|] == assets;
    BookedAll(records, profits);
    BookedDistinct(assets, records);
    total := GrandTotal(profits);
  }

  /** An asset has records only if it is one of the assets. */
  lemma RowsNeedAsset(records: seq<Record>, a: string)
    ensures RowsOf(SortRecords(records), a) != [] ==> a in Assets(records)
  {
    var rows := RowsOf(SortRecords(records), a);
    if rows != [] {
      var x := rows[0];
      assert x in rows;
      SortRecordsSorts(records);
      assert x in multiset(records);
      var j :| 0 <= j < |records| && records[j] == x;
    }
  }

  /** An asset that has no record gets no profit. */
  lemma ExpectedNeedsRecords(records: seq<Record>, a: string)
    requires a !in Assets(records)
    ensures Expected(records, a) == None
  {
    RowsNeedAsset(records, a);
    assert RowsOf(SortRecords(records), a) == [];
  }
}
