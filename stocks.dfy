/**
 * The `stocks(name text, amount integer)` table as a sequence of rows,
 * and the statements app.js runs against it, stated on values.
 * Names are not unique: nothing in the schema or in the create handler
 * prevents two rows with the same name.
 */
module Stocks {
  import opened Wrappers

  datatype StockRow = StockRow(name: string, amount: int)

  /** How a `WHERE` clause compares a stored name with the requested one. */
  datatype NameMatch =
    | Exact          // `name = $1`
    | IgnoringCase   // `name ILIKE $1`, for a pattern without wildcards

  function LowerAscii(c: char): char
  {
    if 'A' <= c <= 'Z' then (c as int + 32) as char else c
  }

  predicate SameIgnoringCase(a: string, b: string)
  {
    |a| == |b| && forall i :: 0 <= i < |a| ==> LowerAscii(a[i]) == LowerAscii(b[i])
  }

  predicate Matches(mode: NameMatch, wanted: string, stored: string)
  {
    match mode
    case Exact => stored == wanted
    case IgnoringCase => SameIgnoringCase(stored, wanted)
  }

  /** The position of `rows[0]` of a `SELECT ... WHERE` over the table: the first matching row. */
  function FirstIndex(rows: seq<StockRow>, wanted: string, mode: NameMatch): (r: Option<nat>)
    ensures r.Some? ==> r.value < |rows| && Matches(mode, wanted, rows[r.value].name)
    ensures r.Some? ==> forall j :: 0 <= j < r.value ==> !Matches(mode, wanted, rows[j].name)
    ensures r.None? <==> forall j :: 0 <= j < |rows| ==> !Matches(mode, wanted, rows[j].name)
  {
    if rows == [] then None
    else if Matches(mode, wanted, rows[0].name) then Some(0)
    else match FirstIndex(rows[1..], wanted, mode)
      case None => None
      case Some(k) => Some(k + 1)
  }

  /** The right-hand side of `SET amount = ...`. */
  datatype AmountUpdate =
    | SetTo(value: int)       // `SET amount = $2`
    | DecreaseBy(delta: int)  // `SET amount = amount - $1`

  function Apply(u: AmountUpdate, amount: int): int
  {
    match u
    case SetTo(v) => v
    case DecreaseBy(d) => amount - d
  }

  /** `UPDATE stocks SET amount = ... WHERE name = $n`: every row with exactly that name is rewritten, in place. */
  function UpdateWhere(rows: seq<StockRow>, name: string, u: AmountUpdate): (r: seq<StockRow>)
    ensures |r| == |rows|
    ensures forall i :: 0 <= i < |rows| && rows[i].name == name ==> r[i] == StockRow(name, Apply(u, rows[i].amount))
    ensures forall i :: 0 <= i < |rows| && rows[i].name != name ==> r[i] == rows[i]
  {
    if rows == [] then []
    else
      var head := if rows[0].name == name then StockRow(name, Apply(u, rows[0].amount)) else rows[0];
      [head] + UpdateWhere(rows[1..], name, u)
  }

  lemma UpdateWithoutMatchChangesNothing(rows: seq<StockRow>, name: string, u: AmountUpdate)
    requires FirstIndex(rows, name, Exact).None?
    ensures UpdateWhere(rows, name, u) == rows
  {
  }

  predicate AllNonNegative(rows: seq<StockRow>)
  {
    forall i :: 0 <= i < |rows| ==> rows[i].amount >= 0
  }

  /** At most one row carries `name`. */
  predicate UniqueName(rows: seq<StockRow>, name: string)
  {
    forall i, j :: 0 <= i < |rows| && 0 <= j < |rows| && rows[i].name == name && rows[j].name == name ==> i == j
  }

  /**
   * A debit of `delta` that passed the sufficiency check on the first row
   * named `name` keeps the whole table non-negative when that name is unique.
   */
  lemma CheckedDebitKeepsStockNonNegative(rows: seq<StockRow>, name: string, delta: int)
    requires AllNonNegative(rows) && UniqueName(rows, name)
    requires FirstIndex(rows, name, Exact).Some?
    requires rows[FirstIndex(rows, name, Exact).value].amount >= delta
    ensures AllNonNegative(UpdateWhere(rows, name, DecreaseBy(delta)))
  {
  }

  /**
   * Without a unique name the check on the first row does not protect the
   * others: two rows named "widget" holding 5 and 1, a sale of 3 passes the
   * check on the first and leaves the second at -2.
   */
  lemma DuplicateNameCanGoNegative()
    ensures var rows := [StockRow("widget", 5), StockRow("widget", 1)];
      && AllNonNegative(rows)
      && FirstIndex(rows, "widget", Exact) == Some(0)
      && rows[0].amount >= 3
      && UpdateWhere(rows, "widget", DecreaseBy(3))[1].amount == -2
  {
  }

  // ----- GET /v1/stocks: `ORDER BY amount ASC`, then a fold into an object -----

  predicate SortedByAmount(rows: seq<StockRow>)
  {
    forall i, j :: 0 <= i < j < |rows| ==> rows[i].amount <= rows[j].amount
  }

  /** Places `x` before the first row of `rows` whose amount is not smaller. */
  function InsertByAmount(x: StockRow, rows: seq<StockRow>): seq<StockRow>
  {
    if rows == [] || x.amount <= rows[0].amount then [x] + rows
    else [rows[0]] + InsertByAmount(x, rows[1..])
  }

  /** The rows in ascending order of amount, as `ORDER BY amount ASC` returns them. */
  function SortByAmount(rows: seq<StockRow>): seq<StockRow>
  {
    if rows == [] then [] else InsertByAmount(rows[0], SortByAmount(rows[1..]))
  }

  lemma SortedCons(head: StockRow, tail: seq<StockRow>)
    requires SortedByAmount(tail) && (tail != [] ==> head.amount <= tail[0].amount)
    ensures SortedByAmount([head] + tail)
  {
  }

  /** Inserting into a sorted table keeps it sorted and adds exactly that row. */
  lemma {:induction false} InsertByAmountSorts(x: StockRow, rows: seq<StockRow>)
    requires SortedByAmount(rows)
    ensures SortedByAmount(InsertByAmount(x, rows))
    ensures multiset(InsertByAmount(x, rows)) == multiset(rows) + multiset{x}
    ensures var r := InsertByAmount(x, rows); |r| == |rows| + 1 && (r[0] == x || (rows != [] && r[0] == rows[0]))
  {
    if rows == [] || x.amount <= rows[0].amount {
      SortedCons(x, rows);
    } else {
      var tail := InsertByAmount(x, rows[1..]);
      assert SortedByAmount(rows[1..]) by {
        forall i, j | 0 <= i < j < |rows[1..]| ensures rows[1..][i].amount <= rows[1..][j].amount {
          assert rows[1..][i] == rows[i + 1] && rows[1..][j] == rows[j + 1];
        }
      }
      InsertByAmountSorts(x, rows[1..]);
      assert rows == [rows[0]] + rows[1..];
      SortedCons(rows[0], tail);
    }
  }

  /** `ORDER BY amount ASC` returns the same rows, in ascending order of amount. */
  lemma {:induction false} SortByAmountSorts(rows: seq<StockRow>)
    ensures SortedByAmount(SortByAmount(rows))
    ensures multiset(SortByAmount(rows)) == multiset(rows)
  {
    if rows != [] {
      SortByAmountSorts(rows[1..]);
      InsertByAmountSorts(rows[0], SortByAmount(rows[1..]));
      assert rows == [rows[0]] + rows[1..];
    }
  }

  function Names(rows: seq<StockRow>): set<string>
  {
    set i | 0 <= i < |rows| :: rows[i].name
  }

  lemma NamesOfSnoc(init: seq<StockRow>, last: StockRow)
    ensures Names(init + [last]) == Names(init) + {last.name}
  {
    var rows := init + [last];
    forall n | n in Names(rows) ensures n in Names(init) + {last.name} {
      var i :| 0 <= i < |rows| && rows[i].name == n;
      if i < |init| { assert init[i].name == n; }
    }
    forall n | n in Names(init) ensures n in Names(rows) {
      var i :| 0 <= i < |init| && init[i].name == n;
      assert rows[i].name == n;
    }
    assert rows[|init|].name == last.name;
  }

  /**
   * `rows.reduce((acc, stock) => { acc[stock.name] = stock.amount; return acc; }, {})`:
   * one key per name, and a name seen twice keeps the amount of its later row.
   */
  function FoldRows(rows: seq<StockRow>): (m: map<string, int>)
    ensures m.Keys == Names(rows)
    ensures forall i :: 0 <= i < |rows| && (forall j :: i < j < |rows| ==> rows[j].name != rows[i].name) ==>
      m[rows[i].name] == rows[i].amount
  {
    if rows == [] then map[]
    else
      var init := rows[..|rows| - 1];
      var last := rows[|rows| - 1];
      assert forall i :: 0 <= i < |init| ==> init[i] == rows[i];
      NamesOfSnoc(init, last);
      assert rows == init + [last];
      FoldRows(init)[last.name := last.amount]
  }

  /** The last row of `rows` that carries `name`. */
  ghost function LastWith(rows: seq<StockRow>, name: string): (k: nat)
    requires name in Names(rows)
    ensures k < |rows| && rows[k].name == name
    ensures forall j :: k < j < |rows| ==> rows[j].name != name
  {
    var last := |rows| - 1;
    if rows[last].name == name then last
    else
      var init := rows[..last];
      assert name in Names(init) by {
        var i :| 0 <= i < |rows| && rows[i].name == name;
        assert init[i].name == name;
      }
      LastWith(init, name)
  }

  lemma SameNamesWhenPermuted(a: seq<StockRow>, b: seq<StockRow>)
    requires multiset(a) == multiset(b)
    ensures Names(a) == Names(b)
  {
    forall n | n in Names(a) ensures n in Names(b) {
      var i :| 0 <= i < |a| && a[i].name == n;
      assert a[i] in multiset(b);
      var j :| 0 <= j < |b| && b[j] == a[i];
    }
    forall n | n in Names(b) ensures n in Names(a) {
      var i :| 0 <= i < |b| && b[i].name == n;
      assert b[i] in multiset(a);
      var j :| 0 <= j < |a| && a[j] == b[i];
    }
  }

  /** In a sorted table, the last row of a name holds no less than any row of that name. */
  lemma LastOfSortedIsLargest(s: seq<StockRow>, row: StockRow)
    requires SortedByAmount(s)
    requires row in s
    ensures row.name in Names(s)
    ensures row.amount <= s[LastWith(s, row.name)].amount
  {
  }

  /** Folding a sorted table bounds every row's amount by what it shows for the row's name. */
  lemma FoldOfSortedBoundsEveryRow(stocks: seq<StockRow>, s: seq<StockRow>, i: nat)
    requires SortedByAmount(s) && multiset(s) == multiset(stocks)
    requires i < |stocks|
    ensures stocks[i].name in FoldRows(s)
    ensures stocks[i].amount <= FoldRows(s)[stocks[i].name]
  {
    assert stocks[i] in multiset(s);
    LastOfSortedIsLargest(s, stocks[i]);
  }

  /** Every amount the fold of a permutation shows is the amount of a row of that name. */
  lemma FoldShowsSomeRow(stocks: seq<StockRow>, s: seq<StockRow>, n: string)
    requires multiset(s) == multiset(stocks)
    requires n in FoldRows(s)
    ensures exists i :: 0 <= i < |stocks| && stocks[i] == StockRow(n, FoldRows(s)[n])
  {
    var k := LastWith(s, n);
    assert FoldRows(s)[n] == s[k].amount;
    assert s[k] in multiset(stocks);
    var i :| 0 <= i < |stocks| && stocks[i] == s[k];
  }

  /**
   * Folding ANY ordering of the table by ascending amount gives one key per
   * stock name, mapped to the largest amount among the rows of that name:
   * the later row of an ascending order wins.
   */
  lemma FoldOfSortedKeepsLargest(stocks: seq<StockRow>, s: seq<StockRow>)
    requires SortedByAmount(s) && multiset(s) == multiset(stocks)
    ensures FoldRows(s).Keys == Names(stocks)
    ensures forall i :: 0 <= i < |stocks| ==> stocks[i].amount <= FoldRows(s)[stocks[i].name]
    ensures forall n :: n in FoldRows(s) ==>
      exists i :: 0 <= i < |stocks| && stocks[i] == StockRow(n, FoldRows(s)[n])
  {
    SameNamesWhenPermuted(s, stocks);
    forall i | 0 <= i < |stocks|
      ensures stocks[i].amount <= FoldRows(s)[stocks[i].name]
    {
      FoldOfSortedBoundsEveryRow(stocks, s, i);
    }
    forall n | n in FoldRows(s)
      ensures exists i :: 0 <= i < |stocks| && stocks[i] == StockRow(n, FoldRows(s)[n])
    {
      FoldShowsSomeRow(stocks, s, n);
    }
  }

  /**
   * The body of a successful `GET /v1/stocks`: one key per stock name, each
   * mapped to the largest amount among the rows of that name.
   */
  function ListAll(stocks: seq<StockRow>): (m: map<string, int>)
    ensures m.Keys == Names(stocks)
    ensures forall i :: 0 <= i < |stocks| ==> stocks[i].amount <= m[stocks[i].name]
    ensures forall n :: n in m ==> exists i :: 0 <= i < |stocks| && stocks[i] == StockRow(n, m[n])
  {
    SortByAmountSorts(stocks);
    FoldOfSortedKeepsLargest(stocks, SortByAmount(stocks));
    FoldRows(SortByAmount(stocks))
  }

  /**
   * SQL leaves the order of rows with equal amounts open; whichever sorted
   * permutation the store returns, the fold gives the same listing.
   */
  lemma ListAllIndependentOfTies(stocks: seq<StockRow>, s: seq<StockRow>)
    requires SortedByAmount(s) && multiset(s) == multiset(stocks)
    ensures FoldRows(s) == ListAll(stocks)
  {
    var m, l := FoldRows(s), ListAll(stocks);
    FoldOfSortedKeepsLargest(stocks, s);
    forall n | n in m ensures m[n] == l[n] {
      var i :| 0 <= i < |stocks| && stocks[i] == StockRow(n, m[n]);
      var j :| 0 <= j < |stocks| && stocks[j] == StockRow(n, l[n]);
      assert l[n] >= stocks[i].amount && m[n] >= stocks[j].amount;
    }
  }
}
