/**
 * The `sales(id serial, name text, amount integer, price numeric)` table and
 * the aggregate behind `GET /v1/sales`. Prices are whole minor units.
 */
module Sales {
  import opened Wrappers

  datatype SaleRow = SaleRow(id: nat, name: string, amount: int, price: Option<int>)

  /** What one row adds to the revenue: `amount * price`, nothing when the price is null. */
  function RowRevenue(s: SaleRow): int
  {
    match s.price
    case Some(p) => s.amount * p
    case None => 0
  }

  /** Reference definition: the revenue of every row, added up from the front. */
  function Revenue(sales: seq<SaleRow>): int
  {
    if sales == [] then 0 else RowRevenue(sales[0]) + Revenue(sales[1..])
  }

  lemma {:induction false} RevenueAppend(sales: seq<SaleRow>, s: SaleRow)
    ensures Revenue(sales + [s]) == Revenue(sales) + RowRevenue(s)
  {
    if sales == [] {
      assert [s][1..] == [];
    } else {
      assert (sales + [s])[1..] == sales[1..] + [s];
      RevenueAppend(sales[1..], s);
    }
  }

  /**
   * `SELECT SUM(amount * price) FROM sales`: SQL's SUM skips null terms and
   * is itself null when there is no non-null term at all.
   */
  function SumOfProducts(sales: seq<SaleRow>): (r: Option<int>)
    ensures r.None? <==> forall i :: 0 <= i < |sales| ==> sales[i].price.None?
  {
    if sales == [] then None
    else
      var init := sales[..|sales| - 1];
      var last := sales[|sales| - 1];
      assert forall i :: 0 <= i < |init| ==> init[i] == sales[i];
      match last.price
      case None => SumOfProducts(init)
      case Some(p) => Some(SumOfProducts(init).GetOr(0) + last.amount * p)
  }

  lemma {:induction false} SumOfProductsIsRevenue(sales: seq<SaleRow>)
    ensures SumOfProducts(sales).GetOr(0) == Revenue(sales)
  {
    if sales != [] {
      var init := sales[..|sales| - 1];
      var last := sales[|sales| - 1];
      assert sales == init + [last];
      SumOfProductsIsRevenue(init);
      RevenueAppend(init, last);
    }
  }

  /**
   * The `total_sales` a successful `GET /v1/sales` reports: 0 when the sum
   * is null, the sum otherwise.
   */
  function TotalSales(sales: seq<SaleRow>): (t: int)
    ensures (forall i :: 0 <= i < |sales| ==> sales[i].price.None?) ==> t == 0
    ensures t == Revenue(sales)
  {
    SumOfProductsIsRevenue(sales);
    match SumOfProducts(sales)
    case None => 0
    case Some(v) => v
  }

  /** Recording a sale of `amount` at `price` raises the total by exactly `amount * price`. */
  lemma TotalSalesAppend(sales: seq<SaleRow>, s: SaleRow)
    ensures TotalSales(sales + [s]) == TotalSales(sales) + RowRevenue(s)
  {
  }

  /** Sales ids strictly increase down the table and stay below the next value of the `serial` sequence. */
  predicate IdsBelow(sales: seq<SaleRow>, next: nat)
  {
    && (forall i :: 0 <= i < |sales| ==> sales[i].id < next)
    && (forall i, j :: 0 <= i < j < |sales| ==> sales[i].id < sales[j].id)
  }

  /** Appending a row that takes the next id, then advancing the sequence, keeps the ids ordered. */
  lemma IdsBelowAppend(sales: seq<SaleRow>, next: nat, s: SaleRow)
    requires IdsBelow(sales, next) && s.id == next
    ensures IdsBelow(sales + [s], next + 1)
  {
  }
}
