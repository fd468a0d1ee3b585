/**
 * The request handlers of the ledger service over an in-memory store.
 * Each handler is a method of `Store`; a storage fault is an input naming
 * whether (and for the sale, at which statement) the store throws.
 */
module Service {
  import opened Wrappers
  import opened Stocks
  import opened Sales
  import opened Decimal

  /** The JSON (or plain-text) body of a response. */
  datatype Body =
    | StockJson(stock: StockRow)                    // a row returned by `RETURNING *`
    | StockMapJson(amounts: map<string, int>)       // `{ name: amount, ... }`
    | SaleJson(sale: SaleRow)                       // the inserted sale row
    | MessageJson(message: string)                  // `{ message }`
    | ErrorJson(message: string, details: string)   // `{ message, details }`
    | TotalJson(total: int)                         // `{ total_sales }`
    | Text(text: string)                            // `res.send(text)`

  datatype Response = Response(status: nat, body: Body)

  const NameRequired := "Name is required"
  const StockNotFound := "Stock not found"
  const InsufficientStock := "Insufficient stock"
  const NoStocksToDelete := "No stocks to delete"

  /** The answer of every stock or aggregate handler whose query throws. */
  const InternalError := Response(500, MessageJson("ERROR"))

  /** The body of `POST /v1/sales`; an absent field and a JSON null are both `None`. */
  datatype SaleRequest = SaleRequest(name: Option<string>, amount: Option<int>, price: Option<int>)

  /** `if (!name)` fails for an absent, null or empty name. */
  predicate HasName(name: Option<string>): (r: bool)
    ensures name.None? ==> !r
    ensures name == Some("") ==> !r
    ensures name.Some? && |name.value| > 0 ==> r
  {
    name.Some? && name.value != ""
  }

  /** `amount ?? 1`. */
  function Quantity(amount: Option<int>): (q: int)
    ensures amount.None? ==> q == 1
    ensures amount.Some? ==> q == amount.value
  {
    amount.GetOr(1)
  }

  /** The statements of the sale transaction, in the order they run. */
  datatype Stage = Begin | Probe | Lookup | Insert | Debit | Commit

  /** Whether one statement of the sale transaction throws, and with which message. */
  datatype SaleFault = NoFault | FaultAt(stage: Stage, details: string)

  predicate FailsAt(fault: SaleFault, stage: Stage)
  {
    fault.FaultAt? && fault.stage == stage
  }

  /** BEGIN, `SELECT 1` or the stock lookup throws: a statement before the name-dependent checks end. */
  predicate ThrowsBeforeWrites(fault: SaleFault)
  {
    FailsAt(fault, Begin) || FailsAt(fault, Probe) || FailsAt(fault, Lookup)
  }

  /**
   * The `catch` of the sale handler: an error whose message is one of the
   * three business messages answers 400 with that message, any other
   * answers 500 and echoes the message as details. The test is on the text
   * alone, so a storage error carrying one of those texts also answers 400.
   */
  function SaleFailure(message: string): (r: Response)
    ensures r.status == 400 <==> message == StockNotFound || message == InsufficientStock || message == NameRequired
    ensures r.status == 400 ==> r.body == MessageJson(message)
    ensures r.status != 400 ==> r == Response(500, ErrorJson("ERROR", message))
  {
    if message == StockNotFound || message == InsufficientStock || message == NameRequired then
      Response(400, MessageJson(message))
    else
      Response(500, ErrorJson("ERROR", message))
  }

  /** The first row named `name` exists and holds at least `q`. */
  predicate CanSell(stocks: seq<StockRow>, name: string, q: int)
  {
    var hit := FirstIndex(stocks, name, Exact);
    hit.Some? && stocks[hit.value].amount >= q
  }

  /** The business checks of the sale pass. */
  predicate Admissible(stocks: seq<StockRow>, req: SaleRequest)
  {
    HasName(req.name) && CanSell(stocks, req.name.value, Quantity(req.amount))
  }

  /**
   * The message of the first error the sale handler throws before it writes
   * anything (BEGIN, the name check, SELECT 1, the stock lookup, existence,
   * sufficiency), or None when it reaches the INSERT.
   */
  function CheckAbort(stocks: seq<StockRow>, req: SaleRequest, fault: SaleFault): (r: Option<string>)
    ensures r.None? <==> Admissible(stocks, req) && !ThrowsBeforeWrites(fault)
    ensures r.Some? && !ThrowsBeforeWrites(fault) ==>
      r.value == NameRequired || r.value == StockNotFound || r.value == InsufficientStock
  {
    if FailsAt(fault, Begin) then Some(fault.details)
    else if !HasName(req.name) then Some(NameRequired)
    else if FailsAt(fault, Probe) || FailsAt(fault, Lookup) then Some(fault.details)
    else
      var hit := FirstIndex(stocks, req.name.value, Exact);
      if hit.None? then Some(StockNotFound)
      else if stocks[hit.value].amount < Quantity(req.amount) then Some(InsufficientStock)
      else None
  }

  /**
   * The message of the first error the whole sale transaction throws: a
   * check above, else the fault of the INSERT, UPDATE or COMMIT; None when
   * the transaction commits.
   */
  function SaleAbort(stocks: seq<StockRow>, req: SaleRequest, fault: SaleFault): (r: Option<string>)
    ensures r.None? <==> Admissible(stocks, req) && fault == NoFault
    ensures r.Some? && fault == NoFault ==>
      r.value == NameRequired || r.value == StockNotFound || r.value == InsufficientStock
  {
    if CheckAbort(stocks, req, fault).Some? then CheckAbort(stocks, req, fault)
    else if fault.FaultAt? then Some(fault.details)
    else None
  }

  /** The two tables and the `serial` sequence of `sales.id`. */
  class Store {
    var stocks: seq<StockRow>
    var sales: seq<SaleRow>
    var nextSaleId: nat

    ghost predicate Valid()
      reads this
    {
      nextSaleId >= 1 && IdsBelow(sales, nextSaleId)
    }

    constructor ()
      ensures Valid()
      ensures stocks == [] && sales == [] && nextSaleId == 1
    {
      stocks := [];
      sales := [];
      nextSaleId := 1;
    }

    /** `POST /v1/stocks`: inserts the row and returns it with 201. */
    method CreateStock(name: string, amount: int, fault: bool) returns (r: Response)
      requires Valid()
      modifies this`stocks
      ensures Valid()
      ensures fault ==> r == InternalError && stocks == old(stocks)
      ensures !fault ==> stocks == old(stocks) + [StockRow(name, amount)]
      ensures !fault ==> r == Response(201, StockJson(StockRow(name, amount)))
    {
      if fault {
        return InternalError;
      }
      var row := StockRow(name, amount);
      stocks := stocks + [row];
      r := Response(201, StockJson(row));
    }

    /** `GET /v1/stocks`: every name with the largest amount among its rows. */
    method ListStocks(fault: bool) returns (r: Response)
      ensures fault ==> r == InternalError
      ensures !fault ==> r == Response(200, StockMapJson(ListAll(stocks)))
      ensures !fault ==> r.body.amounts.Keys == Names(stocks)
      ensures !fault ==> forall i :: 0 <= i < |stocks| ==> stocks[i].amount <= r.body.amounts[stocks[i].name]
      ensures !fault ==> forall n :: n in r.body.amounts ==>
        exists i :: 0 <= i < |stocks| && stocks[i] == StockRow(n, r.body.amounts[n])
    {
      if fault {
        return InternalError;
      }
      r := Response(200, StockMapJson(ListAll(stocks)));
    }

    /** `GET /v1/stocks/:name`: the first row whose name equals `name` ignoring case. */
    method GetStock(name: string, fault: bool) returns (r: Response)
      ensures fault ==> r == InternalError
      ensures !fault && FirstIndex(stocks, name, IgnoringCase).None? ==> r == Response(404, Text(StockNotFound))
      ensures !fault && FirstIndex(stocks, name, IgnoringCase).Some? ==>
        var row := stocks[FirstIndex(stocks, name, IgnoringCase).value];
        r == Response(200, StockMapJson(map[row.name := row.amount]))
    {
      if fault {
        return InternalError;
      }
      var hit := FirstIndex(stocks, name, IgnoringCase);
      if hit.None? {
        return Response(404, Text(StockNotFound));
      }
      var row := stocks[hit.value];
      r := Response(200, StockMapJson(map[row.name := row.amount]));
    }

    /** `PUT /v1/stocks/:name`: sets the amount of every row named exactly `name`. */
    method UpdateStock(name: string, amount: int, fault: bool) returns (r: Response)
      requires Valid()
      modifies this`stocks
      ensures Valid()
      ensures fault ==> r == InternalError && stocks == old(stocks)
      ensures !fault ==> stocks == UpdateWhere(old(stocks), name, SetTo(amount))
      ensures !fault && FirstIndex(old(stocks), name, Exact).None? ==>
        r == Response(404, Text(StockNotFound)) && stocks == old(stocks)
      ensures !fault && FirstIndex(old(stocks), name, Exact).Some? ==>
        r == Response(200, StockJson(StockRow(name, amount)))
    {
      if fault {
        return InternalError;
      }
      var hit := FirstIndex(stocks, name, Exact);
      if hit.None? {
        UpdateWithoutMatchChangesNothing(stocks, name, SetTo(amount));
      }
      stocks := UpdateWhere(stocks, name, SetTo(amount));
      if hit.None? {
        return Response(404, Text(StockNotFound));
      }
      r := Response(200, StockJson(stocks[hit.value]));
    }

    /** `DELETE /v1/stocks`: empties the table and reports how many rows went. */
    method DeleteStocks(fault: bool) returns (r: Response)
      requires Valid()
      modifies this`stocks
      ensures Valid()
      ensures fault ==> r == InternalError && stocks == old(stocks)
      ensures !fault ==> stocks == []
      ensures !fault && old(stocks) == [] ==> r == Response(404, Text(NoStocksToDelete))
      ensures !fault && old(stocks) != [] ==>
        r == Response(200, MessageJson("Successfully deleted " + NatToString(|old(stocks)|) + " stocks"))
    {
      if fault {
        return InternalError;
      }
      var deleted := |stocks|;
      stocks := [];
      if deleted == 0 {
        return Response(404, Text(NoStocksToDelete));
      }
      r := Response(200, MessageJson("Successfully deleted " + NatToString(deleted) + " stocks"));
    }

    /**
     * `POST /v1/sales`: within one transaction, checks the request and the
     * first stock row of that name, appends the sale and debits the stock;
     * on any thrown error the writes so far are rolled back.
     */
    method RecordSale(req: SaleRequest, fault: SaleFault) returns (r: Response)
      requires Valid()
      modifies this
      ensures Valid()
      // the full outcome, in the handler's order of decisions
      ensures SaleAbort(old(stocks), req, fault).Some? ==>
        r == SaleFailure(SaleAbort(old(stocks), req, fault).value)
      ensures SaleAbort(old(stocks), req, fault).None? ==>
        && r == Response(201, SaleJson(SaleRow(old(nextSaleId), req.name.value, Quantity(req.amount), req.price)))
        && sales == old(sales) + [r.body.sale]
        && stocks == UpdateWhere(old(stocks), req.name.value, DecreaseBy(Quantity(req.amount)))
      // success exactly when no statement throws and the business checks pass
      ensures r.status == 201 <==> fault == NoFault && Admissible(old(stocks), req)
      ensures r.status == 201 || r.status == 400 || r.status == 500
      // atomicity: no answer but 201 leaves a trace in either table
      ensures r.status != 201 ==> stocks == old(stocks) && sales == old(sales)
      // the id sequence, not being transactional, advances whenever the INSERT ran
      ensures nextSaleId == old(nextSaleId) +
        (if Admissible(old(stocks), req) && !FailsAt(fault, Begin) && !FailsAt(fault, Probe)
            && !FailsAt(fault, Lookup) && !FailsAt(fault, Insert) then 1 else 0)
      // properties of a committed sale
      ensures r.status == 201 && req.amount.None? ==> r.body.sale.amount == 1
      ensures r.status == 201 ==>
        var k := FirstIndex(old(stocks), req.name.value, Exact).value;
        stocks[k].amount == old(stocks)[k].amount - r.body.sale.amount >= 0
      ensures r.status == 201 ==> TotalSales(sales) == TotalSales(old(sales)) + RowRevenue(r.body.sale)
    {
      var savedStocks, savedSales := stocks, sales;   // the snapshot BEGIN opens
      var failure := CheckSale(req, fault);
      if failure.Some? {
        r := RollBack(failure.value, savedStocks, savedSales);
        return;
      }
      var sale := SaleRow(nextSaleId, req.name.value, Quantity(req.amount), req.price);
      failure := WriteSale(sale, fault);
      if failure.Some? {
        r := RollBack(failure.value, savedStocks, savedSales);
        return;
      }
      TotalSalesAppend(savedSales, sale);
      r := Response(201, SaleJson(sale));
    }

    /**
     * The statements of the sale before its first write: BEGIN, the name
     * check, `SELECT 1`, and the lookup of the first row named exactly
     * `name` with its existence and sufficiency checks. Returns the message
     * of the error thrown, if any.
     */
    method CheckSale(req: SaleRequest, fault: SaleFault) returns (failure: Option<string>)
      ensures FailsAt(fault, Begin) ==> failure == Some(fault.details)
      ensures !FailsAt(fault, Begin) && !HasName(req.name) ==> failure == Some(NameRequired)
      ensures !FailsAt(fault, Begin) && HasName(req.name) && ThrowsBeforeWrites(fault) ==>
        failure == Some(fault.details)
      ensures !ThrowsBeforeWrites(fault) && HasName(req.name) && FirstIndex(stocks, req.name.value, Exact).None? ==>
        failure == Some(StockNotFound)
      ensures !ThrowsBeforeWrites(fault) && HasName(req.name) && FirstIndex(stocks, req.name.value, Exact).Some? ==>
        !CanSell(stocks, req.name.value, Quantity(req.amount)) ==> failure == Some(InsufficientStock)
      ensures failure.None? <==> Admissible(stocks, req) && !ThrowsBeforeWrites(fault)
    {
      if FailsAt(fault, Begin) {
        return Some(fault.details);
      }
      if !HasName(req.name) {
        return Some(NameRequired);
      }
      var name, amount := req.name.value, Quantity(req.amount);
      if FailsAt(fault, Probe) || FailsAt(fault, Lookup) {
        return Some(fault.details);
      }
      var hit := FirstIndex(stocks, name, Exact);
      if hit.None? {
        return Some(StockNotFound);
      }
      if stocks[hit.value].amount < amount {
        return Some(InsufficientStock);
      }
      failure := None;
    }

    /**
     * The writes of the sale: INSERT the row (which takes the next id),
     * UPDATE every stock row of that name, COMMIT. Returns the message of
     * the statement that throws, if any; the caller rolls back.
     */
    method WriteSale(sale: SaleRow, fault: SaleFault) returns (failure: Option<string>)
      requires Valid() && sale.id == nextSaleId
      requires !ThrowsBeforeWrites(fault)
      modifies this
      ensures Valid()
      ensures failure == (if fault.FaultAt? then Some(fault.details) else None)
      ensures nextSaleId == old(nextSaleId) + (if FailsAt(fault, Insert) then 0 else 1)
      ensures FailsAt(fault, Insert) ==> sales == old(sales) && stocks == old(stocks)
      ensures !FailsAt(fault, Insert) ==> sales == old(sales) + [sale]
      ensures FailsAt(fault, Debit) ==> stocks == old(stocks)
      ensures !FailsAt(fault, Insert) && !FailsAt(fault, Debit) ==>
        stocks == UpdateWhere(old(stocks), sale.name, DecreaseBy(sale.amount))
    {
      if FailsAt(fault, Insert) {
        return Some(fault.details);
      }
      IdsBelowAppend(sales, nextSaleId, sale);
      sales := sales + [sale];
      nextSaleId := nextSaleId + 1;
      if FailsAt(fault, Debit) {
        return Some(fault.details);
      }
      stocks := UpdateWhere(stocks, sale.name, DecreaseBy(sale.amount));
      if FailsAt(fault, Commit) {
        return Some(fault.details);
      }
      failure := None;
    }

    /**
     * The `catch` of the sale handler: ROLLBACK restores both tables to the
     * snapshot taken at BEGIN (the id sequence is not restored), and the
     * message is classified into the answer.
     */
    method RollBack(message: string, savedStocks: seq<StockRow>, savedSales: seq<SaleRow>) returns (r: Response)
      requires IdsBelow(savedSales, nextSaleId) && nextSaleId >= 1
      modifies this`stocks, this`sales
      ensures Valid()
      ensures stocks == savedStocks && sales == savedSales
      ensures r == SaleFailure(message)
    {
      stocks, sales := savedStocks, savedSales;
      r := SaleFailure(message);
    }

    /** `GET /v1/sales`: the revenue of all priced sales. */
    method GetTotalSales(fault: bool) returns (r: Response)
      ensures fault ==> r == InternalError
      ensures !fault ==> r == Response(200, TotalJson(Revenue(sales)))
      ensures !fault && (forall i :: 0 <= i < |sales| ==> sales[i].price.None?) ==> r == Response(200, TotalJson(0))
    {
      if fault {
        return InternalError;
      }
      r := Response(200, TotalJson(TotalSales(sales)));
    }
  }

  /**
   * A negative amount is not refused: five widgets in stock, a sale of -3
   * passes both checks, commits, and leaves eight widgets.
   */
  lemma NegativeAmountRaisesStock()
    ensures var stocks := [StockRow("widget", 5)];
      var req := SaleRequest(Some("widget"), Some(-3), None);
      && SaleAbort(stocks, req, NoFault) == None
      && UpdateWhere(stocks, "widget", DecreaseBy(Quantity(req.amount))) == [StockRow("widget", 8)]
  {
  }

  /** A scenario: create a stock of ten widgets, then sell four of them at price 2. */
  method WidgetScenario()
  {
    var store := new Store();
    var r := store.CreateStock("widget", 10, false);
    assert store.stocks == [StockRow("widget", 10)];
    assert FirstIndex(store.stocks, "widget", Exact) == Some(0);

    r := store.RecordSale(SaleRequest(Some("widget"), Some(4), Some(2)), NoFault);
    assert r == Response(201, SaleJson(SaleRow(1, "widget", 4, Some(2))));
    assert store.stocks == [StockRow("widget", 6)];
    assert store.sales == [SaleRow(1, "widget", 4, Some(2))];
  }

  /** A scenario: asking for more widgets than the six in stock is refused and changes nothing. */
  method InsufficientScenario()
  {
    var store := new Store();
    var r := store.CreateStock("widget", 6, false);
    assert FirstIndex(store.stocks, "widget", Exact) == Some(0);

    r := store.RecordSale(SaleRequest(Some("widget"), Some(100), None), NoFault);
    assert r == Response(400, MessageJson(InsufficientStock));
    assert store.stocks == [StockRow("widget", 6)] && store.sales == [];
  }

  /** A scenario: deleting from an empty table answers 404 and leaves it empty. */
  method EmptyDeleteScenario()
  {
    var store := new Store();
    var r := store.DeleteStocks(false);
    assert r == Response(404, Text(NoStocksToDelete));
    assert store.stocks == [];
  }
}
