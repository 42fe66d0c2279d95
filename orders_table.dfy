/**
 * The orders table component state (src/Components/TotalOrders/Orders.js):
 * the fetched list, the loading flag and the order whose details are open.
 *
 * The network call is left out; its reply is a parameter. As written, the
 * fetch handler sorts the axios response object itself rather than its
 * `data` list; the object has no `sort`, the call throws, the handler's
 * catch swallows the error, and the list stays empty. Both the handler as
 * written and the corrected one that sorts `response.data` are modelled.
 */
module OrdersTable {
  import opened OrderRecord
  import opened OrderStatus
  import opened DateSort

  /** An axios response: the server's order list is its `data` field. */
  datatype Response = Response(data: seq<Order>, status: int)

  datatype Row = Row(date: string, customer: string, amount: Option<int>, payment: string,
                     text: string, tone: Tone, icon: Icon)

  datatype Table = Rows(rows: seq<Row>) | NoOrdersYet

  datatype Screen =
    | Spinner
    | Page(cards: Cards, table: Table, details: Option<Details>)

  function RowOf(o: Order): Row
  {
    Row(o.date, o.deliveryDetails.name, Amount(o), PaymentLabel(o),
        StatusText(o), StatusColor(o), StatusIcon(o))
  }

  function RowsOf(orders: seq<Order>): (rows: seq<Row>)
    ensures |rows| == |orders|
    ensures forall i :: 0 <= i < |orders| ==> rows[i] == RowOf(orders[i])
  {
    if orders == [] then [] else [RowOf(orders[0])] + RowsOf(orders[1..])
  }

  class OrdersTable {
    var orders: seq<Order>
    var isLoading: bool
    var selectedOrder: Option<Order>

    constructor ()
      ensures orders == [] && isLoading && selectedOrder == None
    {
      orders := [];
      isLoading := true;
      selectedOrder := None;
    }

    /** Loading is raised before the request goes out. */
    method BeginFetch()
      modifies this`isLoading
      ensures isLoading
    {
      isLoading := true;
    }

    /**
     * The corrected handler: the reply's list is sorted in place latest
     * first, stored, and loading ends.
     */
    method FetchSucceeded(data: array<Order>, parse: string -> int)
      modifies this`orders, this`isLoading, data
      ensures orders == data[..]
      ensures SortedDesc(orders, parse)
      ensures multiset(orders) == multiset(old(data[..]))
      ensures !isLoading
    {
      SortByDateDesc(data, parse);
      orders := data[..];
      isLoading := false;
    }

    /**
     * The handler as written: it sorts the response object, which has no
     * sort method; the TypeError is caught and only the final clearing of
     * the loading flag takes effect. The order list is never stored.
     */
    method FetchSucceededAsWritten(response: Response)
      modifies this`isLoading
      ensures !isLoading
    {
      isLoading := false;
    }

    /** The request failed: the error is logged and loading ends. */
    method FetchFailed()
      modifies this`isLoading
      ensures !isLoading
    {
      isLoading := false;
    }

    /** "View Details" on a row. */
    method SelectOrder(o: Order)
      modifies this`selectedOrder
      ensures selectedOrder == Some(o)
    {
      selectedOrder := Some(o);
    }

    /** The dialog's close button. */
    method CloseDetails()
      modifies this`selectedOrder
      ensures selectedOrder == None
    {
      selectedOrder := None;
    }

    /**
     * What the component renders: a spinner while loading; otherwise the
     * cards, the table (or its empty message) and the details dialog of the
     * selected order.
     */
    function View(): (v: Screen)
      reads this
      ensures v == Spinner <==> isLoading
      ensures !isLoading ==> v.cards == SummaryCards(orders)
      ensures !isLoading ==> (v.table == NoOrdersYet <==> orders == [])
      ensures !isLoading && orders != [] ==> v.table == Rows(RowsOf(orders)) && |v.table.rows| == |orders|
      ensures !isLoading ==> v.details == (if selectedOrder.Some? then Some(DetailsOf(selectedOrder.value)) else None)
    {
      if isLoading then Spinner
      else
        Page(SummaryCards(orders),
             if |orders| > 0 then Rows(RowsOf(orders)) else NoOrdersYet,
             match selectedOrder
             case Some(o) => Some(DetailsOf(o))
             case None => None)
    }
  }

  /**
   * The page as written, whatever the server returns: no row is ever shown,
   * the cards read zero and the table shows its empty message.
   */
  method RowsShownAsWritten(response: Response) returns (shown: nat, v: Screen)
    ensures shown == 0
    ensures v == Page(Cards(0, 0, 0), NoOrdersYet, None)
  {
    var t := new OrdersTable();
    t.BeginFetch();
    t.FetchSucceededAsWritten(response);
    shown := |t.orders|;
    v := t.View();
  }

  /** The corrected page shows one row per order the server returns, latest first. */
  method RowsShown(response: Response, parse: string -> int) returns (shown: nat, rows: seq<Order>)
    ensures shown == |response.data|
    ensures multiset(rows) == multiset(response.data)
    ensures SortedDesc(rows, parse)
  {
    var t := new OrdersTable();
    t.BeginFetch();
    var data := new Order[|response.data|](i requires 0 <= i < |response.data| => response.data[i]);
    assert data[..] == response.data;
    t.FetchSucceeded(data, parse);
    rows := t.orders;
    shown := |rows|;
    assert |multiset(rows)| == |multiset(response.data)|;
  }
}
