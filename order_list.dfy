/**
 * A user's order list (src/Components/AllUsers/OrderList.js): the status and
 * total cells of each row, and the loading / error / list state of the fetch.
 *
 * Its status cell uses its own precedence, status3 > cancel > status2 >
 * status, and ignores cashadmin, so it can disagree with the badge of the
 * orders table (module OrderStatus).
 */
module OrderList {
  import opened OrderRecord
  import opened OrderStatus

  /** The status cell: the first truthy of status3, the cancel flag, status2; else `status` verbatim. */
  function StatusCell(o: Order): (r: string)
    ensures o.status3 != "" ==> r == o.status3
    ensures o.status3 == "" && o.cancel ==> r == "Canceled"
    ensures o.status3 == "" && !o.cancel && o.status2 != "" ==> r == o.status2
    ensures o.status3 == "" && !o.cancel && o.status2 == "" ==> r == o.status
  {
    if o.status3 != "" then o.status3
    else if o.cancel then "Canceled"
    else if o.status2 != "" then o.status2
    else o.status
  }

  /** The cashadmin flag never changes the status cell. */
  lemma CashAdminIgnored(o: Order, settled: bool)
    ensures StatusCell(o.(cashadmin := settled)) == StatusCell(o)
  {
  }

  /** When the orders table's badge reads "Canceled", so does this cell. */
  lemma TableCanceledIsListCanceled(o: Order)
    requires StatusText(o) == "Canceled"
    ensures StatusCell(o) == "Canceled"
  {
  }

  /** When the badge reads "Delivered", this cell shows the status3 text. */
  lemma TableDeliveredShowsStatus3(o: Order)
    requires StatusText(o) == "Delivered"
    ensures StatusCell(o) == o.status3
  {
  }

  /** The converse fails: a shipped order that was canceled reads "Canceled" here and "In Transit" in the table. */
  lemma CancelAfterShippingDiverges()
    ensures var o := Order("o1", "2024-01-05 at 10:00", DeliveryDetails("A", "9", "x", "", "", "", ""),
                           500, None, "COD", "Pending", "Shipped", "", true, false, "2024-01-04", "", "", "2024-01-05");
            StatusCell(o) == "Canceled" && StatusText(o) == "In Transit"
  {
  }

  /** Likewise a settled order whose cancel flag is set: "Canceled" here, "Completed" in the table. */
  lemma SettledAndCanceledDiverges(o: Order)
    requires o.cashadmin && o.cancel && o.status3 == ""
    ensures StatusCell(o) == "Canceled" && StatusText(o) == "Completed"
  {
  }

  /**
   * The total cell: `total` when truthy, else the embedded product's price.
   * None where reading the price of a missing product would throw.
   */
  function TotalCell(o: Order): (r: Option<int>)
    ensures r == Amount(o)
  {
    if o.total != 0 then Some(o.total)
    else if o.product.Some? then Some(o.product.value.price)
    else None
  }

  datatype Row = Row(date: string, address: string, total: Option<int>, status: string)

  function RowsOf(orders: seq<Order>): (rows: seq<Row>)
    ensures |rows| == |orders|
    ensures forall i :: 0 <= i < |orders| ==>
      rows[i] == Row(orders[i].date, orders[i].deliveryDetails.address, TotalCell(orders[i]), StatusCell(orders[i]))
  {
    if orders == [] then []
    else [Row(orders[0].date, orders[0].deliveryDetails.address, TotalCell(orders[0]), StatusCell(orders[0]))]
         + RowsOf(orders[1..])
  }

  const LoadError: string := "Failed to load orders"
  const NoOrdersMessage: string := "You don't have any orders"

  datatype Screen = Loading | ErrorText(message: string) | Empty(message: string) | Table(rows: seq<Row>)

  /** The section's body, chosen loading first, then error, then the list or its empty message. */
  function ScreenFor(loading: bool, error: Option<string>, orders: seq<Order>): (s: Screen)
    ensures loading ==> s == Loading
    ensures !loading && error.Some? ==> s == ErrorText(error.value)
    ensures !loading && error.None? && orders == [] ==> s == Empty(NoOrdersMessage)
    ensures !loading && error.None? && orders != [] ==> s == Table(RowsOf(orders)) && |s.rows| == |orders|
  {
    if loading then Loading
    else if error.Some? then ErrorText(error.value)
    else if |orders| > 0 then Table(RowsOf(orders))
    else Empty(NoOrdersMessage)
  }

  class OrderListView {
    var orders: seq<Order>
    var loading: bool
    var error: Option<string>

    constructor ()
      ensures orders == [] && loading && error == None
    {
      orders := [];
      loading := true;
      error := None;
    }

    /** The request succeeded: the list is stored and loading ends; the error is left as it was. */
    method FetchSucceeded(data: seq<Order>)
      modifies this
      ensures orders == data && !loading && error == old(error)
    {
      orders := data;
      loading := false;
    }

    /** The request failed: the fixed message is recorded and loading ends; the list is left as it was. */
    method FetchFailed()
      modifies this
      ensures orders == old(orders) && !loading && error == Some(LoadError)
    {
      error := Some(LoadError);
      loading := false;
    }

    function View(): Screen
      reads this
    {
      ScreenFor(loading, error, orders)
    }
  }

  /** A first fetch that succeeds shows the list, or the empty message when the user has no orders. */
  method FirstFetchSucceeds(data: seq<Order>) returns (s: Screen)
    ensures data == [] ==> s == Empty(NoOrdersMessage)
    ensures data != [] ==> s == Table(RowsOf(data)) && |s.rows| == |data|
  {
    var v := new OrderListView();
    v.FetchSucceeded(data);
    s := v.View();
  }

  /** A first fetch that fails shows the fixed error message. */
  method FirstFetchFails() returns (s: Screen)
    ensures s == ErrorText(LoadError)
  {
    var v := new OrderListView();
    v.FetchFailed();
    s := v.View();
  }

  /**
   * The effect runs again when the user id changes, but nothing resets the
   * error: after one failed fetch, a later successful one still shows the error.
   */
  method RefetchAfterFailure(data: seq<Order>) returns (s: Screen)
    ensures s == ErrorText(LoadError)
  {
    var v := new OrderListView();
    v.FetchFailed();
    v.FetchSucceeded(data);
    s := v.View();
  }
}
