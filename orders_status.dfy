/**
 * Status resolution, summary-card counts and display fallbacks of the
 * orders table (src/Components/TotalOrders/Orders.js).
 *
 * The raw record carries four overlapping lifecycle flags. The table shows
 * one badge per order, built by three separate first-match chains (colour,
 * icon, text). Here each chain is written as the source writes it, and its
 * contract ties it to one canonical state: the raised state of highest rank.
 */
module OrderStatus {
  import opened OrderRecord

  datatype State = Completed | Delivered | InTransit | Canceled | Pending

  /** Colour class of the badge, as a tag. */
  datatype Tone = Green | Blue | Yellow | Red | Gray

  /** Badge icon, as a tag. */
  datatype Icon = CheckCircle | PackageIcon | Truck | Ban | AlertCircle

  /** How far along the order pipeline a state lies: later states outrank earlier ones. */
  function Rank(s: State): nat
  {
    match s
    case Completed => 4
    case Delivered => 3
    case InTransit => 2
    case Canceled => 1
    case Pending => 0
  }

  /** Whether the record carries the flag of state `s`; every order is at least pending. */
  predicate Raised(o: Order, s: State)
  {
    match s
    case Completed => o.cashadmin
    case Delivered => o.status3 != ""
    case InTransit => o.status2 != ""
    case Canceled => o.cancel
    case Pending => true
  }

  /** The canonical state: of all the states the record raises, the one of highest rank. */
  function Resolve(o: Order): (s: State)
    ensures Raised(o, s)
    ensures forall t :: Raised(o, t) ==> Rank(t) <= Rank(s)
  {
    if o.cashadmin then Completed
    else if o.status3 != "" then Delivered
    else if o.status2 != "" then InTransit
    else if o.cancel then Canceled
    else Pending
  }

  /** The characterisation of Resolve determines it: no other state is raised with maximal rank. */
  lemma ResolveIsUnique(o: Order, s: State)
    requires Raised(o, s)
    requires forall t :: Raised(o, t) ==> Rank(t) <= Rank(s)
    ensures s == Resolve(o)
  {
    assert Rank(Resolve(o)) <= Rank(s);
  }

  function ToneOf(s: State): Tone
  {
    match s
    case Completed => Green
    case Delivered => Blue
    case InTransit => Yellow
    case Canceled => Red
    case Pending => Gray
  }

  function IconOf(s: State): Icon
  {
    match s
    case Completed => CheckCircle
    case Delivered => PackageIcon
    case InTransit => Truck
    case Canceled => Ban
    case Pending => AlertCircle
  }

  function LabelOf(s: State): string
  {
    match s
    case Completed => "Completed"
    case Delivered => "Delivered"
    case InTransit => "In Transit"
    case Canceled => "Canceled"
    case Pending => "Pending"
  }

  /** The badge colour chain. */
  function StatusColor(o: Order): (c: Tone)
    ensures c == ToneOf(Resolve(o))
  {
    if o.cashadmin then Green
    else if o.status3 != "" then Blue
    else if o.status2 != "" then Yellow
    else if o.cancel then Red
    else Gray
  }

  /** The badge icon chain. */
  function StatusIcon(o: Order): (i: Icon)
    ensures i == IconOf(Resolve(o))
  {
    if o.cashadmin then CheckCircle
    else if o.status3 != "" then PackageIcon
    else if o.status2 != "" then Truck
    else if o.cancel then Ban
    else AlertCircle
  }

  /** The badge text chain. */
  function StatusText(o: Order): (t: string)
    ensures t == LabelOf(Resolve(o))
  {
    if o.cashadmin then "Completed"
    else if o.status3 != "" then "Delivered"
    else if o.status2 != "" then "In Transit"
    else if o.cancel then "Canceled"
    else "Pending"
  }

  /** A settled order is completed whatever else the record says. */
  lemma CashAdminWins(o: Order)
    requires o.cashadmin
    ensures StatusText(o) == "Completed" && StatusColor(o) == Green && StatusIcon(o) == CheckCircle
  {
  }

  /** Without cashadmin, the order is delivered, in transit, canceled, first match wins. */
  lemma PrecedenceWithoutCashAdmin(o: Order)
    requires !o.cashadmin
    ensures o.status3 != "" ==> StatusText(o) == "Delivered"
    ensures o.status3 == "" && o.status2 != "" ==> StatusText(o) == "In Transit"
    ensures o.status3 == "" && o.status2 == "" && o.cancel ==> StatusText(o) == "Canceled"
  {
  }

  /** A record with no flag set is pending, grey, with the alert icon. */
  lemma NoFlagIsPending(o: Order)
    requires !o.cashadmin && o.status3 == "" && o.status2 == "" && !o.cancel
    ensures StatusText(o) == "Pending" && StatusColor(o) == Gray && StatusIcon(o) == AlertCircle
  {
  }

  /** The badge text identifies the state: two orders show the same text exactly when they resolve alike. */
  lemma TextIdentifiesState(o1: Order, o2: Order)
    ensures StatusText(o1) == StatusText(o2) <==> Resolve(o1) == Resolve(o2)
  {
    var s1, s2 := Resolve(o1), Resolve(o2);
    if s1 != s2 {
      assert LabelOf(s1)[0] != LabelOf(s2)[0] || LabelOf(s1)[1] != LabelOf(s2)[1];
    }
  }

  // ---------------------------------------------------------------------
  // Summary cards

  /** Number of orders satisfying `p`: the length of the filtered list. */
  function CountIf(orders: seq<Order>, p: Order -> bool): (n: nat)
    ensures n <= |orders|
  {
    if orders == [] then 0
    else (if p(orders[0]) then 1 else 0) + CountIf(orders[1..], p)
  }

  lemma {:induction false} CountIfMonotone(orders: seq<Order>, p: Order -> bool, q: Order -> bool)
    requires forall o :: p(o) ==> q(o)
    ensures CountIf(orders, p) <= CountIf(orders, q)
  {
    if orders != [] {
      CountIfMonotone(orders[1..], p, q);
    }
  }

  lemma {:induction false} CountIfSame(orders: seq<Order>, p: Order -> bool, q: Order -> bool)
    requires forall o :: p(o) == q(o)
    ensures CountIf(orders, p) == CountIf(orders, q)
  {
    if orders != [] {
      CountIfSame(orders[1..], p, q);
    }
  }

  predicate HasCashAdmin(o: Order) { o.cashadmin }
  predicate HasCancel(o: Order) { o.cancel }
  predicate ShowsCompleted(o: Order) { StatusText(o) == "Completed" }
  predicate ShowsCanceled(o: Order) { StatusText(o) == "Canceled" }

  datatype Cards = Cards(total: nat, completed: nat, canceled: nat)

  /** The three summary cards above the table. */
  function SummaryCards(orders: seq<Order>): (c: Cards)
    ensures c.total == |orders|
    ensures c.completed <= c.total && c.canceled <= c.total
  {
    Cards(|orders|, CountIf(orders, HasCashAdmin), CountIf(orders, HasCancel))
  }

  /** The completed card counts exactly the rows whose badge reads "Completed". */
  lemma CompletedCardMatchesRows(orders: seq<Order>)
    ensures SummaryCards(orders).completed == CountIf(orders, ShowsCompleted)
  {
    CountIfSame(orders, HasCashAdmin, ShowsCompleted);
  }

  /** The canceled card counts every raw cancel flag, so it is at least the number of "Canceled" rows. */
  lemma CanceledCardBoundsRows(orders: seq<Order>)
    ensures CountIf(orders, ShowsCanceled) <= SummaryCards(orders).canceled
  {
    CountIfMonotone(orders, ShowsCanceled, HasCancel);
  }

  /** A canceled order that was also shipped: the canceled card says 1, no row says "Canceled". */
  lemma CanceledCardCanExceedRows(o: Order)
    requires o.cancel && !o.cashadmin && o.status2 != ""
    ensures SummaryCards([o]).canceled == 1
    ensures CountIf([o], ShowsCanceled) == 0
  {
    assert [o][1..] == [];
  }

  // ---------------------------------------------------------------------
  // Display fallbacks

  /**
   * The amount shown in a row and in the details: `total` when truthy,
   * otherwise the embedded product's price. None means no amount exists,
   * where the source's `toLocaleString` call would throw.
   */
  function Amount(o: Order): (r: Option<int>)
    ensures o.total != 0 ==> r == Some(o.total)
    ensures o.total == 0 ==> (r.Some? <==> o.product.Some?)
    ensures o.total == 0 && o.product.Some? ==> r == Some(o.product.value.price)
  {
    if o.total != 0 then Some(o.total)
    else match o.product
      case Some(p) => Some(p.price)
      case None => None
  }

  /** The payment column: the recorded method, or cash on delivery when none is recorded. */
  function PaymentLabel(o: Order): (r: string)
    ensures r != ""
    ensures o.paymentMethod != "" ==> r == o.paymentMethod
    ensures o.paymentMethod == "" ==> r == "COD"
  {
    if o.paymentMethod != "" then o.paymentMethod else "COD"
  }

  // ---------------------------------------------------------------------
  // Order details dialog

  datatype TimelineEntry =
    | ShippedOn(date: string)
    | DeliveredOn(date: string)
    | CompletedOn(date: string)
    | CanceledOn(date: string)

  /** The fixed position of each kind of entry in the timeline. */
  function Stage(e: TimelineEntry): nat
  {
    match e
    case ShippedOn(_) => 0
    case DeliveredOn(_) => 1
    case CompletedOn(_) => 2
    case CanceledOn(_) => 3
  }

  /** Entries appear in their fixed positions: shipped, delivered, completed, canceled. */
  predicate StagesAscend(r: seq<TimelineEntry>)
  {
    forall i, j :: 0 <= i < j < |r| ==> Stage(r[i]) < Stage(r[j])
  }

  /** The timeline with `e` appended when `show` holds. */
  function AppendIf(r: seq<TimelineEntry>, show: bool, e: TimelineEntry): (r': seq<TimelineEntry>)
    ensures |r'| <= |r| + 1
    ensures forall x :: x in r' <==> x in r || (show && x == e)
  {
    if show then r + [e] else r
  }

  /** An entry of a later stage than every entry so far may follow them. */
  lemma AppendLaterStage(r: seq<TimelineEntry>, show: bool, e: TimelineEntry)
    requires StagesAscend(r)
    requires forall x :: x in r ==> Stage(x) < Stage(e)
    ensures StagesAscend(AppendIf(r, show, e))
  {
    assert forall i :: 0 <= i < |r| ==> r[i] in r;
  }

  /**
   * The timeline of the details dialog: one entry per truthy timestamp, and
   * a canceled entry whenever the cancel flag is set, whatever the badge says.
   */
  function Timeline(o: Order): (r: seq<TimelineEntry>)
    ensures |r| <= 4
    ensures StagesAscend(r)
    ensures forall e :: e in r ==>
      e == ShippedOn(o.shipedDate) || e == DeliveredOn(o.deliveredDate) ||
      e == CompletedOn(o.cashadminDate) || e == CanceledOn(o.canceledTime)
    ensures ShippedOn(o.shipedDate) in r <==> o.shipedDate != ""
    ensures DeliveredOn(o.deliveredDate) in r <==> o.deliveredDate != ""
    ensures CompletedOn(o.cashadminDate) in r <==> o.cashadminDate != ""
    ensures CanceledOn(o.canceledTime) in r <==> o.cancel
  {
    var shipped := AppendIf([], o.shipedDate != "", ShippedOn(o.shipedDate));
    var delivered := AppendIf(shipped, o.deliveredDate != "", DeliveredOn(o.deliveredDate));
    AppendLaterStage(shipped, o.deliveredDate != "", DeliveredOn(o.deliveredDate));
    var completed := AppendIf(delivered, o.cashadminDate != "", CompletedOn(o.cashadminDate));
    AppendLaterStage(delivered, o.cashadminDate != "", CompletedOn(o.cashadminDate));
    var canceled := AppendIf(completed, o.cancel, CanceledOn(o.canceledTime));
    AppendLaterStage(completed, o.cancel, CanceledOn(o.canceledTime));
    canceled
  }

  /** The address parts that are non-empty, in order: a filter on truthiness. */
  function NonEmptyParts(parts: seq<string>): (r: seq<string>)
    ensures forall i :: 0 <= i < |r| ==> r[i] != ""
    ensures forall x :: x in r <==> x in parts && x != ""
    ensures |r| == 0 <==> forall i :: 0 <= i < |parts| ==> parts[i] == ""
  {
    if parts == [] then []
    else if parts[0] != "" then [parts[0]] + NonEmptyParts(parts[1..])
    else NonEmptyParts(parts[1..])
  }

  /** Filtering distributes over concatenation, so the kept parts stay in their order. */
  lemma {:induction false} NonEmptyPartsAppend(a: seq<string>, b: seq<string>)
    ensures NonEmptyParts(a + b) == NonEmptyParts(a) + NonEmptyParts(b)
  {
    if a != [] {
      assert (a + b)[1..] == a[1..] + b;
      NonEmptyPartsAppend(a[1..], b);
    } else {
      assert a + b == b;
    }
  }

  /** The parts joined with `sep` between consecutive ones. */
  function Join(parts: seq<string>, sep: string): (r: string)
    ensures parts == [] ==> r == ""
    ensures parts != [] && parts[0] != "" ==> r != ""
    ensures |parts| == 1 ==> r == parts[0]
  {
    if parts == [] then ""
    else if |parts| == 1 then parts[0]
    else parts[0] + sep + Join(parts[1..], sep)
  }

  /** A joined list of parts is empty exactly when every part is empty. */
  lemma JoinedEmptyIff(parts: seq<string>, sep: string)
    ensures Join(NonEmptyParts(parts), sep) == "" <==> forall i :: 0 <= i < |parts| ==> parts[i] == ""
  {
  }

  /** The shipping address line as written: the last part reads a field `pinncode` that orders do not have. */
  function ShippingAddressAsWritten(d: DeliveryDetails): (r: string)
    ensures r == "" <==> d.kind == "" && d.address == "" && d.city == "" && d.state == ""
  {
    var pinncode := "";   // the misspelt field is always undefined, which filter(Boolean) drops
    var parts := [d.kind, d.address, d.city, d.state, pinncode];
    JoinedEmptyIff(parts, ", ");
    assert parts[0] == d.kind && parts[1] == d.address && parts[2] == d.city && parts[3] == d.state;
    Join(NonEmptyParts(parts), ", ")
  }

  /** The shipping address line with the pincode read from its own field. */
  function ShippingAddress(d: DeliveryDetails): (r: string)
    ensures r == "" <==> d.kind == "" && d.address == "" && d.city == "" && d.state == "" && d.pincode == ""
    ensures d.kind == "" && d.address == "" && d.city == "" && d.state == "" ==> r == d.pincode
  {
    var parts := [d.kind, d.address, d.city, d.state, d.pincode];
    JoinedEmptyIff(parts, ", ");
    assert parts[0] == d.kind && parts[1] == d.address && parts[2] == d.city && parts[3] == d.state;
    assert parts == parts[..4] + [d.pincode];
    NonEmptyPartsAppend(parts[..4], [d.pincode]);
    Join(NonEmptyParts(parts), ", ")
  }

  /** Joining one more part appends the separator and that part. */
  lemma {:induction false} JoinSnoc(xs: seq<string>, p: string, sep: string)
    requires xs != []
    ensures Join(xs + [p], sep) == Join(xs, sep) + sep + p
  {
    if |xs| == 1 {
      assert (xs + [p])[1..] == [p];
    } else {
      assert (xs + [p])[1..] == xs[1..] + [p];
      JoinSnoc(xs[1..], p, sep);
    }
  }

  /** As written, the pincode has no influence on the line: any pincode gives the same line. */
  lemma AsWrittenIgnoresPincode(d: DeliveryDetails, p: string)
    ensures ShippingAddressAsWritten(d) == ShippingAddressAsWritten(d.(pincode := p))
  {
  }

  /**
   * The corrected line is the line as written with the pincode appended
   * after a comma, or the pincode alone when nothing else is set; so the
   * two differ exactly by the pincode, on every address.
   */
  lemma PincodeAppended(d: DeliveryDetails)
    ensures ShippingAddress(d) ==
      if d.pincode == "" then ShippingAddressAsWritten(d)
      else if ShippingAddressAsWritten(d) == "" then d.pincode
      else ShippingAddressAsWritten(d) + ", " + d.pincode
  {
    var four := [d.kind, d.address, d.city, d.state];
    NonEmptyPartsAppend(four, [d.pincode]);
    NonEmptyPartsAppend(four, [""]);
    assert [d.kind, d.address, d.city, d.state, d.pincode] == four + [d.pincode];
    assert [d.kind, d.address, d.city, d.state, ""] == four + [""];
    assert NonEmptyParts([""]) == [];
    var kept := NonEmptyParts(four);
    assert NonEmptyParts(four + [""]) == kept;
    if d.pincode != "" {
      assert NonEmptyParts([d.pincode]) == [d.pincode];
      if kept != [] {
        JoinSnoc(kept, d.pincode, ", ");
      } else {
        assert kept + [d.pincode] == [d.pincode];
      }
    } else {
      assert NonEmptyParts([d.pincode]) == [];
      assert kept + [] == kept;
    }
  }

  /** An address with only a pincode: the line as written is empty, the corrected one shows the pincode. */
  lemma PincodeLostAsWritten()
    ensures ShippingAddressAsWritten(DeliveryDetails("A", "9", "", "", "", "560001", "")) == ""
    ensures ShippingAddress(DeliveryDetails("A", "9", "", "", "", "560001", "")) == "560001"
  {
  }

  datatype Details = Details(
    name: string,
    contact: string,
    date: string,
    amount: Option<int>,
    payment: string,
    address: string,
    timeline: seq<TimelineEntry>
  )

  /**
   * What the details dialog shows for an order: the customer's name and
   * contact, the date, the amount and payment with their fallbacks, the
   * address line as written (without the pincode) and the timeline.
   */
  function DetailsOf(o: Order): (d: Details)
    ensures d.name == o.deliveryDetails.name && d.contact == o.deliveryDetails.mobile && d.date == o.date
    ensures d.amount == Amount(o) && d.payment == PaymentLabel(o) && d.payment != ""
    ensures d.address == "" <==> ShippingAddressAsWritten(o.deliveryDetails) == ""
    ensures d.address == "" <==> (o.deliveryDetails.kind == "" && o.deliveryDetails.address == ""
                                  && o.deliveryDetails.city == "" && o.deliveryDetails.state == "")
    ensures CanceledOn(o.canceledTime) in d.timeline <==> o.cancel
    ensures d.address == ShippingAddressAsWritten(o.deliveryDetails) && d.timeline == Timeline(o)
  {
    Details(o.deliveryDetails.name, o.deliveryDetails.mobile, o.date, Amount(o), PaymentLabel(o),
            ShippingAddressAsWritten(o.deliveryDetails), Timeline(o))
  }
}
