/**
 * The analytics dashboard's data shaping (src/Components/Dashboard/ProductAnalytics.js):
 * the projections fed to the charts, the zero defaults of the order-activity
 * pie, the stock pie, the quantity colour of the category tooltip and the
 * bar palette.
 *
 * Numbers that may be absent (`undefined`) are `Option<int>`; JavaScript's
 * comparisons with `undefined` are false, and `x || 0` is 0 for an absent
 * or zero `x`.
 */
module ProductAnalytics {

  import opened OrderRecord

  /** One entry of the `categoryStatus` prop. */
  datatype CategoryStatus = CategoryStatus(category: string, deliveredRevenue: int, totalOrderedProducts: int)

  /** One entry of the `categories` list fetched from the server. */
  datatype CategoryProducts = CategoryProducts(name: string, value: int, quantity: Option<int>)

  datatype RevenueRow = RevenueRow(name: string, revenue: int)
  datatype OrdersRow = OrdersRow(name: string, orders: int)
  datatype CategoryOrderRow = CategoryOrderRow(name: string, orders: int, revenue: int)
  datatype ProductsRow = ProductsRow(name: string, products: int, quantity: Option<int>)
  datatype Slice = Slice(name: string, value: int, color: string)

  /** The revenue rows: one per category entry, named by its category, worth its delivered revenue. */
  function CategoryData(cs: seq<CategoryStatus>): (rows: seq<RevenueRow>)
    ensures |rows| == |cs|
    ensures forall i :: 0 <= i < |cs| ==> rows[i].name == cs[i].category && rows[i].revenue == cs[i].deliveredRevenue
  {
    if cs == [] then [] else [RevenueRow(cs[0].category, cs[0].deliveredRevenue)] + CategoryData(cs[1..])
  }

  /** The products rows: one per fetched category, with its product count and its (possibly absent) quantity. */
  function CategoryProductsData(cp: seq<CategoryProducts>): (rows: seq<ProductsRow>)
    ensures |rows| == |cp|
    ensures forall i :: 0 <= i < |cp| ==>
      rows[i].name == cp[i].name && rows[i].products == cp[i].value && rows[i].quantity == cp[i].quantity
  {
    if cp == [] then [] else [ProductsRow(cp[0].name, cp[0].value, cp[0].quantity)] + CategoryProductsData(cp[1..])
  }

  /** The revenue projection maps element by element, so it distributes over concatenation. */
  lemma {:induction false} CategoryDataAppend(a: seq<CategoryStatus>, b: seq<CategoryStatus>)
    ensures CategoryData(a + b) == CategoryData(a) + CategoryData(b)
  {
    if a == [] {
      assert a + b == b;
    } else {
      assert (a + b)[1..] == a[1..] + b;
      CategoryDataAppend(a[1..], b);
    }
  }

  /** Likewise the products projection. */
  lemma {:induction false} CategoryProductsDataAppend(c: seq<CategoryProducts>, d: seq<CategoryProducts>)
    ensures CategoryProductsData(c + d) == CategoryProductsData(c) + CategoryProductsData(d)
  {
    if c == [] {
      assert c + d == d;
    } else {
      assert (c + d)[1..] == c[1..] + d;
      CategoryProductsDataAppend(c[1..], d);
    }
  }

  /** A count that defaults to 0: absent and zero both become 0. */
  function OrZero(x: Option<int>): (r: int)
    ensures x.None? ==> r == 0
    ensures x.Some? ==> r == x.value
  {
    match x
    case Some(v) => v
    case None => 0
  }

  datatype UserMetrics = UserMetrics(total: int, cancel: int, returned: int)

  /** The order-activity metrics: canceled and returned counts default to 0. */
  function MakeUserMetrics(totalOrders: int, canceledOrders: Option<int>, returnedProducts: Option<int>): (m: UserMetrics)
    ensures m.total == totalOrders
    ensures m.cancel == OrZero(canceledOrders) && m.returned == OrZero(returnedProducts)
  {
    UserMetrics(totalOrders, OrZero(canceledOrders), OrZero(returnedProducts))
  }

  /** The "Product Status Distribution" pie: exactly three slices, in this order, from the three stock props. */
  function ProductStatusData(inStock: int, lowStock: int, outOfStock: int): (slices: seq<Slice>)
    ensures |slices| == 3
    ensures slices[0].name == "In Stock" && slices[0].value == inStock
    ensures slices[1].name == "Low Stock" && slices[1].value == lowStock
    ensures slices[2].name == "Out of Stock" && slices[2].value == outOfStock
  {
    [Slice("In Stock", inStock, "#3B82F6"),
     Slice("Low Stock", lowStock, "#F59E0B"),
     Slice("Out of Stock", outOfStock, "#EF4444")]
  }

  /** The "Order Activity" pie: total orders, then the defaulted canceled and returned counts. */
  function UserTypeData(m: UserMetrics): (slices: seq<Slice>)
    ensures |slices| == 3
    ensures slices[0].value == m.total && slices[1].value == m.cancel && slices[2].value == m.returned
  {
    [Slice("Total Orders", m.total, "#3B82F6"),
     Slice("Canceled", m.cancel, "#EF4444"),
     Slice("Returned Products", m.returned, "#8B5CF6")]
  }

  datatype Tone = Red | Yellow | Green

  /**
   * The tooltip's quantity colour: red up to 1, yellow up to 10, green
   * above. An absent quantity fails both comparisons and shows green.
   */
  function QuantityTone(q: Option<int>): (t: Tone)
    ensures t == Red <==> q.Some? && q.value <= 1
    ensures t == Yellow <==> q.Some? && 1 < q.value <= 10
    ensures t == Green <==> q.None? || q.value > 10
  {
    if q.Some? && q.value <= 1 then Red
    else if q.Some? && q.value <= 10 then Yellow
    else Green
  }

  const Palette: seq<string> :=
    ["#4ECDC4", "#45B7D1", "#96CEB4", "#FFEEAD", "#FF6B6B", "#D4A5A5", "#9B5DE5", "#00BBF9"]

  /** The fill of bar `index`: the palette entry at `index` modulo the palette's length. */
  function BarColor(index: nat): (c: string)
    ensures c in Palette
    ensures index < |Palette| ==> c == Palette[index]
  {
    Palette[index % |Palette|]
  }

  /** The fills repeat with period eight. */
  lemma BarColorCycles(index: nat)
    ensures BarColor(index + |Palette|) == BarColor(index)
  {
  }

  /** The fills of a chart's bars: one palette entry per bar, cycling every eight. */
  function BarColors(n: nat): (cs: seq<string>)
    ensures |cs| == n
    ensures forall i :: 0 <= i < n ==> cs[i] == BarColor(i) && cs[i] in Palette
  {
    seq(n, i requires 0 <= i => BarColor(i))
  }

  /** The hard-coded list both category bar charts are drawn from. */
  const CategoryOrder: seq<CategoryOrderRow> := [
    CategoryOrderRow("Electronics", 45, 500),
    CategoryOrderRow("Clothing", 68, 600),
    CategoryOrderRow("Fashion", 34, 1200),
    CategoryOrderRow("Mobiles", 45, 1400),
    CategoryOrderRow("Watches", 78, 1680),
    CategoryOrderRow("Shirt", 34, 1500),
    CategoryOrderRow("Pant", 55, 1800),
    CategoryOrderRow("Jeans", 78, 1400),
    CategoryOrderRow("Fivesleave", 94, 1600),
    CategoryOrderRow("Fivesleave", 14, 1160),
    CategoryOrderRow("Mobile", 98, 1680),
    CategoryOrderRow("Fivesleave", 138, 1080),
    CategoryOrderRow("Fivesleave", 128, 2380),
    CategoryOrderRow("njksm", 158, 1480),
    CategoryOrderRow("Watch", 128, 2000),
    CategoryOrderRow("Fivesleave", 88, 1380),
    CategoryOrderRow("Baggy", 138, 2480),
    CategoryOrderRow("Fivesleave", 98, 2580),
    CategoryOrderRow("Electronic", 157, 2680),
    CategoryOrderRow("Fivesleave", 168, 3680),
    CategoryOrderRow("Fivesleave", 118, 4680),
    CategoryOrderRow("Books", 178, 5280)
  ]

  /** The "Category Revenue" chart as written: fed the hard-coded list, not the categoryStatus prop. */
  function RevenueChartAsWritten(cs: seq<CategoryStatus>): (rows: seq<RevenueRow>)
    ensures |rows| == |CategoryOrder|
  {
    seq(|CategoryOrder|, i requires 0 <= i < |CategoryOrder| => RevenueRow(CategoryOrder[i].name, CategoryOrder[i].revenue))
  }

  /** The "Category Orders" chart as written: the same hard-coded list. */
  function OrdersChartAsWritten(cs: seq<CategoryStatus>): (rows: seq<OrdersRow>)
    ensures |rows| == |CategoryOrder|
  {
    seq(|CategoryOrder|, i requires 0 <= i < |CategoryOrder| => OrdersRow(CategoryOrder[i].name, CategoryOrder[i].orders))
  }

  /** As written, the two charts show the same bars whatever the dashboard receives. */
  lemma ChartsIgnoreCategoryStatus(cs1: seq<CategoryStatus>, cs2: seq<CategoryStatus>)
    ensures RevenueChartAsWritten(cs1) == RevenueChartAsWritten(cs2)
    ensures OrdersChartAsWritten(cs1) == OrdersChartAsWritten(cs2)
  {
  }

  /** One category with revenue 0: the chart as written still shows 22 sample bars, the first worth 500. */
  lemma RevenueChartShowsSampleData()
    ensures var rows := RevenueChartAsWritten([CategoryStatus("Books", 0, 0)]);
            |rows| == 22 && rows[0] == RevenueRow("Electronics", 500)
  {
  }

  /**
   * The orders chart's data as the commented-out definition in the source
   * computes it: one row per category entry, named by its category, with its
   * ordered-product count. With it and CategoryData the two charts follow the prop.
   */
  function CategoryOrdersData(cs: seq<CategoryStatus>): (rows: seq<OrdersRow>)
    ensures |rows| == |cs|
    ensures forall i :: 0 <= i < |cs| ==> rows[i].name == cs[i].category && rows[i].orders == cs[i].totalOrderedProducts
  {
    if cs == [] then [] else [OrdersRow(cs[0].category, cs[0].totalOrderedProducts)] + CategoryOrdersData(cs[1..])
  }
}
