# Order status, order lists, carousel, analytics and sidebar of the admin front end

This project models the logic in five screens of a React admin front end for
an online shop, and proves properties of that model in Dafny.

- **Orders table** (`Orders.js`):
  - An order record carries four overlapping lifecycle flags: `cashadmin`,
    `status3`, `status2` and `cancel`. Three separate first-match chains turn
    them into the badge's colour, icon and text.
  - The fetched list is meant to be sorted latest first, by the date string
    with its first " at" removed. As written, the handler never stores the
    list (see "## Findings").
  - Three summary cards count all orders, settled orders and canceled orders.
  - The amount and payment columns have fallbacks.
  - The details dialog shows a shipping address line and a timeline.
- **Per-user order list** (`OrderList.js`):
  - The status cell uses its own precedence (status3, cancel, status2,
    status) and ignores `cashadmin`.
  - The total cell falls back to the product's price.
  - The fetch moves the screen between loading, error, empty and list.
- **Carousel editor** (`Slider.js`):
  - next, previous and dot selection of the active slide;
  - add-slide validation and form reset;
  - delete-by-id;
  - the busy flags.
- **Analytics dashboard** (`ProductAnalytics.js`):
  - the chart projections and the zero defaults;
  - the stock and order-activity pies;
  - the tooltip's quantity colour and the bar palette.
- **Catalogue sidebar** (`Sidebar.js`): which panel is open, and the menu width
  that follows it.

Module by module:

- `OrderRecord` (`common.dfy`) is the order record. JavaScript truthiness is
  written out:
  - an absent or empty string is `""`;
  - an absent or zero `total` is `0`;
  - a missing embedded product is `None`.
- `OrderStatus` (`orders_status.dfy`):
  - It defines one canonical state per order, `Resolve`: the raised state of
    highest rank.
  - It proves that each of the three chains is a function of that state.
  - It also holds the card counts, the fallbacks and the details dialog.
- `DateSort` (`orders_sort.dfy`):
  - the " at" stripping and the comparator;
  - an in-place insertion sort on an `array`. It is proved to order the array
    latest first, to be a permutation, and to leave a sorted array untouched.
- `OrdersTable` (`orders_table.dfy`) is the component's state as a class:
  - `orders`, `isLoading` and `selectedOrder`;
  - the fetch handler both as written and corrected.
- `OrderList` (`order_list.dfy`) holds the list's cells, its screen selection
  and its fetch state as a class.
- `SliderPanel` (`slider.dfy`):
  - The carousel is a class whose methods are the handlers.
  - Each server call is split in two: the synchronous part that runs on the
    click, and the part that runs when the reply settles. The reply is a
    parameter of the second part.
- `ProductAnalytics` (`analytics.dfy`) holds the dashboard's pure data shaping.
- `SidebarPanel` (`sidebar.dfy`) is the sidebar as a class. Its invariant is
  that the slider flag mirrors the open entry.

Some facts about the code that the model keeps:

- The pending badge always reads "Pending". It never shows the record's
  `status` text.
- The status chains carry no timestamp. The dates appear only in the details
  timeline:
  - the shipped, delivered and completed entries appear exactly when their
    date is set;
  - the canceled entry appears exactly when the cancel flag is set, whether
    or not a cancel time is recorded.
- The details dialog's address line is built as written, so it never shows
  the pincode (see "## Findings").
- There is no aggregation component with configurable stock thresholds,
  category rollups or revenue by state. The dashboard receives those figures
  as props, and the only threshold in the code is the tooltip's hard-coded
  1 / 10 quantity colour.

## Model

| member | source | states |
|---|---|---|
| OrderStatus.Resolve | src/Components/TotalOrders/Orders.js:64-86 | the canonical state is raised by the record's flags (every order is at least pending), and no other raised state outranks it in the order completed > delivered > in transit > canceled > pending |
| OrderStatus.ResolveIsUnique | src/Components/TotalOrders/Orders.js:64-86 | any raised state of maximal rank is the resolved state, so the precedence determines the badge uniquely |
| OrderStatus.StatusColor | src/Components/TotalOrders/Orders.js:64-70 | the colour chain yields exactly the tone of the canonical state |
| OrderStatus.StatusIcon | src/Components/TotalOrders/Orders.js:72-78 | the icon chain yields exactly the icon of the canonical state |
| OrderStatus.StatusText | src/Components/TotalOrders/Orders.js:80-86 | the text chain yields exactly the label of the canonical state, so colour, icon and text always come from the same branch |
| OrderStatus.CashAdminWins | src/Components/TotalOrders/Orders.js:65-81 | a settled order reads "Completed", green, check icon, whatever status3, status2 and cancel hold |
| OrderStatus.PrecedenceWithoutCashAdmin | src/Components/TotalOrders/Orders.js:82-84 | without cashadmin, status3 gives "Delivered", else status2 gives "In Transit", else cancel gives "Canceled" |
| OrderStatus.NoFlagIsPending | src/Components/TotalOrders/Orders.js:69-85 | a record with no flag set reads "Pending", grey, alert icon |
| OrderStatus.TextIdentifiesState | src/Components/TotalOrders/Orders.js:80-86 | two orders show the same text if and only if they resolve to the same state |
| OrderStatus.CountIf | src/Components/TotalOrders/Orders.js:182-188 | the length of a filtered list is at most the list's length |
| OrderStatus.CountIfMonotone | src/Components/TotalOrders/Orders.js:188 | a weaker filter keeps at least as many orders |
| OrderStatus.CountIfSame | src/Components/TotalOrders/Orders.js:182 | filters that agree on every order count alike |
| OrderStatus.SummaryCards | src/Components/TotalOrders/Orders.js:176-188 | the total card is the number of orders, and the completed and canceled cards never exceed it |
| OrderStatus.CompletedCardMatchesRows | src/Components/TotalOrders/Orders.js:182 | the completed card equals the number of rows whose badge reads "Completed" |
| OrderStatus.CanceledCardBoundsRows | src/Components/TotalOrders/Orders.js:188 | the canceled card is at least the number of rows reading "Canceled", since a cancel flag can be outranked |
| OrderStatus.CanceledCardCanExceedRows | src/Components/TotalOrders/Orders.js:188 | a canceled order that was also shipped counts 1 on the canceled card while no row reads "Canceled" |
| OrderStatus.Amount | src/Components/TotalOrders/Orders.js:237 | the amount is `total` when non-zero, otherwise the product's price; it is absent exactly when both are missing |
| OrderStatus.PaymentLabel | src/Components/TotalOrders/Orders.js:242 | the payment label is never empty: the recorded method, or "COD" when none is recorded |
| OrderStatus.Timeline | src/Components/TotalOrders/Orders.js:132-157 | the timeline holds a shipped, delivered or completed entry if and only if that date is set, and a canceled entry if and only if the cancel flag is set; it holds no other entry, and the entries come in the order shipped, delivered, completed, canceled |
| OrderStatus.NonEmptyParts | src/Components/TotalOrders/Orders.js:128 | a part survives the filter if and only if it is one of the parts and non-empty; none survive if and only if every part is empty |
| OrderStatus.NonEmptyPartsAppend | src/Components/TotalOrders/Orders.js:128 | filtering distributes over concatenation, keeping the parts in order |
| OrderStatus.Join | src/Components/TotalOrders/Orders.js:128 | joining no parts gives "", one part gives itself, and a non-empty first part gives a non-empty line |
| OrderStatus.JoinedEmptyIff | src/Components/TotalOrders/Orders.js:122-128 | the joined address line is empty if and only if every part is empty |
| OrderStatus.ShippingAddressAsWritten | src/Components/TotalOrders/Orders.js:122-128 | as written, the line is empty if and only if type, address, city and state are empty |
| OrderStatus.AsWrittenIgnoresPincode | src/Components/TotalOrders/Orders.js:127 | as written, the line is the same whatever pincode the address holds |
| OrderStatus.PincodeAppended | src/Components/TotalOrders/Orders.js:122-128 | on every address, the corrected line is the line as written followed by ", " and the pincode, the pincode alone when nothing else is set, or the line as written when the pincode is empty |
| OrderStatus.ShippingAddress | src/Components/TotalOrders/Orders.js:122-128 | corrected, the line is empty if and only if all five parts are empty, and an address holding only a pincode shows the pincode |
| OrderStatus.DetailsOf | src/Components/TotalOrders/Orders.js:88-164 | the dialog shows the customer's name and contact and the date, the amount and payment fallbacks, the address line as written (`ShippingAddressAsWritten`, so the same for every pincode, and empty if and only if type, address, city and state are all empty) and the full `Timeline` of the order, whose canceled entry is present if and only if the cancel flag is set |
| OrderStatus.PincodeLostAsWritten | src/Components/TotalOrders/Orders.js:127 | an address with only a pincode gives an empty line as written and the pincode when corrected |
| DateSort.FirstAt | src/Components/TotalOrders/Orders.js:48-49 | returns the index of an " at" with none before it, or none when the string holds no " at" |
| DateSort.FirstAtBeforeAnyBlank | src/Components/TotalOrders/Orders.js:48 | an " at" with no blank before it is the first one |
| DateSort.StripAt | src/Components/TotalOrders/Orders.js:48-49 | a string without " at" is unchanged; otherwise exactly three characters go, at the first occurrence, and both sides are kept |
| DateSort.StripAtExample | src/Components/TotalOrders/Orders.js:47-49 | "5/1 at 9:00" becomes "5/1 9:00" |
| DateSort.StripAtNoBlank | src/Components/TotalOrders/Orders.js:48-49 | a date string with no blank is passed through unchanged |
| DateSort.StripAtOnlyFirst | src/Components/TotalOrders/Orders.js:48-49 | only the first " at" goes: "x at y at z" becomes "x y at z" |
| DateSort.Compare | src/Components/TotalOrders/Orders.js:46-51 | the comparator is positive if and only if the second order is later, and zero if and only if the two keys are equal |
| DateSort.CompareAntisymmetric | src/Components/TotalOrders/Orders.js:46-51 | swapping the arguments negates the comparator |
| DateSort.SortedDescIffComparator | src/Components/TotalOrders/Orders.js:46-51 | a list is latest first if and only if the comparator puts no pair of its orders the other way round |
| DateSort.SwapDown | src/Components/TotalOrders/Orders.js:46 | exchanges two neighbours and nothing else, keeping the multiset |
| DateSort.Insert | src/Components/TotalOrders/Orders.js:46-51 | extends the sorted prefix by one, as a permutation, without touching the rest, and leaves an already sorted prefix unchanged |
| DateSort.SortByDateDesc | src/Components/TotalOrders/Orders.js:45-51 | after the in-place sort the array is latest first, so the comparator accepts every pair in it; it is a permutation of the input, and a sorted input is left unchanged |
| OrdersTable.RowsOf | src/Components/TotalOrders/Orders.js:224-260 | one row per order, in order, each built from that order's fields and badge |
| OrdersTable.OrdersTable.constructor | src/Components/TotalOrders/Orders.js:32-34 | starts with no orders, loading, no selection |
| OrdersTable.OrdersTable.BeginFetch | src/Components/TotalOrders/Orders.js:39 | raises the loading flag |
| OrdersTable.OrdersTable.FetchSucceeded | src/Components/TotalOrders/Orders.js:43-57 | corrected handler: the stored list is the reply sorted latest first, a permutation of it, and loading ends |
| OrdersTable.OrdersTable.FetchSucceededAsWritten | src/Components/TotalOrders/Orders.js:43-57 | as written: only the loading flag changes, and the order list is never stored |
| OrdersTable.OrdersTable.FetchFailed | src/Components/TotalOrders/Orders.js:54-57 | a failed request ends loading and leaves the list alone |
| OrdersTable.OrdersTable.SelectOrder | src/Components/TotalOrders/Orders.js:253 | "View Details" selects exactly that order |
| OrdersTable.OrdersTable.CloseDetails | src/Components/TotalOrders/Orders.js:276 | closing the dialog clears the selection |
| OrdersTable.OrdersTable.View | src/Components/TotalOrders/Orders.js:166-277 | spinner if and only if loading; otherwise the cards of the stored list, the empty message if and only if there are no orders, else exactly the rows of the stored orders in order, and the dialog of the selected order, as written, if and only if one is selected |
| OrdersTable.RowsShownAsWritten | src/Components/TotalOrders/Orders.js:36-62 | as written, whatever the server returns, no row is shown after the fetch: the page shows cards of 0, 0 and 0, the empty-table message and no dialog |
| OrdersTable.RowsShown | src/Components/TotalOrders/Orders.js:36-62 | corrected, every returned order is shown, latest first, as a permutation of the reply |
| OrderList.StatusCell | src/Components/AllUsers/OrderList.js:69-77 | the cell shows status3 if set, else "Canceled" if cancel, else status2 if set, else status verbatim |
| OrderList.CashAdminIgnored | src/Components/AllUsers/OrderList.js:69-77 | the cashadmin flag never changes the status cell |
| OrderList.TableCanceledIsListCanceled | src/Components/AllUsers/OrderList.js:71-72 | an order whose table badge reads "Canceled" also reads "Canceled" in the list |
| OrderList.TableDeliveredShowsStatus3 | src/Components/AllUsers/OrderList.js:69-70 | an order whose table badge reads "Delivered" shows its status3 text in the list |
| OrderList.CancelAfterShippingDiverges | src/Components/AllUsers/OrderList.js:71-73 | an order with status2 and cancel set reads "Canceled" in the list and "In Transit" in the table |
| OrderList.SettledAndCanceledDiverges | src/Components/AllUsers/OrderList.js:69-77 | a settled, canceled order without status3 reads "Canceled" in the list and "Completed" in the table |
| OrderList.TotalCell | src/Components/AllUsers/OrderList.js:66 | the list's total cell shows the same number as the orders table's amount column on every order (only the table applies `toLocaleString`, so the digit grouping differs) |
| OrderList.RowsOf | src/Components/AllUsers/OrderList.js:61-89 | one row per order, in order, with date, address, total cell and status cell |
| OrderList.ScreenFor | src/Components/AllUsers/OrderList.js:40-96 | loading wins over the error, the error over the list; an empty list shows "You don't have any orders", and a non-empty one shows exactly the rows of its orders, in order |
| OrderList.OrderListView.constructor | src/Components/AllUsers/OrderList.js:11-13 | starts with no orders, loading, no error |
| OrderList.OrderListView.FetchSucceeded | src/Components/AllUsers/OrderList.js:18-23 | success stores the list and ends loading, leaving the error as it was |
| OrderList.OrderListView.FetchFailed | src/Components/AllUsers/OrderList.js:20-24 | failure records "Failed to load orders" and ends loading, leaving the list as it was |
| OrderList.FirstFetchSucceeds | src/Components/AllUsers/OrderList.js:15-27 | a first successful fetch shows exactly the rows of the fetched orders, or the empty message when there are none |
| OrderList.FirstFetchFails | src/Components/AllUsers/OrderList.js:15-27 | a first failed fetch shows the fixed error message |
| OrderList.RefetchAfterFailure | src/Components/AllUsers/OrderList.js:15-27 | after a failure, a later successful fetch still shows the error, since nothing clears it |
| SliderPanel.JsRem | src/Components/UserDisplay/Slider.js:41 | JavaScript's remainder: for a non-negative dividend the mathematical remainder, in [0, n); for a negative one the negated remainder of its magnitude, in (-n, 0] |
| SliderPanel.NextIndex | src/Components/UserDisplay/Slider.js:163 | with at least one slide and an index from -1 up, even one past the end, the next index is exactly (i + 1) mod n and in range; it steps by one and wraps from the last slide to the first |
| SliderPanel.PrevIndex | src/Components/UserDisplay/Slider.js:152-154 | from an in-range index the previous index is in range; it steps back by one and wraps from the first slide to the last |
| SliderPanel.PrevNextInverse | src/Components/UserDisplay/Slider.js:152-163 | on every in-range index, previous undoes next and next undoes previous |
| SliderPanel.WithoutId | src/Components/UserDisplay/Slider.js:106 | a slide survives the filter if and only if it was present and its id differs from the deleted one |
| SliderPanel.WithoutIdAppend | src/Components/UserDisplay/Slider.js:106 | the filter distributes over concatenation, so survivors keep their order |
| SliderPanel.WithoutAbsentId | src/Components/UserDisplay/Slider.js:106 | deleting an id that no slide has leaves the list unchanged |
| SliderPanel.Slider.constructor | src/Components/UserDisplay/Slider.js:7-15 | the initial state: first slide, no slides, form hidden, empty draft, no preview, nothing busy |
| SliderPanel.Slider.SlidesLoaded | src/Components/UserDisplay/Slider.js:21-23 | the fetched list replaces the slides |
| SliderPanel.Slider.Next | src/Components/UserDisplay/Slider.js:161-164 | the right arrow and each timer tick move to the next index; they require at least one slide |
| SliderPanel.Slider.Prev | src/Components/UserDisplay/Slider.js:150-155 | the left arrow moves to the previous index |
| SliderPanel.Slider.SelectDot | src/Components/UserDisplay/Slider.js:142 | a dot selects its own index |
| SliderPanel.Slider.ToggleForm | src/Components/UserDisplay/Slider.js:173 | the form toggle flips whether the form is shown |
| SliderPanel.Slider.HandleFileChange | src/Components/UserDisplay/Slider.js:47-53 | a chosen file becomes the draft's image and gets a preview; no file changes nothing; preview and image stay paired |
| SliderPanel.Slider.HandleInputChange | src/Components/UserDisplay/Slider.js:55-58 | the link select updates the draft's link and nothing else |
| SliderPanel.Slider.HandleAddSlide | src/Components/UserDisplay/Slider.js:60-88 | the request goes out if and only if the draft has an image and a link; otherwise only the missing-fields alert changes |
| SliderPanel.Slider.AddSettled | src/Components/UserDisplay/Slider.js:72-84 | success takes the server's list and resets and hides the form; failure alerts and changes nothing else; adding ends either way |
| SliderPanel.Slider.HandleDeleteSlide | src/Components/UserDisplay/Slider.js:98-100 | the delete marks that slide busy and captures the current list |
| SliderPanel.Slider.ConfirmDeleteSlide | src/Components/UserDisplay/Slider.js:90-95 | the delete goes out only when confirmed; otherwise nothing changes |
| SliderPanel.Slider.DeleteSettled | src/Components/UserDisplay/Slider.js:103-118 | a true status removes exactly the slides with that id from the captured list; any other outcome leaves the slides alone; the busy marks clear either way |
| SliderPanel.Slider.DeleteDisabled | src/Components/UserDisplay/Slider.js:207 | a button is disabled if and only if its slide is the one being deleted, and none is disabled when no delete is running |
| SliderPanel.DeleteCanLeaveIndexOutOfRange | src/Components/UserDisplay/Slider.js:98-119 | deleting the last slide while it is shown leaves the active index equal to the slide count, one past the end |
| ProductAnalytics.CategoryData | src/Components/Dashboard/ProductAnalytics.js:77-80 | one revenue row per category entry, in order, named by its category and worth its delivered revenue |
| ProductAnalytics.CategoryDataAppend | src/Components/Dashboard/ProductAnalytics.js:77-80 | the revenue projection distributes over concatenation |
| ProductAnalytics.CategoryProductsData | src/Components/Dashboard/ProductAnalytics.js:116-120 | one row per fetched category, in order, with its name, product count and quantity |
| ProductAnalytics.CategoryProductsDataAppend | src/Components/Dashboard/ProductAnalytics.js:116-120 | the products projection distributes over concatenation |
| ProductAnalytics.OrZero | src/Components/Dashboard/ProductAnalytics.js:57-58 | an absent count becomes 0 and a present one is kept |
| ProductAnalytics.MakeUserMetrics | src/Components/Dashboard/ProductAnalytics.js:55-59 | the total is passed through, and the canceled and returned counts default to 0 |
| ProductAnalytics.ProductStatusData | src/Components/Dashboard/ProductAnalytics.js:62-66 | exactly three slices, In Stock, Low Stock and Out of Stock, worth the three stock props |
| ProductAnalytics.UserTypeData | src/Components/Dashboard/ProductAnalytics.js:69-73 | exactly three slices, worth the total, canceled and returned metrics |
| ProductAnalytics.QuantityTone | src/Components/Dashboard/ProductAnalytics.js:140 | red if and only if the quantity is at most 1, yellow if and only if it is from 2 to 10, green if and only if it is above 10 or absent |
| ProductAnalytics.BarColor | src/Components/Dashboard/ProductAnalytics.js:327 | every bar's fill is one of the eight palette entries, and the first eight bars take them in order |
| ProductAnalytics.BarColorCycles | src/Components/Dashboard/ProductAnalytics.js:150-160 | the fills repeat with period eight |
| ProductAnalytics.BarColors | src/Components/Dashboard/ProductAnalytics.js:326-327 | one fill per bar, each a palette entry |
| ProductAnalytics.RevenueChartAsWritten | src/Components/Dashboard/ProductAnalytics.js:320-328 | as written, the revenue chart always has the 22 hard-coded bars |
| ProductAnalytics.OrdersChartAsWritten | src/Components/Dashboard/ProductAnalytics.js:339-347 | as written, the orders chart always has the 22 hard-coded bars |
| ProductAnalytics.ChartsIgnoreCategoryStatus | src/Components/Dashboard/ProductAnalytics.js:83-108 | as written, both category charts are the same whatever category figures the dashboard receives |
| ProductAnalytics.RevenueChartShowsSampleData | src/Components/Dashboard/ProductAnalytics.js:84 | one real category worth 0 still yields 22 bars, the first "Electronics" worth 500 |
| ProductAnalytics.CategoryOrdersData | src/Components/Dashboard/ProductAnalytics.js:110-114 | corrected orders chart: one row per category entry, in order, with its ordered-product count |
| SidebarPanel.RightContent | src/Components/UserDisplay/Sidebar.js:13-26 | "categories", "slider" and "offers" each open their own panel, if and only if; anything else, "" included, shows the placeholder |
| SidebarPanel.LayoutAgrees | src/Components/UserDisplay/Sidebar.js:38-80 | the menu width and the content margin come from the same flag: one sixth with 16.66 %, one quarter with 25 % |
| SidebarPanel.Sidebar.constructor | src/Components/UserDisplay/Sidebar.js:9-10 | starts with no entry open and the slider flag down, satisfying the invariant |
| SidebarPanel.Sidebar.HandleCategoryClick | src/Components/UserDisplay/Sidebar.js:29-32 | the click opens that entry and sets the slider flag if and only if it is "slider", which keeps the invariant |
| SidebarPanel.Sidebar.Width | src/Components/UserDisplay/Sidebar.js:38-40 | the menu is narrow if and only if the slider panel is on the right |
| SidebarPanel.ClickTwice | src/Components/UserDisplay/Sidebar.js:29-32 | from any valid state, clicking the same entry twice leaves the state one click leaves, and the invariant holds |

## Left out

- Network calls are left out: every server request and its credentials. Their replies are parameters:
  - a `Response` for the orders table;
  - success or failure for the order list;
  - `AddReply` and `DeleteReply` for the carousel.
- The categories-list fetch in the carousel, and the dashboard's product-category fetch, are left out. They only store server data.
- Date parsing is a parameter `parse` from the stripped string to an integer. Invalid dates, which parse to NaN and make every comparison false, are not modelled.
- DateSort.SortByDateDesc: the sort is an insertion sort that never swaps equal keys, so it is stable like the host's sort. Stability itself is not stated in its contract.
- Presentation is reduced to tags:
  - Tailwind class strings are the `Tone`, `Width` and `Margin` enums;
  - lucide icons are the `Icon` enum;
  - recharts charts are their data rows.
- `toLocaleString` formatting of amounts and of the order-activity counts is left out. The model keeps the number that is formatted.
- Browser and timer APIs are reduced:
  - the auto-advance interval is a call of `Next`;
  - `URL.createObjectURL` is a string parameter;
  - the confirmation dialog is a boolean;
  - `alert` is the `lastAlert` field;
  - the multipart upload is not modelled.
- SliderPanel.Slider.Next: it requires at least one slide. With none, the source computes a remainder by zero, which is NaN.
- SliderPanel.Slider.Prev on an empty carousel yields -1.
- The carousel's active index is not kept in range. Deleting the shown slide can leave it past the end, as `DeleteCanLeaveIndexOutOfRange` shows. In-range is therefore no invariant of `Valid()`.
- SliderPanel.Slider.HandleInputChange updates only `linkTo`. It is bound only to the select named "linkTo", so the computed field name is not modelled.
- SliderPanel.Slider.DeleteSettled filters the list captured when the request went out. That is what the handler's closure sees: a slide added in between is dropped again. Interleavings of concurrent replies are not explored further.
- SliderPanel.Slider.AddSettled takes the server's list as given. A success reply without a `slides` field is not modelled.
- OrderStatus.Amount and OrderList.TotalCell have no result when the total is zero and the product is missing. There the source throws while rendering.
- ProductAnalytics.QuantityTone models an absent quantity, which compares false and shows green. A `null` quantity, which compares as 0, is not modelled.
- ProductAnalytics.CategoryProductsData: the server's total-products and total-quantity figures are only displayed, and are left out.
- `src/App.js` is not part of this model: routing and the auth gate only.
- `src/Components/Dashboard/Main.js` is not part of this model: it switches tabs.
- `src/Components/UserDisplay/Categories.js` is not part of this model: it fetches and lists.
- `src/Components/AllUsers/OrderedProducts.js` is not part of this model: it displays fetched data only.
- `src/Components/Dashboard/SampleData.js` is not part of this model: it holds demo constants only.

## Findings

| source | as written | input that shows it | evidently intended | confidence | as-written member | corrected member |
|---|---|---|---|---|---|---|
| src/Components/TotalOrders/Orders.js:43 | The handler awaits the response object and sorts that object. It has no sort method, so the TypeError is caught, only the loading flag is cleared, and the order list is never stored. | Any successful reply, for example one order: the table shows "You haven't placed any orders yet." | Sort and store the reply's `data` list | not executed; high (an axios response is a plain object without a sort method) | OrdersTable.RowsShownAsWritten | OrdersTable.RowsShown |
| src/Components/TotalOrders/Orders.js:127 | The address line reads the field `pinncode`, which the delivery details do not carry, so the pincode never appears. | Delivery details with only pincode "560001": the line is empty | Read the `pincode` field | not executed; medium (the stored field name is not visible in this code) | OrderStatus.PincodeLostAsWritten | OrderStatus.ShippingAddress |
| src/Components/Dashboard/ProductAnalytics.js:320 | Both category bar charts are fed the hard-coded sample list, not the category figures the dashboard receives. | One category "Books" with revenue 0: the revenue chart shows 22 sample bars, the first "Electronics" worth 500 | Chart the received figures, as the commented-out definition at lines 110-114 and the unused revenue projection at lines 77-80 do | not executed; medium (the sample list may be a deliberate placeholder) | ProductAnalytics.RevenueChartShowsSampleData | ProductAnalytics.CategoryData |
