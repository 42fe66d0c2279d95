/**
 * The order record as the order screens receive it from the server.
 *
 * JavaScript truthiness is modelled explicitly: an absent, null or empty
 * string field is the empty string, an absent or zero `total` is 0 (both
 * are falsy, so every reader treats them alike), and an order without an
 * embedded product has `product == None`.
 */
module OrderRecord {

  datatype Option<T> = None | Some(value: T)

  datatype Product = Product(name: string, price: int)

  datatype DeliveryDetails = DeliveryDetails(
    name: string,
    mobile: string,
    address: string,
    city: string,
    state: string,
    pincode: string,
    kind: string        // the `type` field: "Home", "Work", ...
  )

  datatype Order = Order(
    id: string,
    date: string,
    deliveryDetails: DeliveryDetails,
    total: int,                 // 0 when absent
    product: Option<Product>,
    paymentMethod: string,
    status: string,             // free-text default label
    status2: string,            // "in transit" class label, "" when unset
    status3: string,            // "delivered" class label, "" when unset
    cancel: bool,
    cashadmin: bool,            // cash settled with the admin
    shipedDate: string,
    deliveredDate: string,
    cashadminDate: string,
    canceledTime: string
  )
}
