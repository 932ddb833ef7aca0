/**
 * The order tables of backend/models/order.py: the OrderStatus enumeration, Order and
 * OrderItem rows, and their `to_dict` renderings. Amounts are integer cents.
 */
module OrderModel {
  import opened Wrappers
  import opened Records

  datatype OrderStatus = Pending | Confirmed | Processing | Shipped | Delivered | Cancelled

  /** Every member of the enumeration, in declaration order. */
  const AllStatuses: seq<OrderStatus> := [Pending, Confirmed, Processing, Shipped, Delivered, Cancelled]

  /** `status.value`. */
  function StatusValue(s: OrderStatus): string
  {
    match s
    case Pending => "pending"
    case Confirmed => "confirmed"
    case Processing => "processing"
    case Shipped => "shipped"
    case Delivered => "delivered"
    case Cancelled => "cancelled"
  }

  /** `OrderStatus(v)`: the member whose value is `v`, if any. */
  function ParseStatus(v: string): (r: Option<OrderStatus>)
    ensures r.Some? ==> StatusValue(r.value) == v
  {
    if v == "pending" then Some(Pending)
    else if v == "confirmed" then Some(Confirmed)
    else if v == "processing" then Some(Processing)
    else if v == "shipped" then Some(Shipped)
    else if v == "delivered" then Some(Delivered)
    else if v == "cancelled" then Some(Cancelled)
    else None
  }

  /** Parsing a member's value gives the member back, so the six values are pairwise distinct;
      all of them are lower-case letters. */
  lemma StatusValuesRoundTrip(s: OrderStatus)
    ensures ParseStatus(StatusValue(s)) == Some(s)
    ensures forall t :: StatusValue(t) == StatusValue(s) ==> t == s
    ensures forall k :: 0 <= k < |StatusValue(s)| ==> 'a' <= StatusValue(s)[k] <= 'z'
    ensures s in AllStatuses && |AllStatuses| == 6
  {
  }

  /** Seconds on the database clock. */
  type Timestamp = nat

  datatype OrderItem = OrderItem(id: int, orderId: int, productId: int, quantity: int, priceAtPurchaseCents: int)

  datatype Order = Order(
    id: int,
    userId: int,
    totalAmountCents: int,
    status: OrderStatus,
    shippingAddress: string,
    paymentMethod: Option<string>,
    createdAt: Option<Timestamp>,
    updatedAt: Option<Timestamp>,
    items: seq<OrderItem>)

  /** The column default of `Order.status`. */
  const DefaultStatus: OrderStatus := Pending

  datatype OrderItemDict = OrderItemDict(
    id: int,
    orderId: int,
    productId: int,
    quantity: int,
    priceAtPurchaseCents: int,
    product: Option<Product>)

  /** `OrderItem.to_dict()`: the product is looked up through the relationship and is None
      when its row is gone. */
  function OrderItemToDict(item: OrderItem, products: seq<Product>): (d: OrderItemDict)
    ensures d.id == item.id && d.orderId == item.orderId && d.productId == item.productId
    ensures d.quantity == item.quantity && d.priceAtPurchaseCents == item.priceAtPurchaseCents
    ensures d.product.None? <==> forall p :: p in products ==> p.id != item.productId
    ensures d.product.Some? ==> d.product.value in products && d.product.value.id == item.productId
  {
    OrderItemDict(item.id, item.orderId, item.productId, item.quantity, item.priceAtPurchaseCents,
                  ProductWithId(products, item.productId))
  }

  /** The timestamps are kept as values; their ISO-8601 text is not modelled. */
  datatype OrderDict = OrderDict(
    id: int,
    userId: int,
    totalAmountCents: int,
    status: string,
    shippingAddress: string,
    paymentMethod: Option<string>,
    createdAt: Option<Timestamp>,
    updatedAt: Option<Timestamp>,
    items: seq<OrderItemDict>)

  /** `Order.to_dict()`. */
  function OrderToDict(o: Order, products: seq<Product>): (d: OrderDict)
    ensures ParseStatus(d.status) == Some(o.status)
    ensures d.id == o.id && d.userId == o.userId && d.totalAmountCents == o.totalAmountCents
    ensures d.shippingAddress == o.shippingAddress && d.paymentMethod == o.paymentMethod
    ensures d.createdAt == o.createdAt && d.updatedAt == o.updatedAt
    ensures |d.items| == |o.items|
    ensures forall k :: 0 <= k < |o.items| ==> d.items[k] == OrderItemToDict(o.items[k], products)
  {
    StatusValuesRoundTrip(o.status);
    OrderDict(
      o.id, o.userId, o.totalAmountCents, StatusValue(o.status), o.shippingAddress, o.paymentMethod,
      o.createdAt, o.updatedAt,
      if |o.items| > 0 then seq(|o.items|, k requires 0 <= k < |o.items| => OrderItemToDict(o.items[k], products))
      else [])
  }
}
