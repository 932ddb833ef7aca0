/**
 * OrderService (backend/services/order_service.py): checkout from the cart, the order
 * lookups and listings, and the status update. Amounts are integer cents.
 */
module OrderService {
  import opened Wrappers
  import opened Strings
  import opened Exceptions
  import opened Schemas
  import opened Records
  import opened OrderModel
  import opened Database
  import opened ProductService
  import opened CartService

  const EmptyCartError := BadRequestException("Cart is empty. Cannot create order.")

  // ------------------------------------------------------------------ checkout plan

  /** One entry of `order_items_data`. */
  datatype PlannedItem = PlannedItem(productId: int, quantity: int, priceCents: int)

  /** The checks checkout makes on one cart row, and the item they yield. */
  function PlanLine(row: CartRow, products: seq<Product>): (r: Result<PlannedItem, AppException>)
    ensures ProductWithId(products, row.productId).None? ==> r == Err(ProductNotFound(row.productId))
    ensures ProductWithId(products, row.productId).Some? && r.Err? ==>
              r == Err(StockShortError(ProductWithId(products, row.productId).value))
    ensures r.Ok? <==> ProductWithId(products, row.productId).Some?
                       && ProductWithId(products, row.productId).value.stockQuantity >= row.quantity
    ensures r.Ok? ==> r.value == PlannedItem(row.productId, row.quantity,
                                             ProductWithId(products, row.productId).value.priceCents)
  {
    match ProductWithId(products, row.productId)
    case None => Err(ProductNotFound(row.productId))
    case Some(p) =>
      if p.stockQuantity < row.quantity then Err(StockShortError(p))
      else Ok(PlannedItem(p.id, row.quantity, p.priceCents))
  }

  /** The first loop of `create_order_from_cart` as a whole: the first failing row decides the
      error; otherwise one planned item per row. */
  function Plan(rows: seq<CartRow>, products: seq<Product>): Result<seq<PlannedItem>, AppException>
  {
    if |rows| == 0 then Ok([])
    else match Plan(rows[..|rows| - 1], products)
      case Err(e) => Err(e)
      case Ok(items) =>
        match PlanLine(rows[|rows| - 1], products)
        case Err(e) => Err(e)
        case Ok(item) => Ok(items + [item])
  }

  /** Sum of price × quantity over the planned items. */
  function SumLines(items: seq<PlannedItem>): int
  {
    if |items| == 0 then 0 else SumLines(items[..|items| - 1]) + items[|items| - 1].priceCents * items[|items| - 1].quantity
  }

  lemma SumLinesSnoc(items: seq<PlannedItem>, item: PlannedItem)
    ensures SumLines(items + [item]) == SumLines(items) + item.priceCents * item.quantity
  {
    assert (items + [item])[..|items|] == items;
  }

  /** Once a prefix fails, the whole plan fails with the same error. */
  lemma {:induction false} PlanPrefixErr(rows: seq<CartRow>, products: seq<Product>, i: nat)
    requires i <= |rows| && Plan(rows[..i], products).Err?
    ensures Plan(rows, products) == Plan(rows[..i], products)
    decreases |rows|
  {
    if i == |rows| {
      assert rows[..i] == rows;
    } else {
      var init := rows[..|rows| - 1];
      assert init[..i] == rows[..i];
      PlanPrefixErr(init, products, i);
    }
  }

  /** How one more row extends the plan. */
  lemma PlanSnoc(rows: seq<CartRow>, products: seq<Product>)
    requires |rows| > 0
    ensures var init := rows[..|rows| - 1];
            var last := rows[|rows| - 1];
            && (Plan(rows, products).Ok? <==> Plan(init, products).Ok? && PlanLine(last, products).Ok?)
            && (Plan(rows, products).Ok? ==> Plan(rows, products).value == Plan(init, products).value + [PlanLine(last, products).value])
            && (Plan(init, products).Ok? && PlanLine(last, products).Err? ==> Plan(rows, products) == Err(PlanLine(last, products).error))
  {
  }

  /** The plan succeeds exactly when every row passes its checks. */
  lemma {:induction false} PlanOkIff(rows: seq<CartRow>, products: seq<Product>)
    ensures Plan(rows, products).Ok? <==> forall j :: 0 <= j < |rows| ==> PlanLine(rows[j], products).Ok?
  {
    if |rows| > 0 {
      var init := rows[..|rows| - 1];
      var last := rows[|rows| - 1];
      PlanOkIff(init, products);
      PlanSnoc(rows, products);
      if forall j :: 0 <= j < |rows| ==> PlanLine(rows[j], products).Ok? {
        forall j | 0 <= j < |init| ensures PlanLine(init[j], products).Ok? {
          assert init[j] == rows[j];
        }
        assert PlanLine(last, products).Ok?;
      } else {
        var j :| 0 <= j < |rows| && PlanLine(rows[j], products).Err?;
        if j < |init| {
          assert init[j] == rows[j];
        }
      }
    }
  }

  /** A successful plan holds one item per row. */
  lemma {:induction false} PlanLength(rows: seq<CartRow>, products: seq<Product>)
    requires Plan(rows, products).Ok?
    ensures |Plan(rows, products).value| == |rows|
  {
    if |rows| > 0 {
      PlanSnoc(rows, products);
      PlanLength(rows[..|rows| - 1], products);
    }
  }

  /** Item `j` of a successful plan is the one row `j` yields. */
  lemma {:induction false} PlanItemAt(rows: seq<CartRow>, products: seq<Product>, j: nat)
    requires Plan(rows, products).Ok? && j < |rows|
    ensures j < |Plan(rows, products).value| && PlanLine(rows[j], products) == Ok(Plan(rows, products).value[j])
  {
    var init, last := rows[..|rows| - 1], rows[|rows| - 1];
    PlanSnoc(rows, products);
    PlanLength(init, products);
    var front, item := Plan(init, products).value, PlanLine(last, products).value;
    assert Plan(rows, products).value == front + [item];
    if j < |init| {
      PlanItemAt(init, products, j);
      assert init[j] == rows[j] && (front + [item])[j] == front[j];
    } else {
      assert rows[j] == last && (front + [item])[j] == item;
    }
  }

  /** A successful plan holds one item per row, in order. */
  lemma PlanItems(rows: seq<CartRow>, products: seq<Product>)
    requires Plan(rows, products).Ok?
    ensures |Plan(rows, products).value| == |rows|
    ensures forall j :: 0 <= j < |rows| ==> PlanLine(rows[j], products) == Ok(Plan(rows, products).value[j])
  {
    PlanLength(rows, products);
    forall j | 0 <= j < |rows| ensures PlanLine(rows[j], products) == Ok(Plan(rows, products).value[j]) {
      PlanItemAt(rows, products, j);
    }
  }

  /** The total of a successful plan is the cart's price. */
  lemma {:induction false} PlanTotal(rows: seq<CartRow>, products: seq<Product>)
    requires Plan(rows, products).Ok?
    ensures SumLines(Plan(rows, products).value) == CartPrice(rows, products)
  {
    if |rows| > 0 {
      var init := rows[..|rows| - 1];
      var last := rows[|rows| - 1];
      PlanSnoc(rows, products);
      PlanTotal(init, products);
      var items := Plan(rows, products).value;
      assert items[..|items| - 1] == Plan(init, products).value;
      var p := ProductWithId(products, last.productId).value;
      assert items[|items| - 1] == PlannedItem(last.productId, last.quantity, p.priceCents);
      assert LinePrice(last, products) == p.priceCents * last.quantity;
    }
  }

  /** The plan of the first `i` rows extended by row `i`: its error ends the plan, its item
      extends the prefix's. */
  lemma PlanNext(rows: seq<CartRow>, products: seq<Product>, i: nat, items: seq<PlannedItem>)
    requires i < |rows| && Plan(rows[..i], products) == Ok(items)
    ensures PlanLine(rows[i], products).Err? ==> Plan(rows, products) == Err(PlanLine(rows[i], products).error)
    ensures PlanLine(rows[i], products).Ok? ==>
              Plan(rows[..i + 1], products) == Ok(items + [PlanLine(rows[i], products).value])
  {
    assert rows[..i + 1][..i] == rows[..i] && rows[..i + 1][i] == rows[i];
    PlanSnoc(rows[..i + 1], products);
    if PlanLine(rows[i], products).Err? {
      PlanPrefixErr(rows, products, i + 1);
    }
  }

  /** The first loop of `create_order_from_cart`: the running total and the item list. */
  method CheckCartLines(rows: seq<CartRow>, products: seq<Product>)
    returns (r: Result<seq<PlannedItem>, AppException>, totalCents: int)
    ensures r == Plan(rows, products)
    ensures r.Ok? ==> totalCents == SumLines(r.value)
  {
    var items: seq<PlannedItem> := [];
    totalCents := 0;
    for i := 0 to |rows|
      invariant Plan(rows[..i], products) == Ok(items)
      invariant totalCents == SumLines(items)
    {
      PlanNext(rows, products, i, items);
      var product := ProductWithId(products, rows[i].productId);
      if product.None? {
        assert PlanLine(rows[i], products) == Err(ProductNotFound(rows[i].productId));
        return Err(ProductNotFound(rows[i].productId)), totalCents;
      }
      var p := product.value;
      if p.stockQuantity < rows[i].quantity {
        assert PlanLine(rows[i], products) == Err(StockShortError(p));
        return Err(StockShortError(p)), totalCents;
      }
      var item := PlannedItem(p.id, rows[i].quantity, p.priceCents);
      assert PlanLine(rows[i], products) == Ok(item);
      SumLinesSnoc(items, item);
      totalCents := totalCents + p.priceCents * rows[i].quantity;
      items := items + [item];
    }
    assert rows[..|rows|] == rows;
    return Ok(items), totalCents;
  }

  // ------------------------------------------------------------------ stock after checkout

  /** Units of a product in the given rows. */
  function QuantityOf(rows: seq<CartRow>, productId: int): int
  {
    if |rows| == 0 then 0
    else QuantityOf(rows[..|rows| - 1], productId)
         + (if rows[|rows| - 1].productId == productId then rows[|rows| - 1].quantity else 0)
  }

  /** `after` is `before` with every product's stock lowered by the units of it in the rows,
      and nothing else changed. */
  predicate ReducedBy(after: seq<Product>, before: seq<Product>, rows: seq<CartRow>)
  {
    && |after| == |before|
    && forall k :: 0 <= k < |before| ==>
         after[k] == before[k].(stockQuantity := before[k].stockQuantity - QuantityOf(rows, before[k].id))
  }

  lemma {:induction false} QuantityOfAbsent(rows: seq<CartRow>, productId: int)
    requires forall c :: c in rows ==> c.productId != productId
    ensures QuantityOf(rows, productId) == 0
  {
    if |rows| > 0 {
      assert rows[|rows| - 1] in rows;
      assert forall c :: c in rows[..|rows| - 1] ==> c in rows;
      QuantityOfAbsent(rows[..|rows| - 1], productId);
    }
  }

  /** One more row lowers exactly its product's stock, by its quantity. */
  lemma ReducedStep(products: seq<Product>, current: seq<Product>, rows: seq<CartRow>, j: int)
    requires 0 <= j < |rows| && ReducedBy(current, products, rows[..j])
    ensures ReducedBy(Lowered(current, rows[j].productId, rows[j].quantity), products, rows[..j + 1])
  {
    assert rows[..j + 1][..j] == rows[..j];
  }

  /** Before row `j` is processed, its product still has its original stock, which the plan
      checked. */
  lemma ReduceReady(products: seq<Product>, current: seq<Product>, rows: seq<CartRow>, j: int, k: int)
    requires 0 <= j < |rows| && 0 <= k < |products| && products[k].id == rows[j].productId
    requires ReducedBy(current, products, rows[..j])
    requires products[k].stockQuantity >= rows[j].quantity
    requires forall i :: 0 <= i < j ==> rows[i].productId != rows[j].productId
    ensures current[k].id == rows[j].productId && current[k].stockQuantity >= rows[j].quantity
  {
    forall c | c in rows[..j] ensures c.productId != rows[j].productId {
      var t :| 0 <= t < j && rows[..j][t] == c;
    }
    QuantityOfAbsent(rows[..j], rows[j].productId);
  }

  /** Row `j`'s product is found in the current table with enough stock for the row. */
  lemma ReadyToReduce(products: seq<Product>, current: seq<Product>, rows: seq<CartRow>, j: int)
    requires UniqueProductIds(products) && UniqueProductIds(current)
    requires 0 <= j < |rows| && PlanLine(rows[j], products).Ok?
    requires forall i :: 0 <= i < j ==> rows[i].productId != rows[j].productId
    requires ReducedBy(current, products, rows[..j])
    ensures ProductWithId(current, rows[j].productId).Some?
    ensures ProductWithId(current, rows[j].productId).value.stockQuantity >= rows[j].quantity
  {
    var p := ProductWithId(products, rows[j].productId).value;
    var k :| 0 <= k < |products| && products[k] == p;
    ReduceReady(products, current, rows, j, k);
    ProductWithIdAt(current, k);
  }

  /** In one user's rows every product appears once. */
  lemma UserRowsDistinctProducts(cart: seq<CartRow>, userId: int)
    requires OneRowPerUserProduct(cart)
    ensures var rows := GetUserCart(cart, userId);
            forall i, j :: 0 <= i < j < |rows| ==> rows[i].productId != rows[j].productId
  {
    var rows := GetUserCart(cart, userId);
    FilterPairwise(cart, (c: CartRow) => c.userId == userId,
                   (a: CartRow, b: CartRow) => a.userId != b.userId || a.productId != b.productId);
    assert forall i :: 0 <= i < |rows| ==> rows[i] in rows;
  }

  /** One pass of the second loop: the order item for row `j`, with the next item id, and
      `reduce_stock` for it, which succeeds. */
  method AddItemAndReduceStock(db: Db, orderId: int, products: seq<Product>, rows: seq<CartRow>, item: PlannedItem, j: int)
    returns (orderItem: OrderItem)
    requires db.Valid() && UniqueProductIds(products)
    requires 0 <= j < |rows| && PlanLine(rows[j], products) == Ok(item)
    requires forall i :: 0 <= i < j ==> rows[i].productId != rows[j].productId
    requires ReducedBy(db.products, products, rows[..j])
    modifies db
    ensures db.Valid()
    ensures ReducedBy(db.products, products, rows[..j + 1])
    ensures orderItem == OrderItem(old(db.nextOrderItemId), orderId, item.productId, item.quantity, item.priceCents)
    ensures db.nextOrderItemId == old(db.nextOrderItemId) + 1
    ensures db.cart == old(db.cart) && db.users == old(db.users) && db.orders == old(db.orders)
    ensures db.nextProductId == old(db.nextProductId) && db.nextUserId == old(db.nextUserId)
    ensures db.nextCartId == old(db.nextCartId) && db.nextOrderId == old(db.nextOrderId)
  {
    assert item.productId == rows[j].productId && item.quantity == rows[j].quantity;
    ReadyToReduce(products, db.products, rows, j);
    ReducedStep(products, db.products, rows, j);
    orderItem := OrderItem(db.nextOrderItemId, orderId, item.productId, item.quantity, item.priceCents);
    db.nextOrderItemId := db.nextOrderItemId + 1;
    var reduced := ReduceStock(db, item.productId, item.quantity);
    assert reduced.Ok?;
  }

  /** The order items written so far: item `t` has id `firstId + t` and copies planned item `t`. */
  predicate NumberedItems(orderItems: seq<OrderItem>, firstId: int, orderId: int, items: seq<PlannedItem>)
  {
    && |orderItems| <= |items|
    && forall t :: 0 <= t < |orderItems| ==>
         orderItems[t] == OrderItem(firstId + t, orderId, items[t].productId, items[t].quantity, items[t].priceCents)
  }

  lemma NumberedItemsAppend(orderItems: seq<OrderItem>, firstId: int, orderId: int, items: seq<PlannedItem>)
    requires NumberedItems(orderItems, firstId, orderId, items) && |orderItems| < |items|
    ensures var t := |orderItems|;
            NumberedItems(orderItems + [OrderItem(firstId + t, orderId, items[t].productId, items[t].quantity, items[t].priceCents)],
                          firstId, orderId, items)
  {
  }

  /** The second loop of `create_order_from_cart`: one order item per planned item, with fresh
      ids, and `reduce_stock` for each, which never fails here because the first loop checked
      every product and each product occurs in one row only. */
  method AddItemsAndReduceStock(db: Db, orderId: int, rows: seq<CartRow>, items: seq<PlannedItem>)
    returns (orderItems: seq<OrderItem>)
    requires db.Valid()
    requires Plan(rows, db.products) == Ok(items)
    requires forall i, j :: 0 <= i < j < |rows| ==> rows[i].productId != rows[j].productId
    modifies db
    ensures db.Valid()
    ensures ReducedBy(db.products, old(db.products), rows)
    ensures |orderItems| == |items| && NumberedItems(orderItems, old(db.nextOrderItemId), orderId, items)
    ensures db.nextOrderItemId == old(db.nextOrderItemId) + |items|
    ensures db.cart == old(db.cart) && db.users == old(db.users) && db.orders == old(db.orders)
    ensures db.nextProductId == old(db.nextProductId) && db.nextUserId == old(db.nextUserId)
    ensures db.nextCartId == old(db.nextCartId) && db.nextOrderId == old(db.nextOrderId)
  {
    var products := db.products;
    var firstId := db.nextOrderItemId;
    PlanItems(rows, products);
    orderItems := [];
    for j := 0 to |items|
      invariant db.Valid()
      invariant ReducedBy(db.products, products, rows[..j])
      invariant |orderItems| == j && NumberedItems(orderItems, firstId, orderId, items)
      invariant db.nextOrderItemId == firstId + j
      invariant db.cart == old(db.cart) && db.users == old(db.users) && db.orders == old(db.orders)
      invariant db.nextProductId == old(db.nextProductId) && db.nextUserId == old(db.nextUserId)
      invariant db.nextCartId == old(db.nextCartId) && db.nextOrderId == old(db.nextOrderId)
    {
      var orderItem := AddItemAndReduceStock(db, orderId, products, rows, items[j], j);
      NumberedItemsAppend(orderItems, firstId, orderId, items);
      orderItems := orderItems + [orderItem];
    }
    assert rows[..|items|] == rows;
  }

  /** The order checkout writes: the next order id, the user, the cart's price, pending, the
      address and payment method given, created now and never updated, and one item per cart row
      with consecutive item ids from `firstItemId`, the row's product and quantity and the unit
      price the plan read. */
  predicate PlacedOrder(order: Order, id: int, firstItemId: int, userId: int, data: OrderCreate, now: Timestamp,
                        rows: seq<CartRow>, items: seq<PlannedItem>, products: seq<Product>)
  {
    && order.id == id
    && order.userId == userId
    && order.totalAmountCents == CartPrice(rows, products)
    && order.status == Pending
    && order.shippingAddress == data.shippingAddress && order.paymentMethod == data.paymentMethod
    && order.createdAt == Some(now) && order.updatedAt == None
    && |order.items| == |rows| && |items| == |rows|
    && forall t :: 0 <= t < |rows| ==>
         order.items[t] == OrderItem(firstItemId + t, id, rows[t].productId, rows[t].quantity, items[t].priceCents)
  }

  /** The order built from a successful plan and its numbered items is the one described above. */
  lemma PlacedOrderOf(orderId: int, firstItemId: int, userId: int, data: OrderCreate, now: Timestamp,
                      rows: seq<CartRow>, items: seq<PlannedItem>, products: seq<Product>, total: int,
                      orderItems: seq<OrderItem>)
    requires Plan(rows, products) == Ok(items) && total == SumLines(items)
    requires |orderItems| == |items| && NumberedItems(orderItems, firstItemId, orderId, items)
    ensures PlacedOrder(Order(orderId, userId, total, DefaultStatus, data.shippingAddress, data.paymentMethod,
                              Some(now), None, orderItems),
                        orderId, firstItemId, userId, data, now, rows, items, products)
  {
    PlanItems(rows, products);
    PlanTotal(rows, products);
    forall t | 0 <= t < |rows|
      ensures items[t].productId == rows[t].productId && items[t].quantity == rows[t].quantity
    {
      assert PlanLine(rows[t], products) == Ok(items[t]);
    }
  }

  /** The second half of `create_order_from_cart`, once every row passed: the pending order with
      its items, the stock reduced for every row, and the user's cart cleared. */
  method PlaceOrder(db: Db, userId: int, data: OrderCreate, now: Timestamp, rows: seq<CartRow>,
                    items: seq<PlannedItem>, total: int)
    returns (order: Order)
    requires db.Valid()
    requires rows == GetUserCart(db.cart, userId)
    requires Plan(rows, db.products) == Ok(items) && total == SumLines(items)
    modifies db
    ensures db.Valid()
    ensures PlacedOrder(order, old(db.nextOrderId), old(db.nextOrderItemId), userId, data, now, rows, items,
                        old(db.products))
    ensures db.orders == old(db.orders) + [order]
    ensures ReducedBy(db.products, old(db.products), rows)
    ensures db.cart == CartWithoutUser(old(db.cart), userId)
    ensures GetUserCart(db.cart, userId) == []
    ensures db.nextOrderId == old(db.nextOrderId) + 1
    ensures db.nextOrderItemId == old(db.nextOrderItemId) + |rows|
    ensures db.users == old(db.users)
    ensures db.nextProductId == old(db.nextProductId) && db.nextUserId == old(db.nextUserId)
    ensures db.nextCartId == old(db.nextCartId)
  {
    var products := db.products;
    var firstItemId := db.nextOrderItemId;
    UserRowsDistinctProducts(db.cart, userId);
    var orderId := db.nextOrderId;
    var orderItems := AddItemsAndReduceStock(db, orderId, rows, items);
    ClearCart(db, userId);
    order := Order(orderId, userId, total, DefaultStatus, data.shippingAddress, data.paymentMethod,
                   Some(now), None, orderItems);
    PlacedOrderOf(orderId, firstItemId, userId, data, now, rows, items, products, total, orderItems);
    OrderTableAppend(db.orders, orderId, order);
    db.orders, db.nextOrderId := db.orders + [order], db.nextOrderId + 1;
  }

  /** `create_order_from_cart`. An empty cart, a missing product or a short stock fails with
      nothing changed; otherwise the order is placed. */
  method CreateOrderFromCart(db: Db, userId: int, data: OrderCreate, now: Timestamp)
    returns (r: Result<Order, AppException>)
    requires db.Valid()
    modifies db
    ensures db.Valid()
    ensures var rows := GetUserCart(old(db.cart), userId);
            if |rows| == 0 then r == Err(EmptyCartError)
            else if Plan(rows, old(db.products)).Err? then r == Err(Plan(rows, old(db.products)).error)
            else r.Ok?
    ensures r.Err? ==> db.products == old(db.products) && db.cart == old(db.cart) && db.orders == old(db.orders)
                       && db.nextOrderId == old(db.nextOrderId) && db.nextOrderItemId == old(db.nextOrderItemId)
    ensures r.Ok? ==>
              var rows := GetUserCart(old(db.cart), userId);
              var items := Plan(rows, old(db.products)).value;
              && PlacedOrder(r.value, old(db.nextOrderId), old(db.nextOrderItemId), userId, data, now, rows, items,
                             old(db.products))
              && db.orders == old(db.orders) + [r.value]
              && ReducedBy(db.products, old(db.products), rows)
              && db.cart == CartWithoutUser(old(db.cart), userId)
              && GetUserCart(db.cart, userId) == []
              && db.nextOrderId == old(db.nextOrderId) + 1
              && db.nextOrderItemId == old(db.nextOrderItemId) + |rows|
    ensures db.users == old(db.users)
    ensures db.nextProductId == old(db.nextProductId) && db.nextUserId == old(db.nextUserId)
    ensures db.nextCartId == old(db.nextCartId)
  {
    var rows := GetUserCart(db.cart, userId);
    if |rows| == 0 {
      return Err(EmptyCartError);
    }
    var plan, total := CheckCartLines(rows, db.products);
    if plan.Err? {
      return Err(plan.error);
    }
    var order := PlaceOrder(db, userId, data, now, rows, plan.value, total);
    return Ok(order);
  }

  // ------------------------------------------------------------------ lookups and listings

  /** MySQL's `ORDER BY created_at DESC` key: a missing timestamp sorts below every other. */
  function DateKey(o: Order): int
  {
    if o.createdAt.None? then -1 else o.createdAt.value
  }

  predicate NewestFirst(s: seq<Order>)
  {
    forall i, j :: 0 <= i < j < |s| ==> DateKey(s[i]) >= DateKey(s[j])
  }

  lemma NewestFirstCons(x: Order, s: seq<Order>)
    requires NewestFirst(s) && (|s| > 0 ==> DateKey(x) >= DateKey(s[0]))
    ensures NewestFirst([x] + s)
  {
    var r := [x] + s;
    forall i, j | 0 <= i < j < |r| ensures DateKey(r[i]) >= DateKey(r[j]) {
      if i == 0 && j > 1 {
        assert DateKey(s[0]) >= DateKey(s[j - 1]);
      }
    }
  }

  function InsertByDate(o: Order, s: seq<Order>): (r: seq<Order>)
    requires NewestFirst(s)
    ensures NewestFirst(r)
    ensures multiset(r) == multiset(s) + multiset{o}
    ensures |r| == |s| + 1
    ensures r[0] == o || (|s| > 0 && r[0] == s[0])
  {
    if |s| == 0 then [o]
    else if DateKey(s[0]) <= DateKey(o) then
      NewestFirstCons(o, s);
      [o] + s
    else
      var rest := InsertByDate(o, s[1..]);
      assert s == [s[0]] + s[1..];
      NewestFirstCons(s[0], rest);
      [s[0]] + rest
  }

  /** The orders, newest first; orders with the same timestamp keep no particular order in SQL,
      and this one keeps their table order. */
  function SortNewestFirst(s: seq<Order>): (r: seq<Order>)
    ensures NewestFirst(r)
    ensures multiset(r) == multiset(s)
    ensures |r| == |s|
  {
    if |s| == 0 then []
    else
      assert s == s[..|s| - 1] + [s[|s| - 1]];
      InsertByDate(s[|s| - 1], SortNewestFirst(s[..|s| - 1]))
  }

  /** Sorting neither adds nor drops an order. */
  lemma SortedMembers(s: seq<Order>)
    ensures forall o :: o in SortNewestFirst(s) <==> o in s
  {
    var r := SortNewestFirst(s);
    forall o ensures o in r <==> o in s {
      assert o in r <==> o in multiset(r);
      assert o in s <==> o in multiset(s);
    }
  }

  /** A page of a newest-first list is newest first, takes its orders from the list, and is
      the whole list when nothing is skipped and everything fits. */
  lemma PageOfSorted(s: seq<Order>, skip: nat, limit: nat)
    requires NewestFirst(s)
    ensures NewestFirst(Window(s, skip, limit))
    ensures forall o :: o in Window(s, skip, limit) ==> o in s
    ensures skip == 0 && |s| <= limit ==> Window(s, skip, limit) == s
  {
    WindowKeepsOrder(s, skip, limit);
    var r := Window(s, skip, limit);
    forall o | o in r ensures o in s {
      var k :| 0 <= k < |r| && r[k] == o;
      assert s[skip + k] == o;
    }
    if skip == 0 && |s| <= limit {
      assert r == s[0..];
    }
  }

  /** The orders of one user, in table order, each as often as in the table. */
  function OrdersOfUser(orders: seq<Order>, userId: int): (r: seq<Order>)
    ensures forall o :: o in r <==> o in orders && o.userId == userId
    ensures forall o :: multiset(r)[o] == if o.userId == userId then multiset(orders)[o] else 0
  {
    var mine := (o: Order) => o.userId == userId;
    FilterCounts(orders, mine);
    Filter(orders, mine)
  }

  /** `get_user_orders`: the user's orders, newest first, after `skip` of them, at most `limit`. */
  function GetUserOrders(orders: seq<Order>, userId: int, skip: nat := 0, limit: nat := 100): (r: seq<Order>)
    ensures var sorted := SortNewestFirst(OrdersOfUser(orders, userId));
            && |r| == PageLength(|sorted|, skip, limit)
            && forall k :: 0 <= k < |r| ==> r[k] == sorted[skip + k]
    ensures NewestFirst(r)
    ensures |r| <= limit
    ensures forall o :: o in r ==> o in orders && o.userId == userId
    ensures skip == 0 && |OrdersOfUser(orders, userId)| <= limit ==>
              multiset(r) == multiset(OrdersOfUser(orders, userId))
  {
    var mine := OrdersOfUser(orders, userId);
    SortedMembers(mine);
    PageOfSorted(SortNewestFirst(mine), skip, limit);
    Window(SortNewestFirst(mine), skip, limit)
  }

  /** `if status:` — every member of the enumeration is a non-empty string, so any given status filters. */
  predicate HasStatus(o: Order, status: Option<OrderStatus>)
  {
    status.Some? ==> o.status == status.value
  }

  /** The orders of the given status (all of them without one), in table order, each as often as
      in the table. */
  function OrdersWithStatus(orders: seq<Order>, status: Option<OrderStatus>): (r: seq<Order>)
    ensures forall o :: o in r <==> o in orders && HasStatus(o, status)
    ensures forall o :: multiset(r)[o] == if HasStatus(o, status) then multiset(orders)[o] else 0
  {
    var chosen := (o: Order) => HasStatus(o, status);
    FilterCounts(orders, chosen);
    Filter(orders, chosen)
  }

  /** `get_all_orders`: all orders (of one status, when given), newest first, after `skip` of
      them, at most `limit`. */
  function GetAllOrders(orders: seq<Order>, skip: nat := 0, limit: nat := 100, status: Option<OrderStatus> := None): (r: seq<Order>)
    ensures var sorted := SortNewestFirst(OrdersWithStatus(orders, status));
            && |r| == PageLength(|sorted|, skip, limit)
            && forall k :: 0 <= k < |r| ==> r[k] == sorted[skip + k]
    ensures NewestFirst(r)
    ensures |r| <= limit
    ensures forall o :: o in r ==> o in orders && HasStatus(o, status)
    ensures skip == 0 && |OrdersWithStatus(orders, status)| <= limit ==>
              multiset(r) == multiset(OrdersWithStatus(orders, status))
  {
    var chosen := OrdersWithStatus(orders, status);
    SortedMembers(chosen);
    PageOfSorted(SortNewestFirst(chosen), skip, limit);
    Window(SortNewestFirst(chosen), skip, limit)
  }

  lemma WindowKeepsOrder(s: seq<Order>, skip: nat, limit: nat)
    requires NewestFirst(s)
    ensures NewestFirst(Window(s, skip, limit))
  {
  }

  function OrderNotFound(id: int): AppException
  {
    NotFoundException("Order with ID " + IntToString(id) + " not found")
  }

  /** `get_order_by_id`: the order with this id, which must also belong to `userId` when one is given. */
  function GetOrderById(orders: seq<Order>, id: int, userId: Option<int> := None): (r: Result<Order, AppException>)
    ensures r.Ok? <==> exists o :: o in orders && o.id == id && (userId.Some? ==> o.userId == userId.value)
    ensures r.Ok? ==> r.value in orders && r.value.id == id && (userId.Some? ==> r.value.userId == userId.value)
    ensures r.Err? ==> r.error == OrderNotFound(id) && StatusCode(r.error) == 404
  {
    match FirstIndex(orders, (o: Order) => o.id == id && (userId.Some? ==> o.userId == userId.value))
    case None => Err(OrderNotFound(id))
    case Some(k) => Ok(orders[k])
  }

  /** Giving the owner changes nothing for that owner's orders and hides everyone else's. */
  lemma OwnerFilter(orders: seq<Order>, id: int, userId: int)
    requires UniqueOrderIds(orders)
    ensures GetOrderById(orders, id, Some(userId)).Ok? <==>
              GetOrderById(orders, id).Ok? && GetOrderById(orders, id).value.userId == userId
  {
    if GetOrderById(orders, id, Some(userId)).Ok? {
      var a := GetOrderById(orders, id, Some(userId)).value;
      var b := GetOrderById(orders, id).value;
      var i :| 0 <= i < |orders| && orders[i] == a;
      var j :| 0 <= j < |orders| && orders[j] == b;
      assert i == j by {
        assert !(i < j) && !(j < i);
      }
    }
  }

  /** `update_order_status`: NotFound for an unknown id; otherwise the status is set. The
      `updated_at` column takes the clock's time only when the value really changes, since
      SQLAlchemy issues no UPDATE for an attribute set to its current value. */
  method UpdateOrderStatus(db: Db, id: int, status: OrderStatus, now: Timestamp) returns (r: Result<Order, AppException>)
    requires db.Valid()
    modifies db
    ensures db.Valid()
    ensures r.Err? <==> forall o :: o in old(db.orders) ==> o.id != id
    ensures r.Err? ==> r.error == OrderNotFound(id) && db.orders == old(db.orders)
    ensures r.Ok? ==> exists k :: 0 <= k < |old(db.orders)| && old(db.orders)[k].id == id
                                  && r.value == (if old(db.orders)[k].status == status then old(db.orders)[k]
                                                 else old(db.orders)[k].(status := status, updatedAt := Some(now)))
                                  && db.orders == old(db.orders)[k := r.value]
    ensures db.products == old(db.products) && db.users == old(db.users) && db.cart == old(db.cart)
    ensures db.nextProductId == old(db.nextProductId) && db.nextUserId == old(db.nextUserId)
    ensures db.nextCartId == old(db.nextCartId) && db.nextOrderId == old(db.nextOrderId)
    ensures db.nextOrderItemId == old(db.nextOrderItemId)
  {
    var found := FirstIndex(db.orders, (o: Order) => o.id == id);
    if found.None? {
      return Err(OrderNotFound(id));
    }
    var k := found.value;
    var order := db.orders[k];
    if order.status != status {
      order := order.(status := status, updatedAt := Some(now));
    }
    var before := db.orders;
    db.orders := before[k := order];
    forall o | o in db.orders ensures o.id < db.nextOrderId {
      var i :| 0 <= i < |db.orders| && db.orders[i] == o;
      assert before[i] in before;
    }
    return Ok(order);
  }
}
