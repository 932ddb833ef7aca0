/**
 * The database as an in-memory store: one sequence per table, in row order, and one
 * auto-increment counter per table. Every service call is one atomic step on it.
 */
module Database {
  import opened Wrappers
  import opened Records
  import opened OrderModel

  predicate UniqueUsers(users: seq<User>)
  {
    forall i, j :: 0 <= i < j < |users| ==>
      users[i].id != users[j].id && users[i].username != users[j].username && users[i].email != users[j].email
  }

  predicate UniqueCartIds(cart: seq<CartRow>)
  {
    forall i, j :: 0 <= i < j < |cart| ==> cart[i].id != cart[j].id
  }

  /** At most one cart row per (user, product) pair. */
  predicate OneRowPerUserProduct(cart: seq<CartRow>)
  {
    forall i, j :: 0 <= i < j < |cart| ==>
      cart[i].userId != cart[j].userId || cart[i].productId != cart[j].productId
  }

  predicate UniqueOrderIds(orders: seq<Order>)
  {
    forall i, j :: 0 <= i < j < |orders| ==> orders[i].id != orders[j].id
  }

  /** Product ids are unique and below the counter; stock is never negative. */
  predicate ProductTableOk(products: seq<Product>, nextId: int)
  {
    UniqueProductIds(products) && forall p :: p in products ==> p.stockQuantity >= 0 && p.id < nextId
  }

  predicate UserTableOk(users: seq<User>, nextId: int)
  {
    UniqueUsers(users) && forall u :: u in users ==> u.id < nextId
  }

  /** Cart ids are unique and below the counter, one row per (user, product), quantities positive. */
  predicate CartTableOk(cart: seq<CartRow>, nextId: int)
  {
    UniqueCartIds(cart) && OneRowPerUserProduct(cart) && forall c :: c in cart ==> c.quantity > 0 && c.id < nextId
  }

  predicate OrderTableOk(orders: seq<Order>, nextId: int)
  {
    UniqueOrderIds(orders) && forall o :: o in orders ==> o.id < nextId
  }

  /** The ids of the user rows. */
  function UserIds(users: seq<User>): set<int>
  {
    set u | u in users :: u.id
  }

  /** `cart.user_id` is a foreign key to `users.id`: every cart row belongs to a user row. */
  predicate CartOwnersExist(cart: seq<CartRow>, users: seq<User>)
  {
    forall c :: c in cart ==> c.userId in UserIds(users)
  }

  /** Keeping only some of the cart rows keeps their owners. */
  lemma CartOwnersSubset(fewer: seq<CartRow>, cart: seq<CartRow>, users: seq<User>)
    requires CartOwnersExist(cart, users)
    requires forall c :: c in fewer ==> c in cart
    ensures CartOwnersExist(fewer, users)
  {
  }

  /** A new cart row of an existing user keeps every row owned. */
  lemma CartOwnersAppend(cart: seq<CartRow>, users: seq<User>, row: CartRow)
    requires CartOwnersExist(cart, users) && row.userId in UserIds(users)
    ensures CartOwnersExist(cart + [row], users)
  {
  }

  /** Overwriting a cart row with one of the same user keeps every row owned. */
  lemma CartOwnersReplace(cart: seq<CartRow>, users: seq<User>, k: int, row: CartRow)
    requires CartOwnersExist(cart, users) && 0 <= k < |cart| && row.userId == cart[k].userId
    ensures CartOwnersExist(cart[k := row], users)
  {
    assert cart[k] in cart;
    forall c | c in cart[k := row] ensures c.userId in UserIds(users) {
      var i :| 0 <= i < |cart[k := row]| && cart[k := row][i] == c;
      if i != k { assert cart[i] in cart; }
    }
  }

  /** Replacing a user row by one with the same id keeps the set of ids. */
  lemma UserIdsReplace(users: seq<User>, k: int, user: User)
    requires 0 <= k < |users| && user.id == users[k].id
    ensures UserIds(users[k := user]) == UserIds(users)
  {
    forall id | id in UserIds(users) ensures id in UserIds(users[k := user]) {
      var i :| 0 <= i < |users| && users[i].id == id;
      assert users[k := user][i].id == id;
    }
    forall id | id in UserIds(users[k := user]) ensures id in UserIds(users) {
      var i :| 0 <= i < |users[k := user]| && users[k := user][i].id == id;
      assert users[i].id == id;
    }
  }

  /** Every cart row keeps its owner while no user id goes away. */
  lemma CartOwnersMoreUsers(cart: seq<CartRow>, users: seq<User>, more: seq<User>)
    requires CartOwnersExist(cart, users) && UserIds(users) <= UserIds(more)
    ensures CartOwnersExist(cart, more)
  {
  }

  /** Replacing a product row by one with the same id and non-negative stock keeps the table sound. */
  lemma ProductTableReplace(products: seq<Product>, nextId: int, k: int, q: Product)
    requires ProductTableOk(products, nextId) && 0 <= k < |products|
    requires q.id == products[k].id && q.stockQuantity >= 0
    ensures ProductTableOk(products[k := q], nextId)
  {
    ReplaceSameId(products, k, q);
  }

  /** Removing the row at `k` keeps the product table sound and removes exactly the rows
      carrying its id. */
  lemma ProductTableRemove(products: seq<Product>, nextId: int, k: nat)
    requires ProductTableOk(products, nextId) && k < |products|
    ensures ProductTableOk(RemoveAt(products, k), nextId)
    ensures forall p :: p in RemoveAt(products, k) <==> p in products && p.id != products[k].id
  {
    var r := RemoveAt(products, k);
    RemoveAtMembers(products, k);
    RemoveAtPairwise(products, k, (a: Product, b: Product) => a.id != b.id);
    forall p | p in r ensures p.id != products[k].id {
      var i :| 0 <= i < |r| && r[i] == p;
      var j := if i < k then i else i + 1;
      DistinctIds(products, j, k);
    }
  }

  /** Every order with the items of one product dropped (`ON DELETE CASCADE` on order_items). */
  function WithoutProductItems(orders: seq<Order>, productId: int): (r: seq<Order>)
    ensures |r| == |orders|
    ensures forall k :: 0 <= k < |r| ==>
              r[k] == orders[k].(items := Filter(orders[k].items, (it: OrderItem) => it.productId != productId))
  {
    seq(|orders|, k requires 0 <= k < |orders| =>
      orders[k].(items := Filter(orders[k].items, (it: OrderItem) => it.productId != productId)))
  }

  /** Dropping items changes no order's id, so the order table stays sound. */
  lemma WithoutProductItemsOk(orders: seq<Order>, nextId: int, productId: int)
    requires OrderTableOk(orders, nextId)
    ensures OrderTableOk(WithoutProductItems(orders, productId), nextId)
  {
    var r := WithoutProductItems(orders, productId);
    forall o | o in r ensures o.id < nextId {
      var k :| 0 <= k < |r| && r[k] == o;
      assert orders[k] in orders;
    }
  }

  /** Removing the cart rows that fail a test keeps the cart table sound. */
  lemma CartTableFilter(cart: seq<CartRow>, nextId: int, keep: CartRow -> bool)
    requires CartTableOk(cart, nextId)
    ensures CartTableOk(Filter(cart, keep), nextId)
  {
    FilterPairwise(cart, keep, (a: CartRow, b: CartRow) => a.id != b.id);
    FilterPairwise(cart, keep, (a: CartRow, b: CartRow) => a.userId != b.userId || a.productId != b.productId);
  }

  /** A new row with the counter's id, a positive quantity and a (user, product) pair not yet in
      the cart keeps the cart table sound once the counter moves on. */
  lemma CartTableAppend(cart: seq<CartRow>, nextId: int, row: CartRow)
    requires CartTableOk(cart, nextId)
    requires row.id == nextId && row.quantity > 0
    requires forall c :: c in cart ==> c.userId != row.userId || c.productId != row.productId
    ensures CartTableOk(cart + [row], nextId + 1)
  {
    var r := cart + [row];
    forall i, j | 0 <= i < j < |r|
      ensures r[i].id != r[j].id
      ensures r[i].userId != r[j].userId || r[i].productId != r[j].productId
    {
      if j == |cart| {
        assert r[i] in cart;
      }
    }
  }

  /** Replacing a row by one for the same id, user and product with a positive quantity keeps
      the cart table sound. */
  lemma CartTableReplace(cart: seq<CartRow>, nextId: int, k: int, row: CartRow)
    requires CartTableOk(cart, nextId) && 0 <= k < |cart|
    requires row.id == cart[k].id && row.userId == cart[k].userId && row.productId == cart[k].productId
    requires row.quantity > 0
    ensures CartTableOk(cart[k := row], nextId)
  {
    var r := cart[k := row];
    forall c | c in r ensures c.quantity > 0 && c.id < nextId {
      var i :| 0 <= i < |r| && r[i] == c;
      if i != k { assert cart[i] in cart; } else { assert cart[k] in cart; }
    }
  }

  /** Removing one row keeps the cart table sound. */
  lemma CartTableRemove(cart: seq<CartRow>, nextId: int, k: nat)
    requires CartTableOk(cart, nextId) && k < |cart|
    ensures CartTableOk(RemoveAt(cart, k), nextId)
  {
    RemoveAtMembers(cart, k);
    RemoveAtPairwise(cart, k, (a: CartRow, b: CartRow) => a.id != b.id);
    RemoveAtPairwise(cart, k, (a: CartRow, b: CartRow) => a.userId != b.userId || a.productId != b.productId);
  }

  /** A new user with the counter's id and a username and email no row has keeps the user table
      sound once the counter moves on. */
  lemma UserTableAppend(users: seq<User>, nextId: int, u: User)
    requires UserTableOk(users, nextId) && u.id == nextId
    requires forall v :: v in users ==> v.username != u.username && v.email != u.email
    ensures UserTableOk(users + [u], nextId + 1)
  {
    var r := users + [u];
    forall i, j | 0 <= i < j < |r|
      ensures r[i].id != r[j].id && r[i].username != r[j].username && r[i].email != r[j].email
    {
      if j == |users| {
        assert r[i] in users;
      }
    }
  }

  /** Replacing a user row by one with the same id, username and email keeps the table sound. */
  lemma UserTableReplace(users: seq<User>, nextId: int, k: int, u: User)
    requires UserTableOk(users, nextId) && 0 <= k < |users|
    requires u.id == users[k].id && u.username == users[k].username && u.email == users[k].email
    ensures UserTableOk(users[k := u], nextId)
  {
    var r := users[k := u];
    forall v | v in r ensures v.id < nextId {
      var i :| 0 <= i < |r| && r[i] == v;
      if i != k { assert users[i] in users; } else { assert users[k] in users; }
    }
  }

  /** Removing one user row keeps the table sound. */
  lemma UserTableRemove(users: seq<User>, nextId: int, k: nat)
    requires UserTableOk(users, nextId) && k < |users|
    ensures UserTableOk(RemoveAt(users, k), nextId)
  {
    RemoveAtMembers(users, k);
    RemoveAtPairwise(users, k, (a: User, b: User) =>
      a.id != b.id && a.username != b.username && a.email != b.email);
  }

  /** With unique ids, removing the row at `k` removes exactly the rows carrying its id. */
  lemma RemoveUserRow(users: seq<User>, k: nat)
    requires UniqueUsers(users) && k < |users|
    ensures forall u :: u in RemoveAt(users, k) <==> u in users && u.id != users[k].id
  {
    RemoveAtMembers(users, k);
    var r := RemoveAt(users, k);
    forall u | u in r ensures u.id != users[k].id {
      var i :| 0 <= i < |r| && r[i] == u;
      if i < k {
        assert users[i] == u;
      } else {
        assert users[i + 1] == u;
      }
    }
  }

  /** Removing the orders that fail a test keeps the order table sound. */
  lemma OrderTableFilter(orders: seq<Order>, nextId: int, keep: Order -> bool)
    requires OrderTableOk(orders, nextId)
    ensures OrderTableOk(Filter(orders, keep), nextId)
  {
    FilterPairwise(orders, keep, (a: Order, b: Order) => a.id != b.id);
  }

  /** The cart without the rows of one user: what `clear_cart` leaves, and what the
      `delete-orphan` cascade of a user's deletion leaves. */
  function CartWithoutUser(cart: seq<CartRow>, userId: int): seq<CartRow>
  {
    Filter(cart, (c: CartRow) => c.userId != userId)
  }

  /** Deleting a user together with its cart rows leaves every remaining cart row owned. */
  lemma CartOwnersRemoveUser(cart: seq<CartRow>, users: seq<User>, k: nat)
    requires CartOwnersExist(cart, users) && UniqueUsers(users) && k < |users|
    ensures CartOwnersExist(CartWithoutUser(cart, users[k].id), RemoveAt(users, k))
  {
    var id := users[k].id;
    var rest := RemoveAt(users, k);
    RemoveUserRow(users, k);
    forall c | c in CartWithoutUser(cart, id) ensures c.userId in UserIds(rest) {
      var u :| u in users && u.id == c.userId;
      assert u in rest;
    }
  }

  /** The cart without the rows of one product (`ON DELETE CASCADE` on the product). */
  function CartWithoutProduct(cart: seq<CartRow>, productId: int): seq<CartRow>
  {
    Filter(cart, (c: CartRow) => c.productId != productId)
  }

  /** The orders without those of one user (the `delete-orphan` cascade of a user's deletion). */
  function OrdersWithoutUser(orders: seq<Order>, userId: int): seq<Order>
  {
    Filter(orders, (o: Order) => o.userId != userId)
  }

  /** Dropping a user's cart rows keeps the cart table sound and drops exactly those rows. */
  lemma CartWithoutUserOk(cart: seq<CartRow>, nextId: int, userId: int)
    requires CartTableOk(cart, nextId)
    ensures CartTableOk(CartWithoutUser(cart, userId), nextId)
    ensures forall c :: c in CartWithoutUser(cart, userId) <==> c in cart && c.userId != userId
  {
    CartTableFilter(cart, nextId, (c: CartRow) => c.userId != userId);
  }

  /** Dropping a product's cart rows keeps the cart table sound. */
  lemma CartWithoutProductOk(cart: seq<CartRow>, nextId: int, productId: int)
    requires CartTableOk(cart, nextId)
    ensures CartTableOk(CartWithoutProduct(cart, productId), nextId)
  {
    CartTableFilter(cart, nextId, (c: CartRow) => c.productId != productId);
  }

  /** Dropping a user's orders keeps the order table sound. */
  lemma OrdersWithoutUserOk(orders: seq<Order>, nextId: int, userId: int)
    requires OrderTableOk(orders, nextId)
    ensures OrderTableOk(OrdersWithoutUser(orders, userId), nextId)
  {
    OrderTableFilter(orders, nextId, (o: Order) => o.userId != userId);
  }

  /** A new order with the counter's id keeps the order table sound once the counter moves on. */
  lemma OrderTableAppend(orders: seq<Order>, nextId: int, o: Order)
    requires OrderTableOk(orders, nextId) && o.id == nextId
    ensures OrderTableOk(orders + [o], nextId + 1)
  {
    var r := orders + [o];
    forall i, j | 0 <= i < j < |r| ensures r[i].id != r[j].id {
      if j == |orders| {
        assert r[i] in orders;
      }
    }
  }

  class Db {
    var products: seq<Product>
    var users: seq<User>
    var cart: seq<CartRow>
    var orders: seq<Order>
    var nextProductId: int
    var nextUserId: int
    var nextCartId: int
    var nextOrderId: int
    var nextOrderItemId: int

    /** The integrity the services keep: unique keys, non-negative stock, positive cart
        quantities, one cart row per (user, product), every cart row owned by a user row, and
        counters above every id in use. */
    ghost predicate Valid()
      reads this
    {
      && ProductTableOk(products, nextProductId)
      && UserTableOk(users, nextUserId)
      && CartTableOk(cart, nextCartId)
      && OrderTableOk(orders, nextOrderId)
      && CartOwnersExist(cart, users)
    }

    /** Deletes user row `k` with its cart rows and orders (the `delete-orphan` cascade). */
    method RemoveUserRows(k: nat)
      requires Valid() && k < |users|
      modifies this
      ensures Valid()
      ensures users == RemoveAt(old(users), k)
      ensures cart == CartWithoutUser(old(cart), old(users)[k].id)
      ensures orders == OrdersWithoutUser(old(orders), old(users)[k].id)
      ensures products == old(products)
      ensures nextProductId == old(nextProductId) && nextUserId == old(nextUserId) && nextCartId == old(nextCartId)
      ensures nextOrderId == old(nextOrderId) && nextOrderItemId == old(nextOrderItemId)
    {
      var id := users[k].id;
      UserTableRemove(users, nextUserId, k);
      CartWithoutUserOk(cart, nextCartId, id);
      CartOwnersRemoveUser(cart, users, k);
      OrdersWithoutUserOk(orders, nextOrderId, id);
      users, cart, orders := RemoveAt(users, k), CartWithoutUser(cart, id), OrdersWithoutUser(orders, id);
    }

    /** Overwrites cart row `k` with a row of the same id, user and product. */
    method ReplaceCartRow(k: nat, row: CartRow)
      requires Valid() && k < |cart|
      requires row.id == cart[k].id && row.userId == cart[k].userId && row.productId == cart[k].productId
      requires row.quantity > 0
      modifies this
      ensures Valid()
      ensures cart == old(cart)[k := row]
      ensures products == old(products) && users == old(users) && orders == old(orders)
      ensures nextProductId == old(nextProductId) && nextUserId == old(nextUserId) && nextCartId == old(nextCartId)
      ensures nextOrderId == old(nextOrderId) && nextOrderItemId == old(nextOrderItemId)
    {
      CartTableReplace(cart, nextCartId, k, row);
      CartOwnersReplace(cart, users, k, row);
      cart := cart[k := row];
    }

    /** Inserts a cart row with the next id, for an existing user and a (user, product) pair not
        in the cart yet. */
    method AppendCartRow(row: CartRow)
      requires Valid() && row.id == nextCartId && row.quantity > 0 && row.userId in UserIds(users)
      requires forall c :: c in cart ==> c.userId != row.userId || c.productId != row.productId
      modifies this
      ensures Valid()
      ensures cart == old(cart) + [row] && nextCartId == old(nextCartId) + 1
      ensures products == old(products) && users == old(users) && orders == old(orders)
      ensures nextProductId == old(nextProductId) && nextUserId == old(nextUserId)
      ensures nextOrderId == old(nextOrderId) && nextOrderItemId == old(nextOrderItemId)
    {
      CartTableAppend(cart, nextCartId, row);
      CartOwnersAppend(cart, users, row);
      cart, nextCartId := cart + [row], nextCartId + 1;
    }

    /** An empty database; every auto-increment counter starts at 1. */
    constructor ()
      ensures Valid()
      ensures products == [] && users == [] && cart == [] && orders == []
      ensures nextProductId == 1 && nextUserId == 1 && nextCartId == 1 && nextOrderId == 1 && nextOrderItemId == 1
    {
      products, users, cart, orders := [], [], [], [];
      nextProductId, nextUserId, nextCartId, nextOrderId, nextOrderItemId := 1, 1, 1, 1, 1;
    }
  }
}
