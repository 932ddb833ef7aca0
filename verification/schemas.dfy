/**
 * The request schemas of backend/schemas.py as records with validity predicates. A schema
 * instance the API hands to a service has passed its predicate; a field with a default gets
 * it when the request body leaves the field out. Prices are integer cents.
 */
module Schemas {
  import opened Wrappers

  // ------------------------------------------------------------------ products

  datatype ProductBase = ProductBase(
    name: string,
    description: Option<string>,
    priceCents: int,
    category: string,
    stockQuantity: int,
    imageUrl: Option<string>)

  /** name 1..200 characters, price > 0, category 1..100 characters, stock >= 0. */
  predicate ValidProductBase(p: ProductBase)
  {
    && 1 <= |p.name| <= 200
    && p.priceCents > 0
    && 1 <= |p.category| <= 100
    && p.stockQuantity >= 0
  }

  /** A field of a partial update: left out of the body (`Keep`) or supplied. */
  datatype Patch<T> = Keep | Put(value: T)

  /** The value a field has after the patch: the supplied one, or the current one. */
  function Take<T>(patch: Patch<T>, current: T): T
  {
    if patch.Put? then patch.value else current
  }

  /** Every field is `Optional`, so a body may also send an explicit null; the bounds apply
      only to a supplied value. A null price or stock is modelled (`Put(None)`); a null name or
      category is not. */
  datatype ProductUpdate = ProductUpdate(
    name: Patch<string>,
    description: Patch<Option<string>>,
    priceCents: Patch<Option<int>>,
    category: Patch<string>,
    stockQuantity: Patch<Option<int>>,
    imageUrl: Patch<Option<string>>)

  /** A nullable field's patch as a patch of its value: a supplied null counts as left out. */
  function Known<T>(patch: Patch<Option<T>>): Patch<T>
  {
    if patch.Put? && patch.value.Some? then Put(patch.value.value) else Keep
  }

  /** A supplied field obeys the bounds of ProductBase; a null passes. */
  predicate ValidProductUpdate(u: ProductUpdate)
  {
    && (u.name.Put? ==> 1 <= |u.name.value| <= 200)
    && (Known(u.priceCents).Put? ==> Known(u.priceCents).value > 0)
    && (u.category.Put? ==> 1 <= |u.category.value| <= 100)
    && (Known(u.stockQuantity).Put? ==> Known(u.stockQuantity).value >= 0)
  }

  /** The update that supplies every field of `p`. */
  function FullUpdate(p: ProductBase): (u: ProductUpdate)
    ensures u.name.Put? && u.priceCents.Put? && u.category.Put? && u.stockQuantity.Put?
  {
    ProductUpdate(Put(p.name), Put(p.description), Put(Some(p.priceCents)), Put(p.category),
                  Put(Some(p.stockQuantity)), Put(p.imageUrl))
  }

  /** ProductUpdate bounds each field exactly as ProductBase does, and the empty update is valid. */
  lemma UpdateBoundsMatchBase(p: ProductBase)
    ensures ValidProductBase(p) <==> ValidProductUpdate(FullUpdate(p))
    ensures ValidProductUpdate(ProductUpdate(Keep, Keep, Keep, Keep, Keep, Keep))
  {
  }

  // ------------------------------------------------------------------ users

  datatype UserCreate = UserCreate(
    username: string,
    email: string,
    fullName: Option<string>,
    phone: Option<string>,
    address: Option<string>,
    password: string)

  /** UserBase: username of 3..100 characters (the EmailStr check is not modelled). */
  predicate ValidUserBase(u: UserCreate)
  {
    3 <= |u.username| <= 100
  }

  /** UserCreate adds a password of at least 6 characters. */
  predicate ValidUserCreate(u: UserCreate)
  {
    ValidUserBase(u) && |u.password| >= 6
  }

  /** The login form's body; neither field is bounded. */
  datatype UserLogin = UserLogin(username: string, password: string)

  /** The profile fields a user may change; each is optional and may be set to null. */
  datatype UserUpdate = UserUpdate(
    fullName: Patch<Option<string>>,
    phone: Patch<Option<string>>,
    address: Patch<Option<string>>)

  datatype Token = Token(accessToken: string, tokenType: string)

  const DefaultTokenType := "bearer"

  /** `Token(access_token=...)` with the default token type. */
  function NewToken(accessToken: string): (t: Token)
    ensures t.accessToken == accessToken && t.tokenType == "bearer"
  {
    Token(accessToken, DefaultTokenType)
  }

  // ------------------------------------------------------------------ cart

  datatype CartItemCreate = CartItemCreate(productId: int, quantity: int)

  const DefaultCartQuantity := 1

  /** product_id > 0 and quantity > 0. */
  predicate ValidCartItemCreate(c: CartItemCreate)
  {
    c.productId > 0 && c.quantity > 0
  }

  /** The instance built from a request body, whose `quantity` may be left out. */
  function CartItemCreateFromBody(productId: int, quantity: Option<int>): (c: CartItemCreate)
    ensures c.productId == productId
    ensures quantity.None? ==> c.quantity == 1
    ensures quantity.Some? ==> c.quantity == quantity.value
  {
    CartItemCreate(productId, if quantity.Some? then quantity.value else DefaultCartQuantity)
  }

  /** Leaving the quantity out always gives a valid quantity. */
  lemma DefaultQuantityValid(productId: int)
    ensures ValidCartItemCreate(CartItemCreateFromBody(productId, None)) <==> productId > 0
  {
  }

  datatype CartItemUpdate = CartItemUpdate(quantity: int)

  /** quantity > 0: the server never receives an update to zero. */
  predicate ValidCartItemUpdate(u: CartItemUpdate)
  {
    u.quantity > 0
  }

  // ------------------------------------------------------------------ orders

  datatype OrderCreate = OrderCreate(shippingAddress: string, paymentMethod: Option<string>)

  const DefaultPaymentMethod := "cash_on_delivery"

  /** shipping address of 10..500 characters, payment method (if any) of at most 50. */
  predicate ValidOrderCreate(o: OrderCreate)
  {
    && 10 <= |o.shippingAddress| <= 500
    && (o.paymentMethod.Some? ==> |o.paymentMethod.value| <= 50)
  }

  /** The instance built from a request body whose `payment_method` is left out. */
  function OrderCreateWithDefaults(shippingAddress: string): (o: OrderCreate)
    ensures o.shippingAddress == shippingAddress
    ensures o.paymentMethod == Some("cash_on_delivery")
  {
    OrderCreate(shippingAddress, Some(DefaultPaymentMethod))
  }

  /** The default payment method fits its own bound, so only the address decides validity. */
  lemma DefaultOrderValid(shippingAddress: string)
    ensures ValidOrderCreate(OrderCreateWithDefaults(shippingAddress)) <==> 10 <= |shippingAddress| <= 500
  {
  }
}
