/**
 * The display decisions of frontend/scripts/app.js that do not touch the network: the stock
 * badge of a product card, the colour of an order's status pill, and whether the cart page
 * shows its contents or the empty-cart notice. The HTML they are written into is left out.
 */
module FrontendDisplay {
  import opened Wrappers
  import opened Strings
  import opened Records
  import opened OrderModel
  import opened ProductService

  /** What a product card shows about stock: the badge's CSS class, its text, and whether
      the "Add to Cart" button is disabled. */
  datatype StockBadge = StockBadge(cssClass: string, text: string, buttonDisabled: bool)

  /** The badge of `displayProducts`. The comparisons are the script's own: `=== 0` for sold
      out and `< 10` for low, so a negative stock would read as low. */
  function StockBadgeOf(stock: int): (b: StockBadge)
    ensures b.cssClass == "stock-out" <==> stock == 0
    ensures b.cssClass == "stock-low" <==> stock != 0 && stock < 10
    ensures b.cssClass == "" <==> stock >= 10
    ensures b.buttonDisabled <==> stock == 0
    ensures stock == 0 ==> b.text == "Out of Stock"
    ensures stock != 0 ==> b.text == IntToString(stock) + " in stock"
  {
    StockBadge(if stock == 0 then "stock-out" else if stock < 10 then "stock-low" else "",
               if stock == 0 then "Out of Stock" else IntToString(stock) + " in stock",
               stock == 0)
  }

  /** For a product of the table (whose stock is never negative) the button is enabled
      exactly when the server's stock check for the default quantity of one passes, and
      the number on an in-stock badge reads back as the stock. */
  lemma BadgeAgreesWithStockCheck(products: seq<Product>, p: Product)
    requires p in products && UniqueProductIds(products) && p.stockQuantity >= 0
    ensures CheckStockAvailability(products, p.id, 1) == Ok(!StockBadgeOf(p.stockQuantity).buttonDisabled)
    ensures p.stockQuantity > 0 ==>
              ParseInt(StockBadgeOf(p.stockQuantity).text[..|StockBadgeOf(p.stockQuantity).text| - 9])
              == Some(p.stockQuantity)
  {
    var k :| 0 <= k < |products| && products[k] == p;
    ProductWithIdAt(products, k);
    if p.stockQuantity > 0 {
      var text := StockBadgeOf(p.stockQuantity).text;
      assert text[..|text| - 9] == IntToString(p.stockQuantity);
      ParseIntOfIntToString(p.stockQuantity);
    }
  }

  const FallbackColor := "#6b7280"

  /** `getStatusColor`: the fixed colour of each order status, grey for anything else. */
  function StatusColor(status: string): (c: string)
    ensures c == FallbackColor <==> ParseStatus(status).None?
  {
    if status == "pending" then "#f59e0b"
    else if status == "confirmed" then "#3b82f6"
    else if status == "processing" then "#8b5cf6"
    else if status == "shipped" then "#06b6d4"
    else if status == "delivered" then "#10b981"
    else if status == "cancelled" then "#ef4444"
    else FallbackColor
  }

  /** The colour table covers exactly the server's status values: each of them gets its own
      colour, distinct from every other status's and from the fallback, and every other string
      gets the fallback. */
  lemma StatusColorsMatchStatuses(s: OrderStatus, t: OrderStatus, v: string)
    ensures StatusColor(StatusValue(s)) != FallbackColor
    ensures s != t ==> StatusColor(StatusValue(s)) != StatusColor(StatusValue(t))
    ensures StatusColor(v) != FallbackColor <==> ParseStatus(v).Some?
  {
  }

  /** Which of the two panels `displayCart` shows. */
  datatype CartView = EmptyCartNotice | CartContents(itemCount: nat)

  /** `displayCart`: a missing or empty item list shows the empty-cart notice. */
  function CartViewOf(items: Option<seq<CartRow>>): (v: CartView)
    ensures v.EmptyCartNotice? <==> items.None? || |items.value| == 0
    ensures v.CartContents? ==> v.itemCount == |items.value|
  {
    if items.None? || |items.value| == 0 then EmptyCartNotice else CartContents(|items.value|)
  }
}
