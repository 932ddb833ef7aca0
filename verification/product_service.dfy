/**
 * ProductService (backend/services/product_service.py): listing with filters and paging,
 * lookup, create, partial update, delete, categories, and the stock check and reduction
 * that checkout relies on.
 */
module ProductService {
  import opened Wrappers
  import opened Strings
  import opened Exceptions
  import opened Validators
  import opened Schemas
  import opened Records
  import opened Database

  // ------------------------------------------------------------------ LIKE patterns

  /** SQL `s LIKE p`: '%' matches any run of characters, '_' exactly one, every other
      character itself. */
  function Like(s: string, p: string): bool
    decreases |s| + |p|
  {
    if |p| == 0 then |s| == 0
    else if p[0] == '%' then Like(s, p[1..]) || (|s| > 0 && Like(s[1..], p))
    else |s| > 0 && (p[0] == '_' || s[0] == p[0]) && Like(s[1..], p[1..])
  }

  predicate NoWildcards(w: string)
  {
    '%' !in w && '_' !in w
  }

  /** A pattern without wildcards matches exactly the string it spells. */
  lemma {:induction false} LikeLiteral(s: string, w: string)
    requires NoWildcards(w)
    ensures Like(s, w) <==> s == w
    decreases |w|
  {
    if |w| > 0 {
      assert w[0] in w;
      assert NoWildcards(w[1..]) by {
        assert forall c :: c in w[1..] ==> c in w;
      }
      if |s| > 0 {
        LikeLiteral(s[1..], w[1..]);
        assert s == w <==> s[0] == w[0] && s[1..] == w[1..] by {
          if s[0] == w[0] && s[1..] == w[1..] {
            assert s == [s[0]] + s[1..] && w == [w[0]] + w[1..];
          }
        }
      }
    }
  }

  /** SQLAlchemy's `ilike` on MySQL: `lower(s) LIKE lower(p)`. */
  predicate ILike(s: string, p: string)
  {
    Like(Lower(s), Lower(p))
  }

  lemma {:induction false} LikeAnything(s: string)
    ensures Like(s, "%")
    decreases |s|
  {
    if |s| > 0 { LikeAnything(s[1..]); }
  }

  /** A literal followed by '%' matches exactly the strings that start with the literal. */
  lemma {:induction false} LikeLiteralThenAny(s: string, w: string)
    requires NoWildcards(w)
    ensures Like(s, w + "%") <==> |w| <= |s| && s[..|w|] == w
    decreases |w|
  {
    if |w| == 0 {
      assert w + "%" == "%";
      LikeAnything(s);
    } else {
      var p := w + "%";
      assert p[0] == w[0] && p[1..] == w[1..] + "%";
      assert NoWildcards(w[1..]);
      if |s| > 0 {
        LikeLiteralThenAny(s[1..], w[1..]);
        if |w| <= |s| && s[..|w|] == w {
          assert s[1..][..|w| - 1] == w[1..];
        }
        if s[0] == w[0] && |w| - 1 <= |s| - 1 && s[1..][..|w| - 1] == w[1..] {
          assert s[..|w|] == [s[0]] + s[1..][..|w| - 1];
          assert w == [w[0]] + w[1..];
        }
      }
    }
  }

  /** A leading '%' lets the rest of the pattern match any suffix. */
  lemma {:induction false} LikeAnyThen(s: string, q: string)
    ensures Like(s, "%" + q) <==> exists i :: 0 <= i <= |s| && Like(s[i..], q)
    decreases |s|
  {
    var p := "%" + q;
    assert p[0] == '%' && p[1..] == q;
    if |s| == 0 {
      assert s[0..] == s;
    } else {
      LikeAnyThen(s[1..], q);
      if Like(s[1..], p) {
        var i :| 0 <= i <= |s[1..]| && Like(s[1..][i..], q);
        assert s[1..][i..] == s[i + 1..];
      }
      if exists i :: 0 <= i <= |s| && Like(s[i..], q) {
        var i :| 0 <= i <= |s| && Like(s[i..], q);
        if i == 0 {
          assert s[0..] == s;
        } else {
          assert s[1..][i - 1..] == s[i..];
        }
      }
      assert s[0..] == s;
    }
  }

  /** For a search text free of wildcards, `%text%` matches exactly the strings containing it. */
  lemma LikeInfix(s: string, w: string)
    requires NoWildcards(w)
    ensures Like(s, "%" + w + "%") <==> Contains(s, w)
  {
    assert "%" + w + "%" == "%" + (w + "%");
    LikeAnyThen(s, w + "%");
    if Contains(s, w) {
      var i :| 0 <= i <= |s| - |w| && OccursAt(s, w, i);
      assert s[i..][..|w|] == s[i..i + |w|] == w;
      LikeLiteralThenAny(s[i..], w);
    }
    if exists i :: 0 <= i <= |s| && Like(s[i..], w + "%") {
      var i :| 0 <= i <= |s| && Like(s[i..], w + "%");
      LikeLiteralThenAny(s[i..], w);
      assert s[i..i + |w|] == s[i..][..|w|];
      assert OccursAt(s, w, i);
    }
  }

  // ------------------------------------------------------------------ get_all_products

  /** Python truthiness of an optional string: present and non-empty. */
  predicate Given(o: Option<string>)
  {
    o.Some? && o.value != ""
  }

  /** `name ILIKE %search% OR description ILIKE %search%`; a NULL description never matches. */
  predicate MatchesSearch(p: Product, search: string)
  {
    ILike(p.name, "%" + search + "%")
    || (p.description.Some? && ILike(p.description.value, "%" + search + "%"))
  }

  predicate Selected(p: Product, category: Option<string>, search: Option<string>)
  {
    && (Given(category) ==> p.category == category.value)
    && (Given(search) ==> MatchesSearch(p, search.value))
  }

  /** The rows passing the category and search filters, in table order, each as often as in the table. */
  function SelectedProducts(products: seq<Product>, category: Option<string>, search: Option<string>)
    : (r: seq<Product>)
    ensures forall p :: p in r <==> p in products && Selected(p, category, search)
    ensures forall p :: multiset(r)[p] == if Selected(p, category, search) then multiset(products)[p] else 0
  {
    var selected := (p: Product) => Selected(p, category, search);
    FilterCounts(products, selected);
    Filter(products, selected)
  }

  /** `get_all_products`: the filtered rows after `skip` of them, at most `limit`. */
  function GetAllProducts(products: seq<Product>, skip: nat := 0, limit: nat := 100,
                          category: Option<string> := None, search: Option<string> := None): (r: seq<Product>)
    ensures var passing := SelectedProducts(products, category, search);
            && |r| == PageLength(|passing|, skip, limit)
            && forall k :: 0 <= k < |r| ==> r[k] == passing[skip + k]
    ensures |r| <= limit
    ensures forall p :: p in r ==> p in products && Selected(p, category, search)
    ensures skip == 0 && |SelectedProducts(products, category, search)| <= limit ==>
              forall p :: p in products && Selected(p, category, search) ==> p in r
  {
    Window(SelectedProducts(products, category, search), skip, limit)
  }

  /** Lower-casing changes letters only, so it keeps a text free of wildcards. */
  lemma LowerKeepsWildcards(w: string)
    ensures Lower("%" + w + "%") == "%" + Lower(w) + "%"
    ensures NoWildcards(w) ==> NoWildcards(Lower(w))
  {
    var l := Lower(w);
    if '%' in l {
      var k :| 0 <= k < |l| && l[k] == '%';
      assert LowerChar(w[k]) == '%';
    }
    if '_' in l {
      var k :| 0 <= k < |l| && l[k] == '_';
      assert LowerChar(w[k]) == '_';
    }
  }

  /** The search filter, for a text without '%' or '_', keeps exactly the products whose name or
      description contains the text, ignoring the case of ASCII letters. */
  lemma SearchIsCaseInsensitiveSubstring(p: Product, search: string)
    requires NoWildcards(search)
    ensures MatchesSearch(p, search) <==>
              Contains(Lower(p.name), Lower(search))
              || (p.description.Some? && Contains(Lower(p.description.value), Lower(search)))
  {
    LowerKeepsWildcards(search);
    LikeInfix(Lower(p.name), Lower(search));
    if p.description.Some? {
      LikeInfix(Lower(p.description.value), Lower(search));
    }
  }

  /** A search text holding '_' is a wildcard: "a_c" finds a product named "abc". */
  lemma UnderscoreIsWildcard()
    ensures MatchesSearch(Product(1, "abc", None, 100, "x", 1, None), "a_c")
  {
    assert Lower("abc") == "abc";
    assert "%" + "a_c" + "%" == "%a_c%";
    assert Lower("%a_c%") == "%a_c%";
    assert Like("", "%");
    assert Like("c", "c%") by { assert "c"[1..] == "" && "c%"[1..] == "%"; }
    assert Like("bc", "_c%") by { assert "bc"[1..] == "c" && "_c%"[1..] == "c%"; }
    assert Like("abc", "a_c%") by { assert "abc"[1..] == "bc" && "a_c%"[1..] == "_c%"; }
    assert Like("abc", "%a_c%") by { assert "%a_c%"[1..] == "a_c%"; }
  }

  // ------------------------------------------------------------------ lookups

  function ProductNotFound(id: int): AppException
  {
    NotFoundException("Product with ID " + IntToString(id) + " not found")
  }

  function GetProductById(products: seq<Product>, id: int): (r: Result<Product, AppException>)
    ensures r.Ok? <==> exists p :: p in products && p.id == id
    ensures r.Ok? ==> r.value in products && r.value.id == id
    ensures r.Err? ==> r.error == ProductNotFound(id) && StatusCode(r.error) == 404
  {
    match ProductWithId(products, id)
    case None => Err(ProductNotFound(id))
    case Some(p) => Ok(p)
  }

  /** Every category in the table, each once, in order of first appearance. */
  function GetCategories(products: seq<Product>): (r: seq<string>)
    ensures forall c :: c in r <==> exists p :: p in products && p.category == c
    ensures forall i, j :: 0 <= i < j < |r| ==> r[i] != r[j]
  {
    if |products| == 0 then []
    else
      var front := GetCategories(products[..|products| - 1]);
      var last := products[|products| - 1];
      assert forall p :: p in products ==> p in products[..|products| - 1] || p == last;
      if last.category in front then front else front + [last.category]
  }

  /** `stock_quantity >= quantity`, or NotFound for an unknown product. */
  function CheckStockAvailability(products: seq<Product>, id: int, quantity: int): (r: Result<bool, AppException>)
    ensures r.Err? <==> forall p :: p in products ==> p.id != id
    ensures r.Err? ==> r.error == ProductNotFound(id)
    ensures r.Ok? ==> exists p :: p in products && p.id == id && (r.value <==> p.stockQuantity >= quantity)
  {
    match GetProductById(products, id)
    case Err(e) => Err(e)
    case Ok(p) => Ok(p.stockQuantity >= quantity)
  }

  function StockShortError(p: Product): AppException
  {
    BadRequestException("Insufficient stock for " + p.name + ". Available: " + IntToString(p.stockQuantity))
  }

  // ------------------------------------------------------------------ partial update

  /** One `setattr(product, field, value)`. */
  datatype ProductField =
    | SetName(name: string)
    | SetDescription(description: Option<string>)
    | SetPrice(priceCents: int)
    | SetCategory(category: string)
    | SetStock(stockQuantity: int)
    | SetImageUrl(imageUrl: Option<string>)

  function SetAttr(p: Product, f: ProductField): Product
  {
    match f
    case SetName(v) => p.(name := v)
    case SetDescription(v) => p.(description := v)
    case SetPrice(v) => p.(priceCents := v)
    case SetCategory(v) => p.(category := v)
    case SetStock(v) => p.(stockQuantity := v)
    case SetImageUrl(v) => p.(imageUrl := v)
  }

  /** `model_dump(exclude_unset=True)`: the supplied fields, in declaration order. A null price
      or stock never reaches the `setattr` loop, since the checks before it refuse both, so only
      a supplied number is listed for them. */
  function DumpSet(u: ProductUpdate): seq<ProductField>
  {
    DumpHead(u) + DumpTail(u)
  }

  /** The supplied ones among name, description and price. */
  function DumpHead(u: ProductUpdate): seq<ProductField>
  {
    (if u.name.Put? then [SetName(u.name.value)] else [])
    + (if u.description.Put? then [SetDescription(u.description.value)] else [])
    + (if Known(u.priceCents).Put? then [SetPrice(Known(u.priceCents).value)] else [])
  }

  /** The supplied ones among category, stock and image URL. */
  function DumpTail(u: ProductUpdate): seq<ProductField>
  {
    (if u.category.Put? then [SetCategory(u.category.value)] else [])
    + (if Known(u.stockQuantity).Put? then [SetStock(Known(u.stockQuantity).value)] else [])
    + (if u.imageUrl.Put? then [SetImageUrl(u.imageUrl.value)] else [])
  }

  /** The `setattr` loop run over a list of fields. */
  function SetAll(p: Product, fs: seq<ProductField>): Product
  {
    if |fs| == 0 then p else SetAttr(SetAll(p, fs[..|fs| - 1]), fs[|fs| - 1])
  }

  /** The reference meaning of a partial update: supplied fields replaced, all others kept. */
  function ApplyProductUpdate(p: Product, u: ProductUpdate): Product
  {
    Product(p.id, Take(u.name, p.name), Take(u.description, p.description), Take(Known(u.priceCents), p.priceCents),
            Take(u.category, p.category), Take(Known(u.stockQuantity), p.stockQuantity), Take(u.imageUrl, p.imageUrl))
  }

  lemma {:induction false} SetAllAppend(p: Product, a: seq<ProductField>, b: seq<ProductField>)
    ensures SetAll(p, a + b) == SetAll(SetAll(p, a), b)
    decreases |b|
  {
    if |b| == 0 {
      assert a + b == a;
    } else {
      assert (a + b)[..|a + b| - 1] == a + b[..|b| - 1];
      SetAllAppend(p, a, b[..|b| - 1]);
    }
  }

  lemma SetAllOne(p: Product, fs: seq<ProductField>)
    requires |fs| <= 1
    ensures SetAll(p, fs) == if |fs| == 0 then p else SetAttr(p, fs[0])
  {
    if |fs| == 1 {
      assert fs[..0] == [];
    }
  }

  /** The loop over the supplied name, description and price sets exactly those. */
  lemma SetAllHead(p: Product, u: ProductUpdate)
    ensures SetAll(p, DumpHead(u))
            == p.(name := Take(u.name, p.name), description := Take(u.description, p.description),
                  priceCents := Take(Known(u.priceCents), p.priceCents))
  {
    var n := if u.name.Put? then [SetName(u.name.value)] else [];
    var d := if u.description.Put? then [SetDescription(u.description.value)] else [];
    var c := if Known(u.priceCents).Put? then [SetPrice(Known(u.priceCents).value)] else [];
    var p1 := p.(name := Take(u.name, p.name));
    assert SetAll(p, n) == p1 by { SetAllOne(p, n); }
    var p2 := p1.(description := Take(u.description, p.description));
    assert SetAll(p, n + d) == p2 by { SetAllAppend(p, n, d); SetAllOne(p1, d); }
    assert SetAll(p, n + d + c) == p2.(priceCents := Take(Known(u.priceCents), p.priceCents)) by {
      SetAllAppend(p, n + d, c);
      SetAllOne(p2, c);
    }
  }

  /** The loop over the supplied category, stock and image URL sets exactly those. */
  lemma SetAllTail(p: Product, u: ProductUpdate)
    ensures SetAll(p, DumpTail(u))
            == p.(category := Take(u.category, p.category), stockQuantity := Take(Known(u.stockQuantity), p.stockQuantity),
                  imageUrl := Take(u.imageUrl, p.imageUrl))
  {
    var g := if u.category.Put? then [SetCategory(u.category.value)] else [];
    var s := if Known(u.stockQuantity).Put? then [SetStock(Known(u.stockQuantity).value)] else [];
    var i := if u.imageUrl.Put? then [SetImageUrl(u.imageUrl.value)] else [];
    var p1 := p.(category := Take(u.category, p.category));
    assert SetAll(p, g) == p1 by { SetAllOne(p, g); }
    var p2 := p1.(stockQuantity := Take(Known(u.stockQuantity), p.stockQuantity));
    assert SetAll(p, g + s) == p2 by { SetAllAppend(p, g, s); SetAllOne(p1, s); }
    assert SetAll(p, g + s + i) == p2.(imageUrl := Take(u.imageUrl, p.imageUrl)) by {
      SetAllAppend(p, g + s, i);
      SetAllOne(p2, i);
    }
  }

  /** Running the `setattr` loop over the dumped fields is the reference update: it changes
      exactly the supplied fields and never the id. */
  lemma SetAllIsUpdate(p: Product, u: ProductUpdate)
    ensures SetAll(p, DumpSet(u)) == ApplyProductUpdate(p, u)
  {
    SetAllAppend(p, DumpHead(u), DumpTail(u));
    SetAllHead(p, u);
    SetAllTail(SetAll(p, DumpHead(u)), u);
  }

  /** The `setattr` loop of `update_product`. */
  method SetFields(p: Product, fields: seq<ProductField>) returns (q: Product)
    ensures q == SetAll(p, fields)
    ensures q.id == p.id
  {
    q := p;
    for i := 0 to |fields|
      invariant q == SetAll(p, fields[..i])
      invariant q.id == p.id
    {
      assert fields[..i + 1][..i] == fields[..i];
      q := SetAttr(q, fields[i]);
    }
    assert fields[..|fields|] == fields;
  }

  // ------------------------------------------------------------------ state-changing operations

  /** The 422 errors of the product checks: the validators' messages for the field names
      "Price" and "Stock quantity". */
  const PriceError := ValidationException("Price" + " must be positive")
  const StockError := ValidationException("Stock quantity" + " must be a non-negative integer")

  /** The price check on a price in cents: it fails exactly on a non-positive price. */
  lemma PriceCheck(priceCents: int)
    ensures ValidatePositiveNumber(PyFloat(priceCents as real), "Price")
            == if priceCents <= 0 then Fail(PriceError) else Pass
  {
  }

  /** The stock check on an integer stock: it fails exactly on a negative stock. */
  lemma StockCheck(stock: int)
    ensures ValidateNonNegativeInteger(PyInt(stock), "Stock quantity")
            == if stock < 0 then Fail(StockError) else Pass
  {
  }

  /** `create_product`: validate the price and the stock, then insert a row with a fresh id. */
  method CreateProduct(db: Db, data: ProductBase) returns (r: Result<Product, AppException>)
    requires db.Valid()
    modifies db
    ensures db.Valid()
    ensures data.priceCents <= 0 ==> r == Err(PriceError)
    ensures data.priceCents > 0 && data.stockQuantity < 0 ==>
              r == Err(StockError)
    ensures r.Err? ==> db.products == old(db.products) && db.nextProductId == old(db.nextProductId)
    ensures r.Ok? <==> data.priceCents > 0 && data.stockQuantity >= 0
    ensures r.Ok? ==> r.value == Product(old(db.nextProductId), data.name, data.description, data.priceCents,
                                         data.category, data.stockQuantity, data.imageUrl)
                      && db.products == old(db.products) + [r.value]
                      && db.nextProductId == old(db.nextProductId) + 1
    ensures db.users == old(db.users) && db.cart == old(db.cart) && db.orders == old(db.orders)
    ensures db.nextUserId == old(db.nextUserId) && db.nextCartId == old(db.nextCartId)
    ensures db.nextOrderId == old(db.nextOrderId) && db.nextOrderItemId == old(db.nextOrderItemId)
  {
    PriceCheck(data.priceCents);
    StockCheck(data.stockQuantity);
    var check := ValidatePositiveNumber(PyFloat(data.priceCents as real), "Price");
    if check.Fail? {
      return Err(check.error);
    }
    check := ValidateNonNegativeInteger(PyInt(data.stockQuantity), "Stock quantity");
    if check.Fail? {
      return Err(check.error);
    }
    var p := Product(db.nextProductId, data.name, data.description, data.priceCents,
                     data.category, data.stockQuantity, data.imageUrl);
    db.products, db.nextProductId := db.products + [p], db.nextProductId + 1;
    return Ok(p);
  }

  /** A supplied price is a positive number. */
  predicate PriceAccepted(price: Patch<Option<int>>)
  {
    price.Put? ==> price.value.Some? && price.value.value > 0
  }

  /** A supplied stock is a non-negative integer. */
  predicate StockAccepted(stock: Patch<Option<int>>)
  {
    stock.Put? ==> stock.value.Some? && stock.value.value >= 0
  }

  /** The checks `update_product` makes on a supplied price, then on a supplied stock. A null
      price makes `None <= 0` raise a TypeError, which the catch-all handler answers with 500; a
      null stock is not an `int`, so the stock check refuses it with 422. */
  function CheckUpdateValues(data: ProductUpdate): (r: Outcome)
    ensures data.priceCents == Put(None) ==> r == Fail(InternalError)
    ensures data.priceCents.Put? && data.priceCents.value.Some? && data.priceCents.value.value <= 0 ==>
              r == Fail(PriceError)
    ensures PriceAccepted(data.priceCents) && !StockAccepted(data.stockQuantity) ==> r == Fail(StockError)
    ensures r.Pass? <==> PriceAccepted(data.priceCents) && StockAccepted(data.stockQuantity)
  {
    PriceCheck(Take(Known(data.priceCents), 1));
    StockCheck(Take(Known(data.stockQuantity), 0));
    var price := (match data.priceCents
      case Keep => Pass
      case Put(None) => Fail(InternalError)
      case Put(Some(v)) => ValidatePositiveNumber(PyFloat(v as real), "Price"));
    if price.Fail? then price
    else match data.stockQuantity
      case Keep => Pass
      case Put(None) => Fail(StockError)
      case Put(Some(v)) => ValidateNonNegativeInteger(PyInt(v), "Stock quantity")
  }

  /** `update_product`: look the row up, validate a supplied price and stock, then set the
      supplied fields one by one. */
  method UpdateProduct(db: Db, id: int, data: ProductUpdate) returns (r: Result<Product, AppException>)
    requires db.Valid()
    modifies db
    ensures db.Valid()
    ensures r.Err? ==> db.products == old(db.products)
    ensures (forall p :: p in old(db.products) ==> p.id != id) ==> r == Err(ProductNotFound(id))
    ensures (exists p :: p in old(db.products) && p.id == id) ==>
              if data.priceCents == Put(None) then
                r == Err(InternalError)
              else if !PriceAccepted(data.priceCents) then
                r == Err(PriceError)
              else if !StockAccepted(data.stockQuantity) then
                r == Err(StockError)
              else
                r.Ok? && (exists k :: 0 <= k < |old(db.products)| && old(db.products)[k].id == id
                                      && r.value == ApplyProductUpdate(old(db.products)[k], data)
                                      && db.products == old(db.products)[k := r.value])
    ensures db.users == old(db.users) && db.cart == old(db.cart) && db.orders == old(db.orders)
    ensures db.nextProductId == old(db.nextProductId) && db.nextUserId == old(db.nextUserId)
    ensures db.nextCartId == old(db.nextCartId) && db.nextOrderId == old(db.nextOrderId)
    ensures db.nextOrderItemId == old(db.nextOrderItemId)
  {
    var found := FirstIndex(db.products, (p: Product) => p.id == id);
    if found.None? {
      return Err(ProductNotFound(id));
    }
    var k := found.value;
    var check := CheckUpdateValues(data);
    if check.Fail? {
      return Err(check.error);
    }
    var product := SetFields(db.products[k], DumpSet(data));
    SetAllIsUpdate(db.products[k], data);
    assert product.stockQuantity >= 0 by { assert db.products[k] in db.products; }
    ProductTableReplace(db.products, db.nextProductId, k, product);
    db.products := db.products[k := product];
    return Ok(product);
  }

  /** `delete_product`: NotFound for an unknown id; otherwise the row goes, and with it, by the
      foreign keys' `ON DELETE CASCADE`, the cart rows and order items that refer to it. */
  method DeleteProduct(db: Db, id: int) returns (r: Result<(), AppException>)
    requires db.Valid()
    modifies db
    ensures db.Valid()
    ensures r.Err? <==> forall p :: p in old(db.products) ==> p.id != id
    ensures r.Err? ==> r.error == ProductNotFound(id) && db.products == old(db.products)
                       && db.cart == old(db.cart) && db.orders == old(db.orders)
    ensures r.Ok? ==> (exists k :: 0 <= k < |old(db.products)| && old(db.products)[k].id == id
                                   && db.products == RemoveAt(old(db.products), k))
                      && db.cart == CartWithoutProduct(old(db.cart), id)
                      && db.orders == WithoutProductItems(old(db.orders), id)
    ensures forall p :: p in db.products <==> p in old(db.products) && p.id != id
    ensures db.users == old(db.users)
    ensures db.nextProductId == old(db.nextProductId) && db.nextUserId == old(db.nextUserId)
    ensures db.nextCartId == old(db.nextCartId) && db.nextOrderId == old(db.nextOrderId)
    ensures db.nextOrderItemId == old(db.nextOrderItemId)
  {
    var found := FirstIndex(db.products, (p: Product) => p.id == id);
    if found.None? {
      return Err(ProductNotFound(id));
    }
    RemoveProductAt(db, found.value);
    return Ok(());
  }

  /** The row at `k` goes, with the cart rows and order items of its product. */
  method RemoveProductAt(db: Db, k: nat)
    requires db.Valid() && k < |db.products|
    modifies db
    ensures db.Valid()
    ensures db.products == RemoveAt(old(db.products), k)
    ensures db.cart == CartWithoutProduct(old(db.cart), old(db.products)[k].id)
    ensures db.orders == WithoutProductItems(old(db.orders), old(db.products)[k].id)
    ensures forall p :: p in db.products <==> p in old(db.products) && p.id != old(db.products)[k].id
    ensures db.users == old(db.users)
    ensures db.nextProductId == old(db.nextProductId) && db.nextUserId == old(db.nextUserId)
    ensures db.nextCartId == old(db.nextCartId) && db.nextOrderId == old(db.nextOrderId)
    ensures db.nextOrderItemId == old(db.nextOrderItemId)
  {
    var id := db.products[k].id;
    ProductTableRemove(db.products, db.nextProductId, k);
    CartWithoutProductOk(db.cart, db.nextCartId, id);
    WithoutProductItemsOk(db.orders, db.nextOrderId, id);
    db.products, db.cart, db.orders := RemoveAt(db.products, k), CartWithoutProduct(db.cart, id),
                                       WithoutProductItems(db.orders, id);
  }

  function ReduceStockError(p: Product, quantity: int): AppException
  {
    BadRequestException("Insufficient stock for " + p.name + ". Available: "
                        + IntToString(p.stockQuantity) + ", Requested: " + IntToString(quantity))
  }

  /** The table with the stock of the rows carrying `id` lowered by `quantity`. */
  function Lowered(products: seq<Product>, id: int, quantity: int): (r: seq<Product>)
    ensures |r| == |products|
    ensures forall k :: 0 <= k < |r| ==>
              r[k] == if products[k].id == id then products[k].(stockQuantity := products[k].stockQuantity - quantity)
                      else products[k]
  {
    seq(|products|, k requires 0 <= k < |products| =>
      if products[k].id == id then products[k].(stockQuantity := products[k].stockQuantity - quantity)
      else products[k])
  }

  /** `reduce_stock`: NotFound, or BadRequest when the stock is short, otherwise the stock
      drops by exactly `quantity`, so it never goes below zero. */
  method ReduceStock(db: Db, id: int, quantity: int) returns (r: Result<(), AppException>)
    requires db.Valid()
    modifies db
    ensures db.Valid()
    ensures r.Err? ==> db.products == old(db.products)
    ensures ProductWithId(old(db.products), id).None? ==> r == Err(ProductNotFound(id))
    ensures ProductWithId(old(db.products), id).Some? ==>
              (ProductWithId(old(db.products), id).value.stockQuantity < quantity
               ==> r == Err(ReduceStockError(ProductWithId(old(db.products), id).value, quantity)))
    ensures r.Ok? <==> ProductWithId(old(db.products), id).Some?
                       && ProductWithId(old(db.products), id).value.stockQuantity >= quantity
    ensures r.Ok? ==> db.products == Lowered(old(db.products), id, quantity)
    ensures db.users == old(db.users) && db.cart == old(db.cart) && db.orders == old(db.orders)
    ensures db.nextProductId == old(db.nextProductId) && db.nextUserId == old(db.nextUserId)
    ensures db.nextCartId == old(db.nextCartId) && db.nextOrderId == old(db.nextOrderId)
    ensures db.nextOrderItemId == old(db.nextOrderItemId)
  {
    var found := FirstIndex(db.products, (p: Product) => p.id == id);
    if found.None? {
      return Err(ProductNotFound(id));
    }
    var k := found.value;
    var p := db.products[k];
    ProductWithIdAt(db.products, k);
    forall j | 0 <= j < |db.products| && db.products[j].id == id ensures j == k {
      DistinctIds(db.products, j, k);
    }
    if p.stockQuantity < quantity {
      return Err(ReduceStockError(p, quantity));
    }
    ProductTableReplace(db.products, db.nextProductId, k, p.(stockQuantity := p.stockQuantity - quantity));
    db.products := db.products[k := p.(stockQuantity := p.stockQuantity - quantity)];
    return Ok(());
  }
}
