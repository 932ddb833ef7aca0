/**
 * The request-side decisions of frontend/scripts/app.js: the headers and the failure message
 * of `apiRequest`, the product query of `loadProducts`, the quantity rule of
 * `updateCartItemQuantity`, and the gates that decide whether a request is sent at all.
 * `fetch`, the DOM and `encodeURIComponent` are left outside; the latter is a parameter.
 */
module FrontendRequests {
  import opened Wrappers
  import opened Strings
  import opened Schemas
  import opened Validators
  import opened UsersRoute
  import opened FrontendSession

  // ------------------------------------------------------------------ headers

  type Headers = map<string, string>

  /** The headers of `apiRequest`: JSON content type unless the caller says otherwise, then
      the caller's headers, then, when a token is stored, the bearer header over any the
      caller gave. */
  function RequestHeaders(caller: Headers, token: Option<string>): (h: Headers)
    ensures "Content-Type" in h
    ensures h["Content-Type"] == if "Content-Type" in caller then caller["Content-Type"] else "application/json"
    ensures Present(token) ==> "Authorization" in h && h["Authorization"] == "Bearer " + token.value
    ensures !Present(token) ==> ("Authorization" in h <==> "Authorization" in caller)
    ensures forall k :: k in caller && (k != "Authorization" || !Present(token)) ==> k in h && h[k] == caller[k]
    ensures forall k :: k in h ==> k in caller || k == "Content-Type" || k == "Authorization"
  {
    var merged := map["Content-Type" := "application/json"] + caller;
    if Present(token) then merged["Authorization" := "Bearer " + token.value] else merged
  }

  /** A stored token without spaces (a JWT has none) reaches the server's header parser
      intact: the header passes its "Bearer " check and its second field is the token. */
  lemma BearerHeaderCarriesToken(caller: Headers, token: string)
    requires token != "" && ' ' !in token
    ensures var h := RequestHeaders(caller, Some(token));
            "Authorization" in h && StartsWith(h["Authorization"], BearerPrefix)
            && BearerToken(h["Authorization"]) == token
  {
    TokenIsSecondField(token);
  }

  // ------------------------------------------------------------------ failure message

  /** A JSON value as the script sees it after `response.json()`; numbers are kept integral. */
  datatype Json =
    | JNull
    | JBool(b: bool)
    | JNumber(n: int)
    | JString(str: string)
    | JArray(items: seq<Json>)
    | JObject(fields: map<string, Json>)

  /** Reading a property of an object; `None` is `undefined`. */
  function Prop(body: map<string, Json>, key: string): Option<Json>
  {
    if key in body then Some(body[key]) else None
  }

  /** JavaScript truthiness of a property read. */
  predicate Truthy(v: Option<Json>)
  {
    match v
    case None => false
    case Some(j) =>
      match j
      case JNull => false
      case JBool(b) => b
      case JNumber(n) => n != 0
      case JString(s) => s != ""
      case JArray(_) => true
      case JObject(_) => true
  }

  /** `String(v)`, which `new Error(v)` applies to its argument: arrays join their elements
      with commas (null elements as ""), every plain object reads "[object Object]". */
  function JsString(j: Json): string
  {
    match j
    case JNull => "null"
    case JBool(b) => if b then "true" else "false"
    case JNumber(n) => IntToString(n)
    case JString(s) => s
    case JObject(_) => "[object Object]"
    case JArray(items) =>
      Join(seq(|items|, i requires 0 <= i < |items| => if items[i].JNull? then "" else JsString(items[i])), ',')
  }

  /** `error.error || error.detail || 'Request failed'`, as the script computes it. */
  function FailureMessageAsWritten(body: map<string, Json>): (m: string)
    ensures Truthy(Prop(body, "error")) ==> m == JsString(body["error"])
    ensures !Truthy(Prop(body, "error")) && Truthy(Prop(body, "detail")) ==> m == JsString(body["detail"])
    ensures !Truthy(Prop(body, "error")) && !Truthy(Prop(body, "detail")) ==> m == "Request failed"
  {
    if Truthy(Prop(body, "error")) then JsString(body["error"])
    else if Truthy(Prop(body, "detail")) then JsString(body["detail"])
    else "Request failed"
  }

  /** The body the framework answers a request with when it fails the request schema, here a
      registration whose username has two characters: `detail` is a list of objects. */
  const ShortUsernameBody: map<string, Json> :=
    map["detail" := JArray([JObject(map["type" := JString("string_too_short"),
                                         "loc" := JArray([JString("body"), JString("username")]),
                                         "msg" := JString("String should have at least 3 characters")])])]

  /** The register form lets a two-letter username through, the server rejects it against
      its schema, and the alert the script then shows is "[object Object]". */
  lemma ShortUsernameShowsObjectText()
    ensures RegisterGate("ab", "ab@example.com", "secret1", "").Send?
    ensures !ValidUserCreate(RegisterGate("ab", "ab@example.com", "secret1", "").body)
    ensures FailureMessageAsWritten(ShortUsernameBody) == "[object Object]"
  {
    var entry := ShortUsernameBody["detail"].items[0];
    assert JsString(entry) == "[object Object]";
    var parts := seq(1, i requires 0 <= i < 1 => if ShortUsernameBody["detail"].items[i].JNull? then ""
                                                  else JsString(ShortUsernameBody["detail"].items[i]));
    assert parts == ["[object Object]"];
  }

  /** A detail entry of a schema failure: an object with a non-empty "msg" string. */
  predicate HasMsg(e: Json)
  {
    e.JObject? && "msg" in e.fields && e.fields["msg"].JString? && e.fields["msg"].str != ""
  }

  /** The "msg" of the first detail entry that has one. */
  function FirstDetailMsg(items: seq<Json>): (r: Option<string>)
    ensures r.Some? ==> r.value != "" && exists e :: e in items && HasMsg(e) && e.fields["msg"].str == r.value
    ensures r.None? <==> forall e :: e in items ==> !HasMsg(e)
  {
    match FirstIndex(items, HasMsg)
    case None => None
    case Some(k) => Some(items[k].fields["msg"].str)
  }

  /** A text the server put in the body for a person to read. */
  predicate ServerText(body: map<string, Json>, m: string)
  {
    || Prop(body, "error") == Some(JString(m))
    || Prop(body, "detail") == Some(JString(m))
    || ("detail" in body && body["detail"].JArray?
        && exists e :: e in body["detail"].items && HasMsg(e) && e.fields["msg"].str == m)
  }

  /** The message the script evidently means to show: the server's "error" text, else its
      "detail" text, else the first "msg" of a schema failure, else "Request failed". */
  function FailureMessage(body: map<string, Json>): (m: string)
    ensures m == "Request failed" || (m != "" && ServerText(body, m))
    ensures Truthy(Prop(body, "error")) && body["error"].JString? ==> m == body["error"].str
    ensures (exists t :: t != "" && ServerText(body, t)) ==> m != "" && ServerText(body, m)
  {
    if "error" in body && body["error"].JString? && body["error"].str != "" then body["error"].str
    else if "detail" in body && body["detail"].JString? && body["detail"].str != "" then body["detail"].str
    else if "detail" in body && body["detail"].JArray? && FirstDetailMsg(body["detail"].items).Some? then
      FirstDetailMsg(body["detail"].items).value
    else "Request failed"
  }

  /** On the schema failure above the corrected message is the server's own sentence. */
  lemma ShortUsernameShowsMsg()
    ensures FailureMessage(ShortUsernameBody) == "String should have at least 3 characters"
  {
    var items := ShortUsernameBody["detail"].items;
    assert HasMsg(items[0]);
    assert FirstIndex(items, HasMsg) == Some(0);
  }

  /** On the bodies the application's own exception handler sends ({"error": message,
      "detail": text}) the corrected message is the one the script already shows. */
  lemma SameOnApplicationErrors(message: string, detail: string)
    requires message != ""
    ensures var body := map["error" := JString(message), "detail" := JString(detail)];
            FailureMessage(body) == FailureMessageAsWritten(body) == message
  {
  }

  // ------------------------------------------------------------------ product query

  const ProductsBase := "/api/products/?limit=100"

  /** The query `loadProducts` asks for: at most 100 products, the search and the category
      each added only when non-empty, search first. */
  function ProductsEndpoint(search: string, category: string, encode: string -> string): string
  {
    ProductsBase + (if search != "" then "&search=" + encode(search) else "")
                 + (if category != "" then "&category=" + encode(category) else "")
  }

  /** `loadProducts` building `endpoint` by reassignment. */
  method BuildProductsEndpoint(search: string, category: string, encode: string -> string)
    returns (endpoint: string)
    ensures endpoint == ProductsEndpoint(search, category, encode)
  {
    endpoint := ProductsBase;
    if search != "" {
      endpoint := endpoint + "&search=" + encode(search);
    }
    if category != "" {
      endpoint := endpoint + "&category=" + encode(category);
    }
  }

  /** One optional `&key=value` parameter adds one piece to the split, or nothing when absent. */
  lemma SplitOptionalParam(prefix: string, param: string, typed: string)
    requires '&' !in param
    ensures Split(prefix + (if typed != "" then "&" + param else ""), '&')
            == Split(prefix, '&') + (if typed != "" then [param] else [])
  {
    if typed != "" {
      assert prefix + ("&" + param) == prefix + ['&'] + param;
      SplitAppend(prefix, '&', param);
    } else {
      assert prefix + "" == prefix;
    }
  }

  /** With an encoder that never emits '&' (as `encodeURIComponent` escapes it), the query
      splits into exactly the limit, then the search parameter when a search was typed, then
      the category parameter when one was chosen. */
  lemma ProductQueryParameters(search: string, category: string, encode: string -> string)
    requires forall s :: '&' !in encode(s)
    ensures Split(ProductsEndpoint(search, category, encode), '&')
            == [ProductsBase] + (if search != "" then ["search=" + encode(search)] else [])
                              + (if category != "" then ["category=" + encode(category)] else [])
  {
    var searchParam := "search=" + encode(search);
    var categoryParam := "category=" + encode(category);
    assert "&search=" + encode(search) == "&" + searchParam;
    assert "&category=" + encode(category) == "&" + categoryParam;
    assert '&' !in searchParam && '&' !in categoryParam;
    var withSearch := ProductsBase + (if search != "" then "&" + searchParam else "");
    assert ProductsEndpoint(search, category, encode)
        == withSearch + (if category != "" then "&" + categoryParam else "");
    assert '&' !in ProductsBase;
    SplitNoSep(ProductsBase, '&');
    SplitOptionalParam(ProductsBase, searchParam, search);
    SplitOptionalParam(withSearch, categoryParam, category);
  }

  // ------------------------------------------------------------------ cart quantity

  /** The request a quantity button leads to. */
  datatype CartRequest = RemoveItem(itemId: int) | UpdateItem(itemId: int, body: CartItemUpdate)

  /** `updateCartItemQuantity`: below one the item is removed instead, so no update is sent. */
  function QuantityChange(itemId: int, newQuantity: int): (r: CartRequest)
    ensures r.itemId == itemId
    ensures r.RemoveItem? <==> newQuantity < 1
    ensures r.UpdateItem? ==> r.body.quantity == newQuantity
  {
    if newQuantity < 1 then RemoveItem(itemId) else UpdateItem(itemId, CartItemUpdate(newQuantity))
  }

  /** The "-" and "+" buttons of a cart row (whose quantity the server keeps positive) never
      send an update the server's schema rejects; "-" on the last unit removes the row. */
  lemma QuantityButtonsRespectSchema(itemId: int, quantity: int)
    requires quantity > 0
    ensures QuantityChange(itemId, quantity - 1).RemoveItem? <==> quantity == 1
    ensures QuantityChange(itemId, quantity - 1).UpdateItem? ==> ValidCartItemUpdate(QuantityChange(itemId, quantity - 1).body)
    ensures QuantityChange(itemId, quantity + 1) == UpdateItem(itemId, CartItemUpdate(quantity + 1))
    ensures forall n :: QuantityChange(itemId, n).UpdateItem? ==> ValidCartItemUpdate(QuantityChange(itemId, n).body)
  {
  }

  // ------------------------------------------------------------------ gates

  /** Whether a handler sends its request, or stops with an alert. */
  datatype Gate<T> = Blocked(alert: string) | Send(body: T)

  /** `handleLogin`: both fields must be filled in. */
  function LoginGate(username: string, password: string): (g: Gate<UserLogin>)
    ensures g.Send? <==> username != "" && password != ""
    ensures g.Blocked? ==> g.alert == "Please enter username and password"
    ensures g.Send? ==> g.body == UserLogin(username, password)
  {
    if username == "" || password == "" then Blocked("Please enter username and password")
    else Send(UserLogin(username, password))
  }

  /** `handleRegister`: username, e-mail and password must be filled in; an empty full name
      is sent as null. */
  function RegisterGate(username: string, email: string, password: string, fullName: string): (g: Gate<UserCreate>)
    ensures g.Send? <==> username != "" && email != "" && password != ""
    ensures g.Blocked? ==> g.alert == "Please fill in all required fields"
    ensures g.Send? ==> g.body == UserCreate(username, email, if fullName == "" then None else Some(fullName),
                                             None, None, password)
  {
    if username == "" || email == "" || password == "" then Blocked("Please fill in all required fields")
    else Send(UserCreate(username, email, if fullName == "" then None else Some(fullName), None, None, password))
  }

  /** The register gate never stops a registration the server would accept: a username and
      password within the schema's bounds and an e-mail the validator passes are non-empty. */
  lemma RegisterGateKeepsValidRegistrations(username: string, email: string, password: string, fullName: string)
    requires ValidUserCreate(UserCreate(username, email, None, None, None, password))
    requires ValidateEmail(email).Pass?
    ensures RegisterGate(username, email, password, fullName).Send?
    ensures ValidUserCreate(RegisterGate(username, email, password, fullName).body)
  {
  }

  /** `addToCart`: without a stored token nothing is sent and the login dialog opens. */
  function AddToCartGate(token: Option<string>, productId: int, quantity: int := 1): (g: Gate<CartItemCreate>)
    ensures g.Send? <==> Present(token)
    ensures g.Blocked? ==> g.alert == "Please login to add items to cart"
    ensures g.Send? ==> g.body == CartItemCreate(productId, quantity)
  {
    if !Present(token) then Blocked("Please login to add items to cart")
    else Send(CartItemCreate(productId, quantity))
  }

  /** What the cart page does on load. */
  datatype PageLoad = RedirectHome | FetchCart

  /** `loadCart`: without a stored token the page sends the browser home instead. */
  function LoadCartGate(token: Option<string>): (a: PageLoad)
    ensures a == FetchCart <==> Present(token)
  {
    if Present(token) then FetchCart else RedirectHome
  }

  /** `placeOrder`: the shipping address must be filled in. */
  function PlaceOrderGate(shippingAddress: string, paymentMethod: string): (g: Gate<OrderCreate>)
    ensures g.Send? <==> shippingAddress != ""
    ensures g.Blocked? ==> g.alert == "Please enter shipping address"
    ensures g.Send? ==> g.body == OrderCreate(shippingAddress, Some(paymentMethod))
  {
    if shippingAddress == "" then Blocked("Please enter shipping address")
    else Send(OrderCreate(shippingAddress, Some(paymentMethod)))
  }

  /** The order gate never stops an order the server would accept, and it lets through
      addresses the server's bound of ten characters rejects. */
  lemma PlaceOrderGateIsWeakerThanSchema(shippingAddress: string, paymentMethod: string)
    ensures ValidOrderCreate(OrderCreate(shippingAddress, Some(paymentMethod))) ==>
              PlaceOrderGate(shippingAddress, paymentMethod) == Send(OrderCreate(shippingAddress, Some(paymentMethod)))
    ensures PlaceOrderGate("Main St", paymentMethod).Send? && !ValidOrderCreate(PlaceOrderGate("Main St", paymentMethod).body)
  {
  }
}
