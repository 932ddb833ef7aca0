# Online shopping system: a verified model of its core

This project models the core of an online shop written as a FastAPI/SQLAlchemy backend and a browser script. It covers:

- **Product service.** Listing with a category filter, an `ILIKE` search, and offset/limit paging. Also lookup, create, partial update, delete with its foreign-key cascades, the category list, the stock check and the stock reduction.
- **Cart service.** The user's rows and adding with quantity merging. Updating and removing a row the user owns, clearing the cart, and the cart totals.
- **Order service.** Checkout from the cart: the checking loop, the item-and-stock loop, and clearing the cart. Also the per-user and administrator listings (newest first, paged), lookup with an optional owner, and the status update.
- **User service.** Registration with its e-mail and uniqueness checks, and the authentication decision. Also lookups, the partial profile update, and deletion with its cascade to the user's cart rows and orders.
- **Users route.** The `Authorization: Bearer …` header parser.
- **Core modules.** The exception hierarchy and its status codes, the validators, the request schemas, the order model and its `to_dict` renderings, and the settings.
- **Browser script decisions.** The session kept in `localStorage`, the request headers and the failure message of `apiRequest`, and the product query. Also the gates that decide whether a form sends anything, the quantity buttons, the stock badge, the auth link, the cart panel and the status colours.

The database is a class `Database.Db` with one sequence per table and one auto-increment counter per table. Each service call that changes state is a method on it, with `modifies db`. Its `Valid()` invariant covers:

- unique ids;
- unique usernames and e-mails;
- one cart row per (user, product);
- every cart row owned by a user row (`cart.user_id` is a foreign key);
- positive cart quantities;
- non-negative stock;
- counters above every id in use.

Every state-changing method preserves `Valid()`. Functions that only read are plain functions on the table sequences.

Conventions:

- **Money.** Amounts are integer cents.
- **Clock.** The database clock is a `now: Timestamp` parameter.
- **External functions.** These are parameters: password hashing and verification, token creation and decoding, and `encodeURIComponent`.

Behaviour worth knowing:

- **Schema failures and the error message.** An error body need not carry a *string* `error` or `detail` field. The framework's answer to a request that fails its schema has a `detail` list (see Findings).
- **Deleting a user.** This also deletes the user's cart rows and orders (`backend/models/user.py:24-25`).
- **Malformed `sub` claim.** A token whose `sub` claim is not an integer gets status 500 from the catch-all handler (`backend/main.py:42-48`), not 401.
- **`updated_at`.** An order's `updated_at` changes only when its status really changes.
- **Cart actions without a session.** Of the cart actions only `addToCart` and the cart page check for a stored token first. The quantity buttons, removal and clearing send their request even without one.

## Model

| member | source | states |
|---|---|---|
| Wrappers.Window | backend/services/order_service.py:83 | `OFFSET skip LIMIT limit`: the result is the elements from index `skip` on, at most `limit` of them, in order |
| Wrappers.FilterAppend | backend/services/order_service.py:83 | `.filter(...)` keeps table order: the filter of a concatenation is the concatenation of the filters |
| Wrappers.FilterCounts | backend/services/order_service.py:83 | `.filter(...)` keeps every copy of a passing row and no copy of any other |
| Strings.IntToString | backend/services/user_service.py:62 | Python `str(i)`: at least one character, with a leading '-' exactly for a negative number |
| Strings.ParseInt | backend/routes/users.py:29 | Python `int(s)` on a decimal literal: surrounding whitespace, an optional sign, then at least one digit; `None` stands for the ValueError on anything else |
| Strings.Strip | backend/config.py:34 | `str.strip()`: the result neither starts nor ends with whitespace |
| Strings.Split | backend/config.py:34 | `str.split(sep)` gives at least one piece |
| Strings.Lower | backend/services/product_service.py:29-34 | `lower()` keeps the length and lower-cases each character on its own (ASCII letters only) |
| Strings.ParseIntOfIntToString | backend/services/user_service.py:62 | `int(str(i)) == i` for every integer: the id written into the "sub" claim reads back unchanged |
| Strings.ParseIntOfDigits | backend/services/user_service.py:62 | a non-empty run of digits parses to the number it spells |
| Strings.ParseIntOfNegatedDigits | backend/services/user_service.py:62 | a minus sign followed by digits parses to the negated number |
| Strings.StripBounds | backend/config.py:34 | gives where the piece `strip()` keeps starts and ends; everything outside it is whitespace |
| Strings.StripIsInfix | backend/config.py:34 | `strip()` keeps one contiguous piece of its input and cuts off only whitespace |
| Strings.StripIdempotent | backend/config.py:34 | stripping twice is stripping once |
| Strings.SplitJoin | backend/config.py:34 | `split(sep)` gives one more piece than there are separators, no piece holds the separator, and `sep.join` of the pieces gives the input back |
| Strings.SplitCount | backend/config.py:34 | `split(sep)` gives one more piece than there are separators |
| Strings.JoinOfSplit | backend/config.py:34 | `sep.join` of the pieces of `split(sep)` gives the input back |
| Strings.JoinSplit | backend/config.py:34 | joining separator-free pieces and splitting again gives the pieces back |
| Exceptions.NewAppException | backend/utils/exceptions.py:4-10 | the base exception keeps its message and whatever status code it is given (500 by default) |
| Exceptions.NotFoundException | backend/utils/exceptions.py:13-17 | NotFound carries its message and status 404 |
| Exceptions.BadRequestException | backend/utils/exceptions.py:20-24 | BadRequest carries its message and status 400 |
| Exceptions.UnauthorizedException | backend/utils/exceptions.py:27-31 | Unauthorized carries its message and status 401 |
| Exceptions.ForbiddenException | backend/utils/exceptions.py:34-38 | Forbidden carries its message and status 403 |
| Exceptions.InsufficientStockException | backend/utils/exceptions.py:41-45 | InsufficientStock carries its message and status 400 |
| Exceptions.ValidationException | backend/utils/exceptions.py:48-52 | Validation carries its message and status 422 |
| Exceptions.SubclassCodes | backend/utils/exceptions.py:13-52 | every subclass answers with a 4xx code; only BadRequest and InsufficientStock share one |
| Validators.ValidatePositiveNumber | backend/utils/validators.py:5-8 | fails exactly when the value is not above zero, with "<field> must be positive" |
| Validators.ValidatePositiveInteger | backend/utils/validators.py:11-14 | fails exactly when the value is not an int (bool counts as int) or not above zero |
| Validators.ValidateNonNegativeInteger | backend/utils/validators.py:17-20 | fails exactly when the value is not an int or is negative |
| Validators.ValidateEmail | backend/utils/validators.py:23-26 | passes exactly a non-empty string with some '@' and some '.' |
| Validators.ValidateStringLength | backend/utils/validators.py:29-34 | passes exactly a non-empty string within both bounds; the minimum is reported first |
| Validators.FailuresAre422 | backend/utils/validators.py:1-34 | every failure of every validator is a ValidationException with status 422 |
| Validators.NumericGuardsNested | backend/utils/validators.py:5-20 | a positive integer passes the other two numeric checks; zero passes only the non-negative one; a float fails both integer checks |
| Validators.EmailDotPositionUnchecked | backend/utils/validators.py:23-26 | ".x@y" passes: the '.' need not follow the '@' |
| Validators.EmptyStringAlwaysRejected | backend/utils/validators.py:29-32 | the empty string fails whatever the minimum |
| Schemas.ValidProductBase | backend/schemas.py:10-17 | name of 1..200 characters, price > 0, category of 1..100 characters, stock >= 0 |
| Schemas.ValidProductUpdate | backend/schemas.py:25-32 | each supplied field within the ProductBase bounds; a null price or stock passes |
| Schemas.ValidUserBase | backend/schemas.py:47-49 | username of 3..100 characters |
| Schemas.ValidUserCreate | backend/schemas.py:56-58 | a valid UserBase with a password of at least 6 characters |
| Schemas.ValidCartItemCreate | backend/schemas.py:93-96 | product id > 0 and quantity > 0 |
| Schemas.ValidCartItemUpdate | backend/schemas.py:99-101 | quantity > 0 |
| Schemas.ValidOrderCreate | backend/schemas.py:137-140 | shipping address of 10..500 characters, payment method of at most 50 |
| Schemas.UpdateBoundsMatchBase | backend/schemas.py:10-32 | ProductUpdate bounds each supplied field exactly as ProductBase does, and the empty update is valid |
| Schemas.NewToken | backend/schemas.py:85-88 | a token without an explicit type is of type "bearer" |
| Schemas.CartItemCreateFromBody | backend/schemas.py:93-96 | a left-out quantity becomes 1, a given one is kept |
| Schemas.DefaultQuantityValid | backend/schemas.py:93-96 | with the default quantity the item is valid exactly when the product id is positive |
| Schemas.OrderCreateWithDefaults | backend/schemas.py:137-140 | a left-out payment method becomes "cash_on_delivery" |
| Schemas.DefaultOrderValid | backend/schemas.py:137-140 | the default payment method fits its bound, so only the address length (10..500) decides |
| Records.ProductWithId | backend/services/cart_service.py:113-114 | the relationship `item.product`: the row with this id, or none exactly when no row has it |
| OrderModel.ParseStatus | backend/models/order.py:8-15 | a parsed status has the value it was parsed from |
| OrderModel.StatusValuesRoundTrip | backend/models/order.py:8-15 | parsing a member's value gives the member back, values are distinct lower-case words, six members |
| OrderModel.OrderItemToDict | backend/models/order.py:72-81 | every column is copied; "product" is the product row, or None exactly when the row is gone |
| OrderModel.OrderToDict | backend/models/order.py:39-51 | every column is copied, the status as its value (which parses back to the status), items rendered one by one in order |
| Database.Db.Valid | backend/models/user.py:12-14 | the store invariant: unique ids per table and unique usernames and e-mails (the tables' keys), one cart row per (user, product), every cart row owned by a user row, positive cart quantities, non-negative stock, and counters above every id in use |
| Database.CartOwnersAppend | backend/models/cart.py:13 | `cart.user_id` is a foreign key: a new row whose user exists keeps every cart row owned by a user row |
| Database.CartOwnersReplace | backend/models/cart.py:13 | overwriting a cart row with one of the same user keeps every cart row owned |
| Database.CartOwnersRemoveUser | backend/models/cart.py:13 | deleting a user with its cart rows (`ON DELETE CASCADE`) leaves every remaining cart row owned by a remaining user |
| Database.UserIdsReplace | backend/services/user_service.py:85-90 | rewriting a user's profile fields keeps the set of user ids, so no cart row loses its owner |
| Database.WithoutProductItems | backend/models/order.py:61 | `ON DELETE CASCADE` of order items: each order keeps its place and loses exactly the items of the product |
| Database.WithoutProductItemsOk | backend/models/order.py:61 | dropping items keeps the order table sound |
| ProductService.Like | backend/services/product_service.py:29-34 | SQL `LIKE`: '%' matches any run of characters, '_' exactly one, any other character itself |
| ProductService.LikeLiteral | backend/services/product_service.py:29-34 | a pattern without wildcards matches exactly the string it spells |
| ProductService.ILike | backend/services/product_service.py:29-34 | `ilike` is `LIKE` after lower-casing both sides |
| ProductService.LikeInfix | backend/services/product_service.py:29-34 | for a wildcard-free text, `LIKE %text%` holds exactly when the string contains the text |
| ProductService.LikeLiteralThenAny | backend/services/product_service.py:29-34 | `LIKE text%` holds exactly for the strings starting with the text |
| ProductService.LikeAnyThen | backend/services/product_service.py:29-34 | a leading '%' matches exactly when some suffix matches the rest |
| ProductService.LikeAnything | backend/services/product_service.py:29-34 | `%` matches every string |
| ProductService.LowerKeepsWildcards | backend/services/product_service.py:29-34 | lower-casing keeps the '%' around the search and adds no wildcard |
| ProductService.SearchIsCaseInsensitiveSubstring | backend/services/product_service.py:29-34 | a wildcard-free search matches exactly the products whose name or (non-null) description contains it, ignoring ASCII case |
| ProductService.UnderscoreIsWildcard | backend/services/product_service.py:29-34 | "a_c" finds "abc": '_' in a search is not escaped |
| ProductService.SelectedProducts | backend/services/product_service.py:22-34 | the rows passing the category and search filters, each exactly as often as in the table |
| ProductService.GetAllProducts | backend/services/product_service.py:14-36 | the page of the passing rows: `PageLength` of them, element `k` being passing row `skip + k`; so at most `limit`, each from the table and passing the filters |
| ProductService.GetProductById | backend/services/product_service.py:39-44 | the product with this id, or a 404 "Product with ID n not found" exactly when none exists |
| ProductService.GetCategories | backend/services/product_service.py:91-94 | exactly the categories in the table, each once |
| ProductService.CheckStockAvailability | backend/services/product_service.py:97-100 | 404 for an unknown id; otherwise true exactly when the stock covers the quantity |
| ProductService.SetAllAppend | backend/services/product_service.py:76-77 | running the `setattr` loop over `a + b` is running it over `a`, then `b` |
| ProductService.SetAllOne | backend/services/product_service.py:76-77 | the `setattr` loop over one field is that field's `setattr` |
| ProductService.SetAllHead | backend/services/product_service.py:76-77 | the loop over the supplied name, description and price sets exactly those |
| ProductService.SetAllTail | backend/services/product_service.py:76-77 | the loop over the supplied category, stock and image URL sets exactly those |
| ProductService.SetAllIsUpdate | backend/services/product_service.py:66-77 | the `setattr` loop over the supplied fields replaces exactly those fields and keeps the id |
| ProductService.SetFields | backend/services/product_service.py:76-77 | the loop computes the fold over the fields and never changes the id |
| ProductService.CreateProduct | backend/services/product_service.py:47-58 | price then stock validated (422 messages); on success exactly one new row with the next id, the counter advanced, nothing else changed |
| ProductService.CheckUpdateValues | backend/services/product_service.py:68-74 | a supplied null price fails with 500 (`None <= 0` raises), a supplied non-positive price with 422; then a supplied null or negative stock fails with 422; passes exactly when a supplied price is a positive number and a supplied stock a non-negative one |
| ProductService.UpdateProduct | backend/services/product_service.py:61-81 | 404 for an unknown id; a null price gives 500, a non-positive price 422, a null or negative stock 422, and none of these changes anything; otherwise exactly that row becomes the reference update of the supplied fields |
| ProductService.DeleteProduct | backend/services/product_service.py:84-88 | 404 for an unknown id; otherwise the row goes, with its cart rows and order items (cascade), and nothing else |
| ProductService.RemoveProductAt | backend/services/product_service.py:86-88 | removing a product row keeps the tables consistent and takes its cart rows and order items with it |
| ProductService.ReduceStock | backend/services/product_service.py:103-113 | 404, or 400 with both numbers when stock is short; succeeds exactly when the stock covers the quantity, then lowers it by exactly that, never below zero |
| CartService.GetUserCart | backend/services/cart_service.py:15-17 | exactly the user's rows |
| CartService.EmptyWhenNoneMatch | backend/services/cart_service.py:15-17 | a table without the user's rows gives an empty cart |
| CartService.CartTotalsAppend | backend/services/cart_service.py:113-116 | both totals add up over concatenated rows |
| CartService.CartTotalsOfKnownProducts | backend/services/cart_service.py:106-121 | when every product exists the item total is the sum of quantities |
| CartService.CartTotalsPositive | backend/services/cart_service.py:106-121 | with every product present and positive quantities and prices, both totals are positive exactly when the cart is non-empty |
| CartService.GetCartTotal | backend/services/cart_service.py:106-121 | the loop computes the price and the item count over the user's rows, skipping rows whose product is gone |
| CartService.AddToCart | backend/services/cart_service.py:20-59 | 404 for an unknown product; 400 if stock is below the request or the merged quantity; an existing row is merged in place, otherwise one new row with the next id; that insert gives 500 (the `cart.user_id` foreign key fails at commit) when no user row has the id, so a deleted account's still-valid token never adds to the cart; errors change nothing |
| CartService.UserProductRow | backend/services/cart_service.py:31-34 | the first row of this user for this product, or none exactly when the user has no row for it |
| CartService.OwnedRow | backend/services/cart_service.py:64-67 | the first row with this id and this owner, or none exactly when no such row exists |
| CartService.UpdateCartItem | backend/services/cart_service.py:62-83 | 404 unless the user owns the row; 404 for a vanished product; 400 if stock is short; otherwise only that row's quantity changes |
| CartService.RemoveFromCart | backend/services/cart_service.py:86-97 | 404 unless the user owns the row; otherwise exactly that row goes |
| CartService.ClearCart | backend/services/cart_service.py:100-103 | every row of the user goes and no one else's; the user's cart is then empty |
| OrderService.PlanLine | backend/services/order_service.py:28-49 | a row passes exactly when its product exists and covers its quantity; the item carries the product, the quantity and the current price |
| OrderService.PlanPrefixErr | backend/services/order_service.py:28-38 | the first failing row decides the checkout error |
| OrderService.PlanOkIff | backend/services/order_service.py:28-38 | checkout passes its checks exactly when every row does |
| OrderService.PlanItems | backend/services/order_service.py:28-49 | one item per row, in order, each the one its row yields |
| OrderService.PlanTotal | backend/services/order_service.py:40-49 | the planned items' total is the cart's price |
| OrderService.CheckCartLines | backend/services/order_service.py:24-49 | the first loop yields the plan and a running total equal to its sum |
| OrderService.PlanNext | backend/services/order_service.py:28-49 | extending the plan by one cart row either adds the row's item or stops at the row's error |
| OrderService.ReducedStep | backend/services/order_service.py:71 | reducing one more row's product lowers exactly that product by that row's quantity |
| OrderService.ReduceReady | backend/services/order_service.py:34-38 | before row `j` is reduced its product still has the stock the first loop checked |
| OrderService.UserRowsDistinctProducts | backend/services/cart_service.py:31-48 | merging on add means each product appears in one row of a user's cart |
| OrderService.AddItemAndReduceStock | backend/services/order_service.py:63-71 | one pass: the order item with the next item id, and a stock reduction that cannot fail |
| OrderService.AddItemsAndReduceStock | backend/services/order_service.py:62-71 | one order item per planned item with consecutive ids; every product lowered by its units in the cart |
| OrderService.PlaceOrder | backend/services/order_service.py:51-78 | the pending order with the cart's total and items is appended; stock reduced; the user's cart cleared |
| OrderService.PlacedOrderOf | backend/services/order_service.py:52-58 | the order built from a successful plan is pending, belongs to the user, carries the cart's total and holds one numbered item per cart row with that row's product, quantity and price |
| OrderService.CreateOrderFromCart | backend/services/order_service.py:16-78 | 400 for an empty cart; the first failing row's error; either changes nothing; otherwise the order is placed as above |
| OrderService.InsertByDate | backend/services/order_service.py:83 | inserting into a newest-first list keeps it newest first and adds exactly the order |
| OrderService.SortNewestFirst | backend/services/order_service.py:83 | `ORDER BY created_at DESC`: newest first and a permutation of the input |
| OrderService.OrdersOfUser | backend/services/order_service.py:83 | exactly the user's orders, each as often as in the table |
| OrderService.SortedMembers | backend/services/order_service.py:83 | sorting by date neither adds nor drops an order |
| OrderService.PageOfSorted | backend/services/order_service.py:83 | a page of a newest-first list is newest first, drawn from the list, and the whole list when nothing is skipped and everything fits |
| OrderService.GetUserOrders | backend/services/order_service.py:81-83 | the page of the user's orders sorted newest first: `PageLength` of them, element `k` being sorted order `skip + k`; newest first, only the user's orders; with no offset and few orders, all of them |
| OrderService.OrdersWithStatus | backend/services/order_service.py:115-116 | exactly the orders of the given status (all orders without one), each as often as in the table |
| OrderService.GetAllOrders | backend/services/order_service.py:112-119 | the page of those orders sorted newest first: `PageLength` of them, element `k` being sorted order `skip + k`; newest first, only orders of the given status; with no offset and few orders, all of them |
| OrderService.WindowKeepsOrder | backend/services/order_service.py:83 | paging keeps the newest-first order |
| OrderService.GetOrderById | backend/services/order_service.py:86-99 | the order with this id (and owner, when given), or 404 exactly when there is none |
| OrderService.OwnerFilter | backend/services/order_service.py:90-94 | with an owner the lookup succeeds exactly when the plain lookup finds that owner's order |
| OrderService.UpdateOrderStatus | backend/services/order_service.py:102-109 | 404 for an unknown id; otherwise only that order's status (and `updated_at`, if it changed) are set |
| UserService.GetUserByUsername | backend/services/user_service.py:75-77 | a row with this username, or none exactly when no row has it |
| UserService.GetUserById | backend/services/user_service.py:67-72 | the row with this id, or 404 exactly when none exists |
| UserService.UsernameLookupUnique | backend/services/user_service.py:75-77 | with unique usernames the found row is the only one with that name |
| UserService.CreateUser | backend/services/user_service.py:15-45 | e-mail format, then username, then e-mail checked in that order; succeeds exactly when all pass, with one new active non-admin row holding the hash |
| UserService.TokenClaims | backend/services/user_service.py:62 | "sub" reads back as the user's id and "username" is the username |
| UserService.AuthenticateUser | backend/services/user_service.py:48-64 | unknown user and wrong password fail alike (401); inactive is refused only after the password verifies; success yields the user and a token of its claims |
| UserService.FailedLoginHidesUsername | backend/services/user_service.py:52-56 | a wrong password for a known user gives the same answer as an unknown user |
| UserService.RegisteredUserCanLogIn | backend/services/user_service.py:34-64 | a freshly created user logs in with its password and gets a token naming its id |
| UserService.SetUserAllAppend | backend/services/user_service.py:87-88 | the `setattr` loop over `a + b` is the loop over `a`, then `b` |
| UserService.SetUserAllOne | backend/services/user_service.py:87-88 | the loop over one field is that field's `setattr` |
| UserService.SetUserAllIsUpdate | backend/services/user_service.py:85-88 | the loop over the supplied fields replaces exactly those profile fields |
| UserService.SetUserFields | backend/services/user_service.py:87-88 | the loop computes the fold and never changes id, username or e-mail |
| UserService.UpdateUser | backend/services/user_service.py:80-92 | 404 for an unknown id; otherwise exactly that row becomes the reference update |
| UserService.DeleteUser | backend/services/user_service.py:95-99 | 404 for an unknown id; otherwise the row goes with the user's cart rows and orders, and nothing else |
| UserService.RemoveUserAt | backend/services/user_service.py:97-99 | removing a user row keeps the tables consistent and takes the user's cart rows and orders with it |
| UsersRoute.BearerToken | backend/routes/users.py:19 | `authorization.split(" ")[1]` exists for a header starting with "Bearer " and holds no space |
| UsersRoute.GetCurrentUserId | backend/routes/users.py:14-29 | missing or non-Bearer header gives 401 "Missing or invalid authorization header"; an undecodable or empty payload 401 "Invalid or expired token"; a missing or empty "sub" 401 "Invalid token payload"; a non-integer "sub" 500; an integer "sub" gives exactly that integer |
| UsersRoute.TokenIsSecondField | backend/routes/users.py:19 | for a token without spaces, `split(" ")[1]` of "Bearer token" is the token |
| UsersRoute.LoginTokenIdentifiesUser | backend/routes/users.py:14-29 | the token a login returns, sent back as a bearer header, yields the logged-in user's id, for any space-free encoder whose decoding keeps "sub" (extra claims such as "exp" allowed) |
| Config.DatabaseUrl | backend/config.py:26-29 | the URL starts with "mysql+pymysql://" and ends with "/" and the database name |
| Config.DefaultDatabaseUrl | backend/config.py:9-29 | the defaults give "mysql+pymysql://root:@localhost:3306/online_shopping", HS256 and 30 minutes |
| Config.DatabaseUrlSplitsAtAt | backend/config.py:26-29 | when no part holds '@', the URL has one '@' separating the credentials from HOST:PORT/NAME |
| Config.AllowedOriginsList | backend/config.py:31-34 | one entry per comma-separated piece, each stripped, none holding a comma |
| Config.OriginsRoundTrip | backend/config.py:31-34 | a comma-joined list of clean origins reads back as that list |
| Config.DefaultAllowedOrigins | backend/config.py:21-34 | the default yields the three development origins |
| FrontendDisplay.StockBadgeOf | frontend/scripts/app.js:269-277 | "stock-out" and a disabled button exactly at 0, "stock-low" below 10, otherwise no class; the text is "Out of Stock" or "<n> in stock" |
| FrontendDisplay.BadgeAgreesWithStockCheck | frontend/scripts/app.js:269-277 | for a product of the table the button is enabled exactly when the server's stock check for one unit passes, and the badge's number reads back as the stock |
| FrontendDisplay.StatusColor | frontend/scripts/app.js:628-638 | the grey fallback exactly for strings that are no order status |
| FrontendDisplay.StatusColorsMatchStatuses | frontend/scripts/app.js:628-638 | each status value has its own colour, distinct from the others and from the fallback |
| FrontendDisplay.CartViewOf | frontend/scripts/app.js:369-376 | the empty-cart notice exactly for a missing or empty item list, otherwise the contents with their count |
| FrontendSession.SessionStore.SetAuthToken | frontend/scripts/app.js:10-12 | stores the token and leaves the user |
| FrontendSession.SessionStore.RemoveAuthToken | frontend/scripts/app.js:14-16 | removes the token, leaves the user; the session is signed out |
| FrontendSession.SessionStore.SetCurrentUser | frontend/scripts/app.js:23-25 | stores the user and leaves the token |
| FrontendSession.SessionStore.RemoveCurrentUser | frontend/scripts/app.js:27-29 | removes the user, leaves the token; the session is signed out |
| FrontendSession.SessionStore.CompleteLogin | frontend/scripts/app.js:146-150 | stores token and user; signed in exactly when the token is non-empty |
| FrontendSession.SessionStore.Logout | frontend/scripts/app.js:192-194 | removes both; the session is signed out |
| FrontendSession.AuthLinkOf | frontend/scripts/app.js:89-103 | the greeting "Hi, <username>" exactly with a truthy token and a user, otherwise the login link |
| FrontendRequests.RequestHeaders | frontend/scripts/app.js:58-67 | JSON content type unless the caller gives one; the caller's headers kept; with a token, "Authorization: Bearer <token>" over the caller's; nothing else added |
| FrontendRequests.BearerHeaderCarriesToken | frontend/scripts/app.js:65-67 | a space-free stored token reaches the server's header parser intact |
| FrontendRequests.FailureMessageAsWritten | frontend/scripts/app.js:77 | the body's truthy "error", else its truthy "detail", else "Request failed", turned into text as `String()` does (a list joined by commas, an object as "[object Object]") |
| FrontendRequests.ShortUsernameShowsObjectText | frontend/scripts/app.js:77 | a two-letter username passes the form, fails the schema, and the alert reads "[object Object]" |
| FrontendRequests.FailureMessage | frontend/scripts/app.js:77 | the shown message is "Request failed" or a non-empty text the server sent; whenever the server sent one, one of them is shown |
| FrontendRequests.ShortUsernameShowsMsg | frontend/scripts/app.js:77 | on the schema failure the corrected message is the server's own sentence |
| FrontendRequests.SameOnApplicationErrors | frontend/scripts/app.js:77 | on the bodies of the application's own exceptions the corrected and the written message agree |
| FrontendRequests.BuildProductsEndpoint | frontend/scripts/app.js:230-232 | the endpoint built by reassignment is the product query |
| FrontendRequests.ProductQueryParameters | frontend/scripts/app.js:230-232 | the query splits into the limit, then the search if typed, then the category if chosen |
| FrontendRequests.QuantityChange | frontend/scripts/app.js:406-410 | below one the item is removed instead; otherwise the update carries the new quantity |
| FrontendRequests.QuantityButtonsRespectSchema | frontend/scripts/app.js:388-410 | "-" on one unit removes the row; every update sent satisfies the server's `quantity > 0` |
| FrontendRequests.LoginGate | frontend/scripts/app.js:131-144 | sends exactly when both fields are filled, otherwise the alert |
| FrontendRequests.RegisterGate | frontend/scripts/app.js:163-183 | sends exactly when username, e-mail and password are filled; an empty full name goes as null |
| FrontendRequests.RegisterGateKeepsValidRegistrations | frontend/scripts/app.js:169-172 | the form never stops a registration the server would accept |
| FrontendRequests.AddToCartGate | frontend/scripts/app.js:301-313 | sends exactly with a truthy token, otherwise the login alert |
| FrontendRequests.LoadCartGate | frontend/scripts/app.js:342-352 | fetches the cart exactly with a truthy token, otherwise goes home |
| FrontendRequests.PlaceOrderGate | frontend/scripts/app.js:524-540 | sends exactly when an address is filled in |
| FrontendRequests.PlaceOrderGateIsWeakerThanSchema | frontend/scripts/app.js:528-531 | the form never stops a valid order but lets through addresses shorter than the server's ten characters |

## Left out

- Database sessions, transactions and commits. Each service call is one atomic step. A failure part-way through the checkout's second loop (impossible here, as `AddItemsAndReduceStock` shows) is not modelled.
- Floating-point money and `round(x, 2)`. Prices and totals are integer cents.
- Password hashing and verification, JWT creation and decoding, and `encodeURIComponent`. These are function parameters. Their properties are stated as preconditions where needed: decoding inverts encoding, and tokens hold no spaces.
- Token expiry. It belongs to the decoder parameter.
- Pydantic's `EmailStr` check on `UserBase.email`. Only the application's own `validate_email` is modelled.
- The `schemas.py` response schemas (`*Response`, `MessageResponse`, `ErrorResponse`). They carry no logic.
- Loading settings from the environment or a `.env` file, and `get_settings` caching. A `Settings` value is whatever was loaded.
- FastAPI routing, dependency injection and CORS wiring. The route module's only logic, `get_current_user_id`, is modelled.
- `LIKE` escape characters. MySQL's `LIKE` treats a backslash as an escape character by default, so a backslash in the search text is not a literal backslash in the source, while `ProductService.Like` treats it as an ordinary character. The '%' and '_' of the search text are wildcards in both. Case folding beyond ASCII letters is not modelled.
- Ties in `ORDER BY created_at DESC`. SQL leaves their order open; the model keeps table order.
- ISO-8601 rendering of timestamps in `to_dict`. Timestamps stay values.
- The server-side `created_at` default for products, users and cart rows. Only orders carry timestamps in the model.
- The browser's DOM, `fetch`, `showAlert`/`showLoading`, `setTimeout` redirects, `location.reload`, `confirm`, date and price formatting, and the order of asynchronous callbacks. Only the decisions the script makes are modelled.
- `localStorage` serialisation. `JSON.stringify` then `JSON.parse` is taken to return the stored user unchanged.
- Inherited object keys in `getStatusColor`. A string such as "toString" would find an inherited property; every string outside the six statuses gets the fallback here.
- Non-integral numbers in `Json`. JSON numbers are integers in the model.
- Claims other than strings. `Claims` maps strings to strings.
- Foreign-key existence of an order item's product. It is not part of `Db.Valid()`.
- Auto-increment values taken by an insert the database refuses. When the `cart.user_id` foreign key refuses the insert of `CartService.AddToCart`, the model leaves `nextCartId` as it was, while MySQL may skip that id. Ids stay unique either way.
- `backend/models/product.py`, `backend/utils/auth.py` and `backend/database.py` are not part of this model. The product row's fields follow their use in the services and schemas.
- ProductService.UpdateProduct: an explicit null for `name` or `category` is not modelled. Whether the database refuses it depends on the product table's column definitions, and `backend/models/product.py` is not part of this model. A null price or stock is modelled.
- ProductService.GetAllProducts: the query has no `ORDER BY`, so SQL does not fix the order of its rows. The model pages over table order.
- String comparison under the database's collation. Username, e-mail and category lookups (`GetUserByUsername`, the uniqueness checks of `CreateUser`, `AuthenticateUser`, the category filter of `GetAllProducts`) compare with exact equality. The database is created without a collation (`backend/create_db.py:19`), so MySQL's default case-insensitive collation applies there. Under it "Alice" is refused when "alice" exists, and "ALICE" logs in as alice.
- Strings.ParseInt: Python's `int()` also accepts underscores between digits ("1_0") and non-ASCII decimal digits. The model accepts only ASCII digits.
- FrontendRequests.FailureMessage: the corrected message is stated to be some server text whenever one exists. It does not fix which one when the body carries several.

## Findings

| source | as written | input that shows it | evidently intended | confidence | as-written member | corrected member |
|---|---|---|---|---|---|---|
| frontend/scripts/app.js:77 | the alert shows the body's truthy "error", else its truthy "detail", as text; for a request that fails the server's schema, `detail` is a list of objects and the alert reads "[object Object]" | register with username "ab" (passes the form's non-empty check, fails `min_length=3`) | show the server's own message ("String should have at least 3 characters") | not executed | FrontendRequests.ShortUsernameShowsObjectText | FrontendRequests.FailureMessage |
