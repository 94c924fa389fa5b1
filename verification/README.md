# Home Cuisine backend — a verified model of its request handling

The backend of a food-delivery marketplace, written with Express and
Mongoose. Signed-in users keep a profile, may open one restaurant with a
menu, list and move that restaurant's orders, and anyone can search a city's
restaurants and start a card checkout for a cart. This project models, in
Dafny, the decision logic of the request handlers and middleware and the
schema rules of the stored documents, and proves what they promise.

How the model is built:

- **Store.** The three MongoDB collections are maps from document id to
  document, held by the class `Database.Db`. Its invariant `Valid` says each
  document sits under its own id, every stored restaurant and order passed
  its schema's checks, no user owns two restaurants, and Auth0 ids identify
  users. A handler that writes is a `method` with `modifies db`. Each is proved
  equal to a pure function from the old table to the reply and the new
  table, and the lemmas about those functions carry the properties
  (ownership, "nothing else changes", idempotence).
- **Saving validates.** A document Mongoose would refuse on `save()` (a
  required path missing or "", a status outside the `enum`) gives a 500 and
  no write, as the handlers' `catch` blocks do.
- **Failures are inputs.** `storeFails` says whether the store throws. Fresh
  document ids and the clock (`now`) are parameters. The image host is the
  function `cloud`, the Stripe gateway is the function `gateway`, JWT
  decoding is the partial function `decode`, and regular expressions are the
  abstract `RegexEngine` (does a pattern compile, does it match a string).
- **JavaScript semantics made explicit.** `parseInt` (leading white space,
  sign, `0x`, longest digit prefix, `NaN` as `None`), `split` with a
  one-character separator, `startsWith`, the falsy `||` defaults, and the
  base 64 encoding of section 4 of RFC 4648 inside a data URI of RFC 2397.
- **What the handlers do not do.** There is no payment webhook, no order is
  ever created or persisted, `totalAmount` is never written, and order
  statuses follow no forward-only order; the model has none of these either
  (`AnyStatusToAnyStatus` shows any status can be set from any other).
  Likewise the checkout puts the placeholder "TEST_ORDER_ID" in the session
  metadata.

Modules: `Wrappers`, `Http` (status codes, bodies, middleware outcomes),
`JsString`, `JsNumber`, `Base64`, `RestaurantModel`, `OrderModel`,
`Database`, and one module per controller or middleware file:
`OrderController`, `MyRestaurantController`, `RestaurantController`,
`MyUserController`, `Auth`, `Validation`.

## Model

| member | source | states |
|---|---|---|
| RestaurantModel.RestaurantRequiredPaths | src/models/restaurant.ts:4-23 | a restaurant is refused when any of restaurantName, city, country, deliveryPrice, estimatedDeliveryTime, imageUrl or lastUpdate is missing, when a cuisine is empty, or when a menu item lacks its name or price; the cuisines and menuItems arrays may be empty |
| OrderModel.OrderRequiredPaths | src/models/order.ts:13-34 | an order is refused when any of the delivery details' email, name, addressLine1 or city is missing, or when a cart item lacks its menuItemId, quantity or name; the cart may be empty |
| RestaurantModel.OwnerIsOptional | src/models/restaurant.ts:12 | a restaurant's validity does not depend on its owner reference, which the schema does not require |
| OrderModel.ParseStatus | src/models/order.ts:36-39 | a status string is accepted exactly when the `enum` lists it, and it maps back to the same string |
| OrderModel.StatusRoundTrip | src/models/order.ts:36-39 | every status value survives being written as its string and read back |
| OrderModel.StatusEnumHasFourValues | src/models/order.ts:38 | the `enum` has five entries but four distinct values, "delivered" twice |
| OrderModel.ValidityIgnoresStatusAndReferences | src/models/order.ts:4-39 | status, total and the restaurant and user references play no part in an order's validity |
| Database.OwnedBy | src/controllers/MyRestaurantController.ts:12 | `findOne({ user })` finds a restaurant exactly when one is owned by the user, and the one it finds is |
| Database.UserWithAuth0Id | src/middleware/auth.ts:46 | `findOne({ auth0Id })` finds a user exactly when one has that Auth0 id, and the one it finds has it |
| JsString.JoinSplit | src/middleware/auth.ts:38 | joining the pieces of `split` with the separator gives the string back |
| JsString.SplitHead | src/middleware/auth.ts:38 | the first piece of `split` is the text before the first separator |
| JsString.SplitAfterPiece | src/middleware/auth.ts:38 | splitting a separator-free piece, a separator and a rest gives the piece followed by the pieces of the rest |
| JsString.SplitPiecesFree | src/controllers/RestaurantController.ts:59-60 | no piece of `split` contains the separator |
| JsNumber.ParseIntReadsDecimal | src/controllers/OrderController.ts:94 | `parseInt` reads back the decimal text of any integer, followed by text that starts with neither a digit nor an x |
| JsNumber.ParseIntWithoutDigits | src/controllers/RestaurantController.ts:32 | text without a decimal digit parses to `NaN` |
| JsNumber.NatTextValue | src/controllers/OrderController.ts:94 | the digits of a natural number have that number as their value |
| Base64.Encode | src/controllers/MyRestaurantController.ts:102 | the encoding has four characters per started group of three bytes, all from the alphabet or `=` |
| Base64.DecodeEncode | src/controllers/MyRestaurantController.ts:102 | decoding the encoding of any buffer gives the buffer back |
| OrderController.FindMenuItem | src/controllers/OrderController.ts:75-77 | the index found is the first menu item with the id, and none is found exactly when no item has it |
| OrderController.FirstUnknown | src/controllers/OrderController.ts:72-83 | the position found is the first cart entry no menu item matches |
| OrderController.CreateLineItems | src/controllers/OrderController.ts:67-101 | fails with the id of the first unknown entry exactly when there is one; otherwise one line item per entry, in cart order, built from the entry's first matching menu item |
| OrderController.LineItemsFromMenu | src/controllers/OrderController.ts:75-95 | each line item's unit amount and name are those of the first menu item with the entry's id, its currency "usd" and its quantity `parseInt` of the entry's text |
| OrderController.CreateCheckoutSession | src/controllers/OrderController.ts:23-64 | every answer is a 200 or a 500, and a 200 carries the non-empty URL of the session the gateway created for exactly the request sent |
| OrderController.CheckoutNeedsRestaurantAndItems | src/controllers/OrderController.ts:29-83 | an unknown restaurant is reported before the cart is looked at, and a session is requested exactly when the restaurant exists and its menu has every cart entry |
| OrderController.CheckoutRequestShape | src/controllers/OrderController.ts:104-134 | the session request holds the cart's line items, one fixed-amount "Delivery" option at the delivery price in "usd", payment mode, metadata with "TEST_ORDER_ID" and the restaurant id, and the two redirect URLs |
| OrderController.CheckoutIgnoresClientNames | src/controllers/OrderController.ts:86-94 | the names in the client's cart and its delivery details do not change the checkout |
| OrderController.SameIdsSameLineItems | src/controllers/OrderController.ts:72-98 | two carts with the same ids and quantities give the same line items |
| OrderController.SuccessUrlIgnoresOrder | src/controllers/OrderController.ts:131 | the success URL is the same for every checkout |
| OrderController.CheckoutReply | src/controllers/OrderController.ts:53-62 | the reply is exactly `{ url }` when the session has a non-empty URL, a 500 "Error creating stripe session" when it has none, and a 500 with the gateway's raw message when the gateway fails |
| OrderController.LineItemsAddUpToCartValue | src/controllers/OrderController.ts:86-95 | the line items are all priced exactly when the cart has a value at menu prices, and then they add up to it |
| OrderController.PricedCons | src/controllers/OrderController.ts:86-95 | a list of line items is priced when its head and tail are, and its subtotal is the head's amount plus the tail's |
| OrderController.CheckoutChargesCartPlusDelivery | src/controllers/OrderController.ts:39-124 | the session charges the cart's value at the restaurant's menu prices plus its delivery price |
| MyRestaurantController.DataUri | src/controllers/MyRestaurantController.ts:102-105 | the upload is sent as "data:" + media type + ";base64," followed by text that decodes to the file's bytes |
| MyRestaurantController.CreateRestaurantAddsOne | src/controllers/MyRestaurantController.ts:8-39 | a store failure is a 500 "Something Went Wrong"; 409 exactly when the caller owns a restaurant; 201 exactly when nothing fails, and then one restaurant is added, owned by the caller, with the form's fields, the uploaded image's URL and the request time; nothing is written otherwise; no user ever owns two |
| MyRestaurantController.OneRestaurantPerUser | src/controllers/MyRestaurantController.ts:12-17 | after a successful create, the same user's next create is a 409 that writes nothing |
| MyRestaurantController.CreateMyRestaurant | src/controllers/MyRestaurantController.ts:8-39 | the method keeps the store valid and answers and writes as `CreateRestaurant` says |
| MyRestaurantController.GetMyRestaurant | src/controllers/MyRestaurantController.ts:42-57 | 500 "Error fetching restaurant" on a store failure; otherwise 404 exactly when the caller owns no restaurant, and 200 with the restaurant the caller owns when there is one |
| MyRestaurantController.UpdateRestaurantRewritesOwn | src/controllers/MyRestaurantController.ts:60-94 | 500 on a store failure; otherwise 404 exactly when the caller owns no restaurant, and 200 exactly when the caller owns one, any file uploads and the rewritten document passes the schema; only the caller's restaurant changes: the seven form fields and the last update take the request's values, the image changes only when a file came, id and owner stay; 404 without a restaurant, 500 on a failed upload or refused save, with no write |
| MyRestaurantController.UpdateMyRestaurant | src/controllers/MyRestaurantController.ts:60-94 | the method keeps the store valid and answers and writes as `UpdateRestaurant` says |
| MyRestaurantController.OrdersOf | src/controllers/MyRestaurantController.ts:125 | the orders found are exactly those whose restaurant is the given one, unchanged |
| MyRestaurantController.GetMyRestaurantOrders | src/controllers/MyRestaurantController.ts:114-135 | 500 on a store failure; otherwise 404 exactly when the caller owns no restaurant, and 200 with `OrdersOf` the caller's restaurant when there is one: every order of a restaurant the caller owns and no other order |
| MyRestaurantController.SetOrderStatusChangesOnlyStatus | src/controllers/MyRestaurantController.ts:138-167 | 500 "Unable to update order status" on a store failure; otherwise 404 exactly for an unknown order, 401 exactly when the caller does not own the order's restaurant (or it is gone or unowned), 500 for a status outside the `enum`; on success only that order's status changes, to the value sent or unset when none was sent, and the orders stay valid |
| MyRestaurantController.AnyStatusToAnyStatus | src/controllers/MyRestaurantController.ts:158-161 | the owner can set any status on any of its orders, whatever its status was: no transition order is enforced |
| MyRestaurantController.UpdateOrderStatus | src/controllers/MyRestaurantController.ts:138-167 | the method keeps the store valid and answers and writes as `SetOrderStatus` says |
| RestaurantController.GetRestaurant | src/controllers/RestaurantController.ts:5-21 | 500 on a store failure; otherwise 404 exactly when no restaurant has the id, and 200 with the stored, valid restaurant with that id when one has it |
| RestaurantController.PageNumber | src/controllers/RestaurantController.ts:32 | the page is never 0: `NaN` and 0 give 1, any other parsed number is kept, negative ones included |
| RestaurantController.DefaultSettings | src/controllers/RestaurantController.ts:29-32 | absent or empty parameters give no filters, the sort path "lastUpdated" and page 1 |
| RestaurantController.PageParameter | src/controllers/RestaurantController.ts:32 | a page written in decimal is read as that number unless it is 0, and a page without a decimal digit, such as "next", is 1 |
| RestaurantController.SearchQueryMeaning | src/controllers/RestaurantController.ts:35-76 | the query document matches a restaurant exactly when its city matches, every comma-separated selected cuisine matches one of its cuisines, and the search text matches its name or one of its cuisines |
| RestaurantController.CityQuerySelects | src/controllers/RestaurantController.ts:38-41 | the query holding only the city condition selects the restaurants whose city matches |
| RestaurantController.SearchQuerySelects | src/controllers/RestaurantController.ts:82-89 | the full query selects exactly the restaurants the search matches |
| RestaurantController.KeyLeTotalPreorder | src/controllers/RestaurantController.ts:83 | the sort order is reflexive, total and transitive |
| RestaurantController.MinimumExists | src/controllers/RestaurantController.ts:83 | any non-empty set of restaurants has one that sorts no later than all others |
| RestaurantController.SortByKey | src/controllers/RestaurantController.ts:83 | the listing holds each given restaurant once and is ascending on the sort path |
| RestaurantController.DefaultSortOrdersNothing | src/controllers/RestaurantController.ts:31-83 | under the default sort path, which is not a schema path, every order of the matches is a sorted listing |
| RestaurantController.PageCount | src/controllers/RestaurantController.ts:96 | the page count is the least number of ten-result pages that hold all the matches, so 0 when there is none |
| RestaurantController.PagesCoverListing | src/controllers/RestaurantController.ts:78-85 | reading the pages from a given skip onwards gives the rest of the listing, each match once and in order |
| RestaurantController.AllPagesGiveEveryMatch | src/controllers/RestaurantController.ts:78-85 | reading every page in turn gives the whole listing |
| RestaurantController.PageIsEmptyExactlyPastTheLast | src/controllers/RestaurantController.ts:78-96 | a page is non-empty exactly when its number is at most the page count |
| RestaurantController.PageOfListing | src/controllers/RestaurantController.ts:82-98 | the page cut from a sorted listing of the matches holds at most ten matches, ascending, with the total and the page count |
| RestaurantController.FindPage | src/controllers/RestaurantController.ts:78-96 | running the full query gives a result page: the matches' total and page count, and at most ten matches, ascending on the sort path, cut at the page's skip from a sorted listing of all of them |
| RestaurantController.SearchRestaurants | src/controllers/RestaurantController.ts:24-106 | a store failure or a city pattern that does not compile gives a 500 "Internal server error"; otherwise a city without restaurants gives the 404 empty page whatever the filters; in a city with restaurants, an unusable filter pattern or a page below 1 gives the same 500 and never the 404; otherwise the page of matches described by `IsResultPage` |
| MyUserController.GetCurrentUser | src/controllers/MyUserController.ts:5-22 | 500 on a store failure; otherwise 404 exactly when no user has the caller's id, and 200 with that user when one has it |
| MyUserController.CreateUserInsertsOne | src/controllers/MyUserController.ts:25-50 | 201 exactly when no user has the Auth0 id and the new id is free, and then exactly one user, the body under the new id, is added; an existing Auth0 id gives 200 with no body; a store failure, or a new id already taken, gives 500 "Error creating user"; nothing is written otherwise; Auth0 ids stay unique |
| MyUserController.CreateUserIdempotent | src/controllers/MyUserController.ts:30-36 | creating the same user a second time answers 200 and changes nothing |
| MyUserController.CreateCurrentUser | src/controllers/MyUserController.ts:25-50 | the method keeps the store valid and answers and writes as `CreateUser` says |
| MyUserController.UpdateUserChangesOnlyProfile | src/controllers/MyUserController.ts:53-77 | only the caller's name, address line, city and country change; id, Auth0 id, email and other users stay; 404 "User not found" for a missing user and 500 "Error updating user" on a store failure, with no write |
| MyUserController.UpdateCurrentUser | src/controllers/MyUserController.ts:53-77 | the method keeps the store valid and answers and writes as `UpdateUser` says |
| Auth.BearerToken | src/middleware/auth.ts:32-38 | a token exists exactly when the header starts with "Bearer ", and it is the text after that up to the next space |
| Auth.BearerTokenRoundTrip | src/middleware/auth.ts:38 | "Bearer " followed by a space-free token gives that token back |
| Auth.SchemeIsExact | src/middleware/auth.ts:32 | "bearer " in lower case, and "Bearer" without its space, give no token |
| Auth.Authenticate | src/middleware/auth.ts:24-61 | a principal exists exactly when there is a bearer token, it decodes, the store answers and a user has the decoded Auth0 id; it names that user |
| Auth.PrincipalIsUnique | src/middleware/auth.ts:46-54 | two requests whose tokens carry the same Auth0 id act for the same user |
| Auth.JwtParse | src/middleware/auth.ts:24-61 | without a principal the answer is 401 and the request is unchanged; with one, the request gets its Auth0 id and user id and `next` is called |
| Validation.CheckField | src/middleware/validation.ts:26-32 | a field passes exactly when it is a non-empty string; a non-string is reported with "Invalid value" and an empty one with the rule's message |
| Validation.CheckAllCollects | src/middleware/validation.ts:25-34 | an error is reported exactly when one of the rules reports it |
| Validation.CheckAllEmpty | src/middleware/validation.ts:25-34 | there are no errors exactly when no rule finds one |
| Validation.CheckAllReportsRule | src/middleware/validation.ts:25-34 | with distinct fields, the errors about one field are exactly those of its own rule |
| Validation.HandleValidationErrors | src/middleware/validation.ts:5-22 | `next` is called exactly when there is no error; otherwise the answer is 400 with all the errors |
| Validation.MyUserRequestPasses | src/middleware/validation.ts:25-34 | a profile update passes exactly when name, addressLine1, city and country are non-empty strings |
| Validation.MyUserRequestReportsEveryField | src/middleware/validation.ts:25-34 | every failing field is reported, with its rule's message when empty and "Invalid value" when not a string, and no other field is |

## Left out

- The Stripe call is the parameter `gateway`, and the Cloudinary upload is the parameter `cloud`; neither service is modelled.
- JWT signature checking by `jwtCheck` is not modelled, and `jwt.decode` is the partial function `decode`, which gives the token's `sub`. A token that decodes to a payload without `sub` is treated like one that does not decode: both give 401, because no user has an undefined Auth0 id.
- Regular expressions are the abstract `RegexEngine`. Case-insensitive matching and the pattern syntax of user input are not modelled.
- OrderController.CreateCheckoutSession: when the handler's own errors occur (unknown restaurant, unknown menu item, failed lookup), the result is `Thrown` with the cause, and no response is given. The `catch` reads `error.raw.message`, which only gateway errors carry, so the response to those errors is not specified here.
- Numbers are unbounded integers. JavaScript doubles, fractional prices and the 2^53 precision limit are not modelled. Body values are taken as already cast by Mongoose: a missing number is `None`, and a missing string is "".
- A query parameter given more than once, which Express turns into an array, is not modelled; each parameter is one string or absent.
- RestaurantController.KeyOf: sorting on an array path (`cuisines`, `menuItems`) or a dotted path is treated as sorting on a missing field. MongoDB would sort arrays by their smallest element.
- Ties in the sort are listed in any order, since MongoDB does not fix one. The model therefore does not promise that consecutive pages are consistent with one another.
- A page below 1 makes the skip negative. The store's refusal of a negative skip is modelled as a 500.
- `findById` with a malformed id (a Mongoose cast error, which gives 500) is modelled as an id that is not in the table.
- `populate("restaurant")` and `populate("user")` in the orders listing are not modelled; orders are returned with their references as ids.
- Subdocument ids of new menu items, which Mongoose generates on save, come with the form.
- A request body that carries its own `_id`, which `new Restaurant(req.body)` or `new User(req.body)` would keep, is not modelled. The new document always gets the fresh id.
- MyRestaurantController.CreateMyRestaurant: an image uploaded before a failed save stays on the image host; the host's state is not modelled.
- express-validator on array or object values is modelled only through the text `notEmpty` reads off them (`NonString`); its element-wise handling of arrays is not modelled. The `location` and `type` fields of an error entry are left out.
- Timestamps are the input `now`. An order's `createdAt` default is a plain field, because no handler creates orders.
- src/models/user.ts is not part of this model. The user document has the fields the controllers read and write.
- Route wiring (src/index.ts, src/routes/*.ts), logging and concurrent requests are not modelled. Each handler runs alone against the store.
