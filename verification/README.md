# E-commerce backend core, modelled in Dafny

This project models the logic inside an Express and Mongoose e-commerce
backend. The database collections are in-memory sequences or maps held by
classes. bcrypt, SHA-256, uuid, the clock, randomness and mail delivery are
function parameters or plain values.

The modules, in dependency order:

- `Wrappers` holds `Option`, `Result` and the HTTP error classes (400, 401, 404, 500).
- `Js` holds the JavaScript built-ins the controllers lean on: `\s`, `trim`, ASCII `toLowerCase`, `String(n)` and `parseInt`.
- `CartModel` is the cart schema and the `Cart` collection. It includes the loaded cart document that a controller changes in place.
- `CartMerge` is the create-or-merge of `addToCart`, as functions on line sequences, with its invariants.
- `CartController` is `addToCart` as imperative code. The request-line loop, the in-place merge and the total loop are each proved against `CartMerge`.
- `OrderModel` is the order schema: status enums, `required` fields, defaults, the pre-save status hook, and the unique `orderCode` index.
- `PlaceOrder` covers `placeOrder` and `getUserOrders`. `placeOrder` picks the item source, fills in payment defaults, creates the order and only then empties the cart.
- `UserModel` covers the user schema:
  - the bcrypt-shape test;
  - the save hook that hashes a password once;
  - the update hook, for both the object form and the pipeline form;
  - the toJSON scrubber;
  - the `User` collection, with its email normalised and unique.
- `ResetCode` is the six-digit reset code.
- `UserController` covers `getCartByUserId` (totals recomputed), the `forgotPassword` / `resetPassword` token flow, and `registerUser`.
- `AdminAuth` covers `loginAdmin`, the admin OTP (one-time password) forgot/reset flow, and `getAllUsers`.
- `Paging` is the arithmetic the admin listings share: `parseInt(q) || d`, `skip`, the window, and `Math.ceil(total / limit)`.
- `AdminProducts` covers `addProduct`, `updateProduct`, `deleteProduct` and the paginated `getProducts`.
- `AdminOrders` is `getPaginatedOrders`: newest-first order, a window, and the null-defaulting projection.
- `Upload` covers the multer rules: folder by MIME type, the MIME allowlist, and the stored file name with each whitespace run collapsed to `_`.

The collections are classes whose methods (`FindOne`, `Save`, `Create`,
`Insert`, …) change their fields in place. Controllers that change stored
state are module-level methods that take these collection objects. Their
`ensures` clauses state the whole new state, and the error answers are
`Result` values. Pure projections and checks are functions, with lemmas
connecting them.

## Model

| member | source | states |
|---|---|---|
| Js.TrimStartKeepsRest | Admin/productControllers.js:68 | What `trim` keeps of the start is the rest of the string, character for character |
| Js.TrimStartSkipsSpace | Admin/productControllers.js:68 | What `trim` removes from the start is whitespace only |
| Js.TrimIdempotent | Admin/productControllers.js:68 | Trimming a trimmed id changes nothing |
| Js.TrimLowerCommute | models/userModel.js:11-12 | Lowercasing and trimming commute, so the order of the email setters does not matter |
| Js.LowerTrimIdempotent | models/userModel.js:11-12 | Normalising an already normalised email changes nothing |
| Js.ParseIntRoundTrip | Admin/productControllers.js:139-140 | `parseInt` reads back every integer `String` writes |
| Js.ParseIntNoDigits | Admin/productControllers.js:139-140 | A string without digits, such as an absent query, parses to NaN |
| CartModel.MakeLine | models/cartModel.js:3-9 | A line keeps its id, name and quantity; an absent `price` or `totalPrice` is 0 |
| CartModel.MakeCart | models/cartModel.js:11-16 | A cart keeps its user and lines; an absent `cartTotal` is 0 and an absent currency is "INR" |
| CartModel.SumUpdate | controllers/cartController.js:47 | Replacing one line changes the reduced total by the difference of the two line totals |
| CartModel.SumOfConsistent | controllers/userController.js:269-276 | When every line's total is price × quantity, the stored sum equals the sum of price × quantity |
| CartModel.CartCollection.FindOne | controllers/cartController.js:13 | `findOne({ userId })` gives a fresh copy of the stored cart, or null exactly when there is none |
| CartModel.CartCollection.Save | models/cartModel.js:4-12 | `save` writes the document under its user exactly when the `required` validators pass, and otherwise changes nothing |
| CartMerge.StoredId | models/cartModel.js:4 | A string id is stored as is; a numeric id is cast to a non-empty string; a missing id is empty |
| CartMerge.ToIncoming | controllers/cartController.js:17-31 | A computed line has total = price × quantity, the request's price and quantity, and name "" when none was sent |
| CartMerge.Incomings | controllers/cartController.js:17-31 | One computed line per request line, in request order |
| CartMerge.FindLine | controllers/cartController.js:36 | Finds the first stored line whose id is strictly equal to the reference, or none exactly when no line is |
| CartMerge.Bump | controllers/cartController.js:37-42 | A matched line keeps its id and price and gains the quantity and the total. Its name changes only when it was empty and the rule allows backfill |
| CartMerge.MergeOne | controllers/cartController.js:36-45 | No match appends the line at the end. A match bumps exactly that line and leaves all others. The sum grows by the line's total |
| CartMerge.MergeAll | controllers/cartController.js:35-46 | The whole merge adds between 0 and one line per request line, and the sum of the result is the old sum plus the request's sum |
| CartMerge.MergeAllKeepsStored | controllers/cartController.js:40-42 | Every stored line keeps its position, id and price. A non-empty name is never overwritten. Under the nodeProject copy's rule (nodeProject/controllers/cartController.js:37-44) no stored name changes at all |
| CartMerge.MergeAllKeepsUnnamed | controllers/cartController.js:35-46 | A stored line that no request line names is left exactly as it was |
| CartMerge.NumericIdAppends | controllers/cartController.js:36 | A numeric `productId` is never `===` a stored id, so its line is always appended |
| CartMerge.RepeatMergesIntoAppended | controllers/cartController.js:44-45 | A product named twice in one request, and new to the cart, is appended once; the second occurrence merges into it |
| CartMerge.MergeAllKeepsConsistent | controllers/cartController.js:38-39 | If all prices come from one price list, every merged line's total is still price × quantity |
| CartMerge.PriceMismatchBreaksConsistency | controllers/cartController.js:38-39 | Adding a product at a new price keeps the stored price but adds the new total, so the line becomes inconsistent |
| CartMerge.MergeAllIds | controllers/cartController.js:35-46 | The ids after a merge are exactly the stored ids plus the requested ids |
| CartController.ComputeLines | controllers/cartController.js:16-31 | The `map` loop yields the computed lines, and its running `cartTotal` is their sum |
| CartController.FindIndex | controllers/cartController.js:36 | The search loop returns the index `FindLine` specifies |
| CartController.MergeInto | controllers/cartController.js:35-46 | The in-place `forEach` leaves the document's lines equal to `MergeAll` of the old lines |
| CartController.SumLines | controllers/cartController.js:47 | The `reduce` loop returns the sum of the line totals |
| CartController.IncomingIds | models/cartModel.js:4 | Some computed line has an empty id exactly when some request line has no usable `productId` |
| CartController.AddToCart | controllers/cartController.js:5-69 | 400 exactly for a missing user or empty `products`; 500 exactly for a NaN amount or missing id, with nothing stored. On success the user's cart alone changes: a new cart holds the request lines in order with "INR", and an existing cart gets them merged and keeps its currency. Either way the total is the sum of the lines. The nodeProject copy (nodeProject/controllers/cartController.js:5-68) is the same method under the rule that never backfills a name |
| OrderModel.ParsePaymentStatus | models/orderModel.js:28-32 | A string passes the payment-status enum exactly when it names one of its three values |
| OrderModel.ParseOrderStatus | models/orderModel.js:33-37 | A string passes the status enum exactly when it names one of its three values |
| OrderModel.StatusFor | models/orderModel.js:43-47 | Delivered exactly for Successful, Failed exactly for Failed, Pending exactly for Pending |
| OrderModel.ToOrderItem | models/orderModel.js:15-23 | A valid item input is stored with the same fields |
| OrderModel.BuildOrder | models/orderModel.js:3-47 | An order is built exactly when every validator passes and `userId` casts to an object id. It keeps the payload's fields, defaults currency to "INR" and payment status to Pending, and takes its status from the hook |
| OrderModel.SuppliedStatusIgnored | models/orderModel.js:43-47 | A status in the payload does not affect the stored order |
| OrderModel.MissingOrderCodeRefused | models/orderModel.js:5-9 | A payload without an `orderCode` is never built, whatever else it holds |
| OrderModel.OrderCollection.Create | models/orderModel.js:5-9 | `Order.create` appends the built order exactly when it is valid and its `orderCode` is new, so codes stay unique and non-empty; otherwise nothing changes |
| PlaceOrder.ResolveUserId | controllers/placeOrderController.js:10-11 | A non-empty body `userId` wins; otherwise the authenticated id is used |
| PlaceOrder.CartItem | controllers/placeOrderController.js:29 | A cart line becomes an order item with the same id, name, price and quantity, and no image |
| PlaceOrder.CartItems | controllers/placeOrderController.js:29 | One order item per cart line, in order |
| PlaceOrder.ChooseSource | controllers/placeOrderController.js:27-35 | A non-empty cart supplies its lines and `cartTotal`. Otherwise non-empty `cartItems` supply the items with the body total. Otherwise there is no source |
| PlaceOrder.ResolvePaymentId | controllers/placeOrderController.js:37 | The given id, or "pay_" followed by the timestamp |
| PlaceOrder.ResolvePaymentStatus | controllers/placeOrderController.js:38 | The given status, or "Failed" |
| PlaceOrder.PayloadAsWritten | controllers/placeOrderController.js:40-49 | The payload as written: the corrected payload plus a `status` of "Successful" or "Failed" |
| PlaceOrder.PayloadStatusRejected | controllers/placeOrderController.js:48 | For a successful payment the written status is not in the status enum, though the hook would map it to Delivered, so the as-written payload is refused for every user, source and code |
| PlaceOrder.PayloadWithoutCodeRefused | controllers/placeOrderController.js:40-51 | The as-written payload carries no `orderCode`, so `Order.create` refuses it for every request |
| PlaceOrder.Payload | controllers/placeOrderController.js:40-49 | The payload carries the user, source items and total, currency "INR" and the resolved payment fields, and leaves `status` to the hook |
| PlaceOrder.PlaceOrder | controllers/placeOrderController.js:8-78 | Both 400s, then 404 without a source, then 500 when creation fails, including a `userId` that is not an object id. Every error leaves both collections unchanged. On success the order is appended with the hook's status; an existing cart is emptied afterwards and no cart is created |
| PlaceOrder.UnnamedCartLineFailsOrder | controllers/placeOrderController.js:29 | A cart line with no name fails the order item's `required` name, so the order is refused |
| PlaceOrder.Summary | controllers/placeOrderController.js:93-101 | A summary copies the selected order fields |
| PlaceOrder.OrdersOf | controllers/placeOrderController.js:89-91 | Exactly the stored orders of the user |
| PlaceOrder.OrdersOfSnoc | controllers/placeOrderController.js:89-91 | The selection keeps stored order: one more order extends it at the end, or leaves it unchanged |
| PlaceOrder.GetUserOrders | controllers/placeOrderController.js:82-107 | 400 exactly without an authenticated id; 500 exactly when that id is not an object id; otherwise one summary per order of the user, in stored order |
| PlaceOrder.PlacedOrderListed | controllers/placeOrderController.js:82-107 | A newly placed order is the last entry of its user's listing |
| UserModel.BcryptString | models/userModel.js:23-25 | The shape a bcrypt hash takes: a 7-character prefix and then the body |
| UserModel.BcryptStringIsHash | models/userModel.js:23-25 | Every well-formed prefix and 53-character body passes `isBcryptHash` |
| UserModel.HashIsBcryptString | models/userModel.js:23-25 | Every string passing `isBcryptHash` has that form, so the test is exact |
| UserModel.PreSave | models/userModel.js:36-47 | The save hook keeps a hash-shaped password and hashes any other |
| UserModel.PreSaveOnce | models/userModel.js:36-47 | With a real bcrypt the stored password is hash-shaped, and saving again does not re-hash it |
| UserModel.HashShapedPlainKept | models/userModel.js:38 | A plain password that happens to look like a hash is stored as given |
| UserModel.JsString | models/userModel.js:64 | `String(v)` of a string is the string itself |
| UserModel.Candidate | models/userModel.js:57-60 | `$set.password` unless it is undefined or null, else the top-level `password` |
| UserModel.ObjectHook | models/userModel.js:56-77 | As written: a falsy or hash-shaped candidate changes nothing. Otherwise the hash goes to `$set.password` whenever that field exists, even as null, else to the top-level `password` |
| UserModel.ObjectHookCorrected | models/userModel.js:62-76 | The hash goes back where the candidate came from. A falsy or hash-shaped candidate changes nothing |
| UserModel.CorrectedHookLeavesNoPlain | models/userModel.js:62-76 | With a real bcrypt, the password the update writes afterwards is falsy or hash-shaped |
| UserModel.NullSetLeavesPlainPassword | models/userModel.js:68-73 | As written, `{$set:{password:null}, password:"secret"}` keeps "secret" in the update |
| UserModel.NullSetCorrected | models/userModel.js:68-73 | The corrected hook replaces "secret" with its hash |
| UserModel.HashStage | models/userModel.js:85-92 | A stage with a non-hash string `$set.password` gets it hashed; every other stage and field is kept |
| UserModel.UpdateHook | models/userModel.js:50-102 | As written: no update is left alone, an object update goes through `ObjectHook`, and a pipeline is hashed stage by stage |
| UserModel.PipelineHookHashesAll | models/userModel.js:84-97 | With a real bcrypt no stage keeps a plain password, and running the hook again changes nothing |
| UserModel.ObjectHookIdempotent | models/userModel.js:62-76 | With a real bcrypt the as-written object hook is idempotent |
| UserModel.ObjectHookCorrectedIdempotent | models/userModel.js:62-76 | With a real bcrypt the corrected object hook is idempotent |
| UserModel.UpdateQuery.HashPasswordInUpdate | models/userModel.js:50-102 | The in-place hook, including the stage loop, leaves the update equal to `UpdateHook` of the old one. `modified` is set exactly when some pipeline stage needed hashing |
| UserModel.ToJson | models/userModel.js:117-122 | The output has exactly the fields that are not hidden, with their values |
| UserModel.UserFields | models/userModel.js:4-18 | A user document has `_id`, `name`, `email` and `password` |
| UserModel.UserJsonScrubbed | models/userModel.js:116-122 | A user's JSON has no password or reset fields and keeps id, name and email |
| UserModel.AppendKeepsUnique | models/userModel.js:10 | Adding a user with a new email keeps emails unique |
| UserModel.FirstIndexOf | controllers/userController.js:116 | The first position holding the email, or none exactly when no position holds it |
| UserModel.FindEmail | controllers/userController.js:116 | Finds the first user with the email, or none exactly when no user has it |
| UserModel.NotFoundNotIn | nodeProject/controllers/userController.js:16-20 | An email the lookup misses is not in the collection |
| UserModel.FindToken | controllers/userController.js:208-211 | Finds the first user with the token and an expiry strictly after now, or none exactly when no user qualifies |
| UserModel.UserCollection.FindOneByEmail | controllers/userController.js:116 | The lookup runs on the lowercased, trimmed email |
| UserModel.UserCollection.FindOneByToken | controllers/userController.js:208-211 | The token lookup of `FindToken`, as a fresh document |
| UserModel.UserCollection.Save | models/userModel.js:14 | A document with a password is written through the save hook; otherwise nothing changes |
| UserModel.UserCollection.Create | models/userModel.js:6-14 | The name is trimmed and the email normalised. A user is added exactly when email and password are non-empty and the email is new |
| UserController.ViewLine | controllers/userController.js:271-284 | A returned line's total is price × quantity; the stored total is not read |
| UserController.ViewLines | controllers/userController.js:271-285 | One returned line per stored line, in order |
| UserController.ViewCurrency | controllers/userController.js:293 | The stored currency, or "INR" when it is empty |
| UserController.GetCartByUserId | controllers/userController.js:253-300 | 400 exactly without a user id; 404 exactly for no cart or an empty one. Otherwise the recomputed lines, their price × quantity sum, and the currency with its fallback |
| UserController.ViewTotalIsStoredTotal | controllers/userController.js:269-292 | For a consistent cart, the read-back total equals the stored total |
| UserController.ViewIgnoresStaleTotals | controllers/userController.js:271-276 | Carts whose lines agree on prices and quantities read back the same total, whatever totals they store |
| UserController.WithToken | controllers/userController.js:128-131 | The user gains the token and expiry, keeps its identity, and passes its password through the save hook |
| UserController.StoreResetToken | controllers/userController.js:128-131 | The token and expiry are assigned and saved in place |
| UserController.OtpMailHtml | controllers/userController.js:139-142 | The reset mail's html is non-empty and carries the code after its greeting |
| UserController.ResetMailSentWhenDelivered | controllers/userController.js:136-143 | The user reset mail passes `sendEmail`'s argument check, so it goes out exactly when the transport delivers it |
| UserController.ForgotPassword | controllers/userController.js:107-155 | 400 exactly without an email and 404 exactly for an unknown one, both leaving users unchanged. Otherwise the code's SHA-256 is stored with now + 10 min, and the answer is Ok exactly when the mail is sent |
| UserController.AfterReset | controllers/userController.js:217-221 | The new password goes through the hook and both reset fields are cleared |
| UserController.ResetPassword | controllers/userController.js:194-227 | Missing or differing passwords, or no live token, give 400 with nothing changed. Otherwise the found user is reset. The nodeProject copy (nodeProject/controllers/userController.js:166-205) has the same ladder |
| UserController.TokenWindow | controllers/userController.js:208-211 | A stored token is live exactly before its expiry |
| UserController.ForgotThenReset | controllers/userController.js:122-131 | The mailed code finds a user throughout the 10-minute window |
| UserController.ResetIsSingleUse | controllers/userController.js:217-221 | A reset user's token never matches again |
| UserController.RegisterUser | nodeProject/controllers/userController.js:12-40 | 400 exactly when the normalised email is taken; 500 for a missing password or a failed validation. Otherwise exactly one user is appended with the hashed password |
| UserController.RegisteredPasswordHashedOnce | nodeProject/controllers/userController.js:22-23 | With a real bcrypt the stored password is the controller's hash, not hashed twice |
| ResetCode.Otp | controllers/userController.js:123 | A code has six digits, no leading zero, and value 100000 + draw |
| ResetCode.SixDigits | controllers/userController.js:123 | Numbers from 100000 to 999999 print with six digits |
| AdminAuth.FindAdminEmail | Admin/authControllers.js:70 | Finds the first admin whose stored email is exactly the query |
| AdminAuth.FindAdminOtp | Admin/authControllers.js:128 | Finds the first admin holding the code, whatever its expiry |
| AdminAuth.ViewOf | Admin/authControllers.js:44-49 | The login view is id, name, email and role |
| AdminAuth.LoginAdmin | Admin/authControllers.js:10-55 | 400 exactly for an empty email or password. 401 exactly when the normalised lookup fails or the password does not compare. Otherwise the admin's view |
| AdminAuth.LoginIgnoresCaseAndSpaces | Admin/authControllers.js:20 | Emails with the same lowercased trim log in identically |
| AdminAuth.UnnormalisedAdminCannotLogIn | Admin/authControllers.js:20 | An admin stored with a non-normalised email is found by the forgot flow, yet can never log in |
| AdminAuth.AdminCollection.FindOneByEmail | Admin/authControllers.js:70 | The exact-email lookup, as a fresh document |
| AdminAuth.AdminCollection.FindOneByOtp | Admin/authControllers.js:128 | The code lookup, as a fresh document |
| AdminAuth.AdminCollection.Save | Admin/authModel.js:4-11 | With no validators or hook, `save` always writes the document |
| AdminAuth.WithOtp | Admin/authControllers.js:80-81 | The admin gains the plain code and expiry and keeps everything else |
| AdminAuth.AdminOtpMailRefused | Admin/authControllers.js:89-94 | The admin mail, sent without html, fails `sendEmail`'s argument check whatever the transport would do |
| AdminAuth.AdminOtpMailWithHtml | Admin/authControllers.js:89-94 | With an html body the admin mail would go out exactly when the transport delivers it |
| AdminAuth.AdminForgotPassword | Admin/authControllers.js:58-110 | 400 exactly without an email and 404 exactly for an unknown exact email. Otherwise the code is stored with now + 15 min, and the answer is always 500, because the mail call has no html |
| AdminAuth.AfterAdminReset | Admin/authControllers.js:142-144 | The password is the controller's hash of the new one, and both OTP fields are cleared |
| AdminAuth.AdminResetPassword | Admin/authControllers.js:114-154 | Missing or differing passwords give 400; an unknown code gives 404; an absent or past expiry gives 400. Errors change nothing; otherwise the admin is reset |
| AdminAuth.OtpWindowInclusive | Admin/authControllers.js:137 | A code is usable exactly up to and including its expiry instant |
| AdminAuth.AdminForgotThenReset | Admin/authControllers.js:77-82 | The stored code finds its admin and is usable for the whole 15 minutes |
| AdminAuth.AdminResetIsSingleUse | Admin/authControllers.js:142-145 | After a reset, the code finds nobody |
| AdminAuth.GetAllUsers | Admin/authControllers.js:157-172 | One entry per user, in order, with exactly id, name and email |
| AdminAuth.ListingAgreesWithJson | Admin/authControllers.js:160-166 | Each listed entry agrees with the user's scrubbed JSON |
| Paging.QueryNumber | Admin/productControllers.js:139-140 | The parsed number unless it is NaN or 0, which give the default |
| Paging.QueryNumberRoundTrip | Admin/productControllers.js:139-140 | A non-zero number in the query is read back |
| Paging.QueryNumberAbsent | Admin/productControllers.js:139-140 | An absent parameter takes the default |
| Paging.ReadPageRequest | Admin/productControllers.js:139-141 | Page and limit are never 0, and skip = (page − 1) × limit |
| Paging.PageRequestRoundTrip | Admin/orderControllers.js:9-11 | A page and limit in the query are read back exactly |
| Paging.Window | Admin/productControllers.js:170-171 | At most n items, starting at skip, in order |
| Paging.CeilDiv | Admin/productControllers.js:180 | The ceiling of total / limit, for either sign of the limit |
| Paging.ItemOnOnePage | Admin/productControllers.js:141 | Item i falls in page p's window exactly when p = i / limit + 1 |
| Paging.ItemInWindow | Admin/productControllers.js:170-171 | Item i is at position i % limit on its page |
| Paging.ItemPageCounted | Admin/productControllers.js:180 | Every item's page is within `totalPages` |
| Paging.LastPageNonEmpty | Admin/orderControllers.js:51 | The last counted page is non-empty and the one after it is empty |
| AdminProducts.FindProduct | Admin/productControllers.js:71-75 | Finds the first product with the id, or none exactly when no product has it |
| AdminProducts.NewProductId | Admin/productControllers.js:21 | "prod_" followed by the first 8 characters of the uuid |
| AdminProducts.NumberCast | Admin/productModel.js:7-8 | Numbers cast to themselves and digit strings to their value; undefined and null are not numbers |
| AdminProducts.NewProduct | Admin/productControllers.js:23-32 | A product exists exactly when price, stock and category cast. It keeps the body's fields, with `imageUrl` null when empty and `images` [] when absent |
| AdminProducts.PersistAsWritten | Admin/productModel.js:3-10 | The schema as written drops `imageUrl` and `images` and keeps the id, name, description, price, stock and category |
| AdminProducts.AddedImageDroppedAsWritten | Admin/productModel.js:3-10 | An image sent with a new product is lost by the schema as written |
| AdminProducts.AddedView | Admin/productControllers.js:41-54 | The response copies the product. `categoryId` is null exactly when the category does not resolve, and `categoryName` is null exactly when it does not resolve or its name is empty |
| AdminProducts.ProductCollection.Insert | Admin/productModel.js:4 | `save` appends exactly when the id is new; ids stay unique |
| AdminProducts.ProductCollection.FindOneAndUpdate | Admin/productControllers.js:71-75 | The first match takes the patch; no match changes nothing |
| AdminProducts.ProductCollection.FindOneAndDelete | Admin/productControllers.js:117 | The first match is removed and the rest keep their order |
| AdminProducts.AddProduct | Admin/productControllers.js:10-62 | 400 exactly for a falsy name, price, stock or category. 500 exactly for a cast failure or a taken id. Errors change nothing; on success the product, without the image fields the schema drops, is appended and returned with its category and no image |
| AdminProducts.AddedProductKeepsImages | Admin/productControllers.js:30-31 | With the image fields declared, the added product and its response would keep the image |
| AdminProducts.ApplyPatch | Admin/productControllers.js:73 | The patch's fields change and every other field is kept |
| AdminProducts.UpdateProduct | Admin/productControllers.js:66-109 | The trimmed id is looked up. 404 with nothing changed exactly when it is absent. Otherwise the match is patched and returned with its category name or null |
| AdminProducts.DeleteProduct | Admin/productControllers.js:112-134 | The trimmed id is looked up. 404 exactly when it is absent. Otherwise that product alone is removed |
| AdminProducts.DeleteRemovesExactlyOne | Admin/productControllers.js:117 | With unique ids, the deleted id is gone and every other id remains |
| AdminProducts.Listing | Admin/productControllers.js:181-189 | The product's fields, and the joined category name or null |
| AdminProducts.ListWindow | Admin/productControllers.js:170-171 | The listings of the window's products, in order |
| AdminProducts.PageOf | Admin/productControllers.js:176-190 | Page, limit, total, `ceil(total / limit)`, and at most `limit` listings starting at skip |
| AdminProducts.GetProducts | Admin/productControllers.js:137-198 | 500 exactly for a negative skip or limit; otherwise the page |
| AdminProducts.DefaultListingIsFirstTen | Admin/productControllers.js:139-140 | Without parameters, page 1 lists the first ten products |
| AdminProducts.EveryProductListedOnce | Admin/productControllers.js:139-189 | Product i is on page i / limit + 1, at position i % limit, within `totalPages` |
| AdminOrders.NewestFirst | Admin/orderControllers.js:17 | A permutation of the orders, sorted by `createdAt` descending |
| AdminOrders.InsertBehindHead | Admin/orderControllers.js:17 | Inserting an older order behind a list's head keeps the list sorted |
| AdminOrders.FindUserById | Admin/orderControllers.js:16 | `populate` finds the referenced user, or none exactly when no user has that id |
| AdminOrders.ItemView | Admin/orderControllers.js:37-43 | An item's fields, with `imageUrl` null when empty or absent |
| AdminOrders.OrderView | Admin/orderControllers.js:24-44 | `orderId` is the order code. User id, email and name are null when the user does not resolve, and an empty email or name is null |
| AdminOrders.OrdersPageOf | Admin/orderControllers.js:48-54 | Page, `ceil(totalOrders / limit)`, and the views of the newest-first window |
| AdminOrders.GetPaginatedOrders | Admin/orderControllers.js:7-62 | 500 exactly for a negative skip; otherwise the page |
| AdminOrders.PageIsNewestFirst | Admin/orderControllers.js:17-19 | A listed page runs from newest to oldest |
| AdminOrders.ViewWindowNewestFirst | Admin/orderControllers.js:17-19 | The views of a window of a sorted list are sorted |
| AdminOrders.ListedOrdersAreStored | Admin/orderControllers.js:15-24 | Every listed entry is the view of a stored order |
| AdminOrders.SortedEntryStored | Admin/orderControllers.js:17 | Sorting keeps every order |
| AdminOrders.EveryOrderListedOnce | Admin/orderControllers.js:9-51 | Order i of the newest-first list is on page i / limit + 1, at position i % limit, within `totalPages` |
| Upload.Destination | Admin/upload/middlewares/uploadMiddleware.js:8 | "json" exactly for `application/json`, else "images" |
| Upload.FileFilter | Admin/upload/middlewares/uploadMiddleware.js:24-31 | Accepted exactly when the MIME type is in the allowlist |
| Upload.AcceptedFileFolder | Admin/upload/middlewares/uploadMiddleware.js:8-25 | An accepted file goes to "images" exactly when it is one of the three image types |
| Upload.Sanitise | Admin/upload/middlewares/uploadMiddleware.js:19 | The scan's output contains no whitespace and is no longer than its input |
| Upload.SafeName | Admin/upload/middlewares/uploadMiddleware.js:19 | The safe name contains no whitespace |
| Upload.SafeNameKeepsPlainName | Admin/upload/middlewares/uploadMiddleware.js:19 | A name without whitespace is unchanged |
| Upload.RunAbsorbed | Admin/upload/middlewares/uploadMiddleware.js:19 | Inside a run, further whitespace adds nothing |
| Upload.RunClosed | Admin/upload/middlewares/uploadMiddleware.js:19 | Text that starts with a non-space scans the same whether or not a run was open |
| Upload.SanitiseSplits | Admin/upload/middlewares/uploadMiddleware.js:19 | A part that ends in a non-space is sanitised on its own |
| Upload.RunBecomesOneUnderscore | Admin/upload/middlewares/uploadMiddleware.js:19 | Each maximal whitespace run becomes exactly one `_`, and the parts around it are kept |
| Upload.StoredName | Admin/upload/middlewares/uploadMiddleware.js:20 | The prefix, a dash, then the safe name |
| Upload.UniquePrefixReadsBack | Admin/upload/middlewares/uploadMiddleware.js:18 | The prefix is digits around its only dash; the part before reads back as the timestamp and the part after as the draw, so it has no whitespace |
| Upload.StoredNameHasNoSpaceAfterPrefix | Admin/upload/middlewares/uploadMiddleware.js:17-21 | The stored name has no whitespace after its prefix |

## Left out

- HTTP routing, Swagger documentation, JWT signing and verification, and logging are not modelled. Responses are reduced to a status class and the body's data.
- bcrypt, SHA-256 and uuid are function parameters. Salts are not modelled: `hash` is one fixed function and `compare` is a parameter.
- `Date.now()` and `Math.random()` are parameters (`now`, `draw`, the unique prefix).
- The SMTP exchange of `utils/sendEmail.js` is a boolean. `UserController.MailSent` models the argument check before it, and `delivered` stands for the exchange.
- UserController.ForgotPassword: the outcome of its mail is the boolean `mailSent`. Its mail passes the argument check (`UserController.ResetMailSentWhenDelivered`), so `mailSent` is the transport's outcome.
- The disk side of uploads (`mkdirSync`, multer's own writes and error handling) is not modelled.
- The category collection (`Admin/categoryModels.js`) is not part of this model. The category joins are lookup functions given as parameters.
- The casts to an object id are the parameter `isObjectId`. This covers a new product's `categoryId`, an order's `userId` and the id `getUserOrders` queries with. The 12-byte string form of an object id is not distinguished.
- PlaceOrder.PlaceOrder: creates the order from the corrected payload. That payload takes `orderCode` as a parameter and leaves `status` to the hook. As written, the payload has no `orderCode` (`PlaceOrder.PayloadWithoutCodeRefused`), so every request that reaches `Order.create` answers 500; no code generates an order code.
- Js.ToLower: lowercases ASCII letters only, while `toLowerCase` maps every Unicode letter. The email lookups that use it differ from the source for non-ASCII emails: `Js.LowerTrim`, `UserModel.UserCollection.FindOneByEmail`, `UserModel.UserCollection.Create` and `AdminAuth.LoginAdmin`.
- A `$lookup` that matches several categories would duplicate a product under `$unwind`. The model joins at most one category.
- `toFixed(2)` rounding is not modelled; amounts are exact integers.
- NaN appears only as a failed cast (`None`). `Number(x) || 0` on stored values is not needed, because stored amounts are numbers.
- AdminProducts.NumberCast: casts numbers, booleans and plain digit strings only. A sign, a decimal point, surrounding spaces or a hex string is treated as a cast failure. Undefined and null give `None`, where Mongoose would leave them as they are. Neither reaches the cast, because `addProduct` answers 400 for them first.
- Request fields other than the cart's `productId`, price and quantity and `addProduct`'s `price` and `stock` are strings here. A JSON number, boolean, object or array in another field, which makes a built-in throw and the controller answer 500, is not modelled. The next three lines name the members this affects.
- UserController.ResetPassword: a non-string `OTP` makes `crypto.createHash("sha256").update(OTP)` throw (controllers/userController.js:206, nodeProject/controllers/userController.js:182), so the source answers 500. The model, given the same code as a string, resets the password.
- AdminAuth.LoginAdmin: a non-string `email` makes `email.toLowerCase()` throw (Admin/authControllers.js:20), and a non-string `password` makes `bcrypt.compare` throw (Admin/authControllers.js:27). The source then answers 500, where the model answers with its string-based ladder.
- UserController.RegisterUser: a non-string `password` makes `bcrypt.hash` throw (nodeProject/controllers/userController.js:22), so the source answers 500; the model hashes every supplied string.
- `Order.find().limit(n)` with a negative `n` is modelled as a single batch of |n| orders.
- Orders with equal `createdAt` keep their stored order. The database's order for ties is unspecified.
- Response fields that only echo database identifiers are not modelled: `mongoId`, `updatedAt`, and the raw `_id` of populated references.
- An update body is a patch of the product's own fields. A body that changes `productId`, or fails a cast, is not modelled.
- AdminAuth.LoginAdmin: an admin stored without a password (bcrypt throws, 500) is not modelled; `compare` is total.
- The load-modify-save race between concurrent requests is not modelled. Every controller runs alone.
- `loginUser`, `getProfile`, `getUserById` and the root copy of `registerUser` are not modelled. `registerUser` follows the nodeProject copy.
- A lookup with `email: undefined` (an absent email in `registerUser`) matches like the empty string here. MongoDB would match documents without an email.
- `Admin/orderModel.js` is not used by the modelled controllers, and `createAdmin.js` is a one-off script. Neither is modelled.
- A body `items` list can never be missing here, so the `|| []` fallback of the admin order projection always has a list.

## Findings

| source | as written | input that shows it | evidently intended | confidence | as-written member | corrected member |
|---|---|---|---|---|---|---|
| controllers/placeOrderController.js:48 | The payload sets `status` to "Successful" for a successful payment. That is not a value of the status enum (models/orderModel.js:33-37), and validation runs before the pre-save hook, so the order is refused with 500 | `paymentStatus: "Successful"` | Leave `status` to the hook, which maps Successful to Delivered | medium, not executed | PlaceOrder.PayloadStatusRejected | PlaceOrder.Payload |
| models/userModel.js:68-73 | The hook takes the candidate from `$set.password` only when it is neither undefined nor null, but writes the hash to `$set.password` whenever that is not undefined. A null `$set.password` therefore receives the hash of the top-level password, and the plain top-level password stays in the update | `{ $set: { password: null }, password: "secret" }` | Write the hash back to the field the candidate came from | medium, not executed | UserModel.NullSetLeavesPlainPassword | UserModel.NullSetCorrected |
| controllers/placeOrderController.js:40-51 | The payload passed to `Order.create` has no `orderCode`, which the schema requires (models/orderModel.js:5-9), so every order is refused with 500 | any request with a cart or `cartItems` | Generate a unique order code and pass it in the payload | high, not executed | PlaceOrder.PayloadWithoutCodeRefused | PlaceOrder.PlaceOrder |
| Admin/authControllers.js:89-94 | `adminForgotPassword` calls `sendEmail` with `otp` and `userRole` but no `html`. `sendEmail` throws on a missing html (utils/sendEmail.js:15-17), so every request for an existing admin answers 500 after storing the code | any stored admin's email | Pass the html body, as the user flow does | high, not executed | AdminAuth.AdminOtpMailRefused | AdminAuth.AdminOtpMailWithHtml |
| Admin/productControllers.js:30-31 | `addProduct` sets `imageUrl` and `images`, but the product schema (Admin/productModel.js:3-10) declares neither, so strict mode drops both and the response shows no image | `imageUrl: "a.png"` | Keep the images the product is added with | high, not executed | AdminProducts.AddedImageDroppedAsWritten | AdminProducts.AddedProductKeepsImages |
