# Shop API business rules in Dafny

A model of the business rules of an Express + Mongoose shop API: users,
products, categories, carts and orders. Each controller action is a pure
function from a store and a request to a new store and an HTTP status with
a body. Actions that only read return just the response. With that shape,
the order of the 400/401/403/404/500 checks is visible in the contracts, and
so is "a rejected request leaves the store as it was".

Module layout, one module per source concern:

- `Values` (`values.dfy`): `Option`, request JSON values with JavaScript truthiness and `Number()`, and the status codes.
- `Collection` (`collection.dfy`): a collection in the store's natural order. It has `findById`, `findOne` and `find` lookups and the primary-key invariant.
- `Records` (`records.dfy`): the record shapes of the Mongoose schemas, plus the store and its index invariants (`Indexed`).
- `Auth` (`auth.dfy`): caller identity and the authorization predicates. It also has stand-ins for bcrypt and the token check.
- `Pricing` (`pricing.dfy`): the order's `calcularSubtotal`, `calcularTotal` and pre-save hook, and the cart-total estimate.
- `CartOps`, `OrderOps`, `ProductOps`, `UserOps`, `CategoryOps`: the five controllers.

Modelling choices:

- A collection is a sequence of `Doc(id, value)` in insertion order.
  - `findOne` returns the first match.
  - The store's unique indexes are invariants, not assumptions. Every mutating action proves `Indexed(s) ==> Indexed(s')`. `Indexed` covers distinct `_id`s, one cart per user, unique emails and unique category names.
- Every new `_id` is a parameter. An id that is already taken is a duplicate-key 500, as the database would answer.
- Request bodies use `Json` for fields whose truthiness or numeric value matters. Text fields use `string`, with `""` standing for an absent field (both are falsy).
- The caller identity is a `Claims` value. The handlers read it from `req.user`, which no mounted middleware sets. A token is represented by the claims it carries.
- Product creation, update and delete verify the header through `verifyHeaderTokenAndVerify`, which the token service does not define. Its outcome is therefore a parameter, `AuthHeader`. When verification fails it returns a truthy error string (`ErrorText`), which passes the handlers' `!verified` check and then fails the role check.
- Product creation also calls `verifyRoleDecoded`, which is not defined either. `CreateGate` reads it as "the decoded role is ADMIN", the check that update and delete spell out.
- Prices are integers, for example cents.

Where the design intent and the code differ, the model follows the code:

- Any caller may set an order's state, from any state. No state is terminal.
- Order lines hold no snapshot of the product name.
- An admin may not read or delete another user's cart.
- `src/model/Order.js` does not load (it imports `mongooose` but uses `mongoose`). The model gives its methods the semantics they evidently have.
- Even with that import fixed, Mongoose validates an order before it runs the schema's own pre-save hook. A line's `subtotal` is required, and only the hook sets it. As written, no checkout can succeed. `OrderOps.CreateAsWritten` models that; `OrderOps.Create` runs the hook first, as intended (see Findings).
- The `estado` enum of `Order.js` lists no CANCELADO. The state update still stores CANCELADO, because `findByIdAndUpdate` runs no validators.
- Stock and cart quantities are not forced to be positive integers. A negative stock through `updateStock` and a negative cart quantity through `update` are both accepted. `MergeNegativeBreaksMinimum` shows the cart case.

## Model

| member | source | states |
|---|---|---|
| Values.ParseNumber | src/controllers/productController.js:116-117 | `Number()` of a query string: "" is 0, a run of digits is its decimal value, a non-numeric string is NaN |
| Values.TextNumberRoundTrip | src/controllers/productController.js:116-117 | every integer written in decimal reads back as itself, so a numeric bound is taken at face value |
| Records.ParseRole | src/model/User.js:16 | an absent role defaults to CLIENT; a given role, the empty string included, is accepted exactly when it is CLIENT or ADMIN, and maps back to its name |
| Records.ParseState | src/controllers/orderController.js:118-119 | a state is accepted exactly when it is one of the four names, and it maps back to that name |
| Records.ParseStateName | src/controllers/orderController.js:118 | every order state is accepted under its own name |
| Auth.MatchesOnlyOwnHash | src/services/password.js:33 | a password matches its own hash; another matches exactly when it agrees on the first 72 characters, so among passwords of at most 72 characters only the password itself matches |
| Auth.LongPasswordsCollide | src/services/password.js:33 | two different passwords that agree on their first 72 characters match the same hash |
| Auth.CreateGate | src/controllers/productController.js:28-32 | 401 without a header or on a falsy verification, 403 for a non-admin or an error string; passes exactly the admins |
| Auth.EditGate | src/controllers/productController.js:58-62 | every refusal is a 403; passes exactly the admins |
| Auth.GatesAgree | src/controllers/productController.js:90-94 | the create gate and the update/delete gate admit the same callers |
| Pricing.PriceOf | src/model/Order.js:43-45 | a price exists exactly for a product that is in the store, and it is that product's current `precio` |
| Pricing.CalcSubtotal | src/model/Order.js:42-47 | a missing product fails and assigns no subtotal; otherwise subtotal = price × quantity, and the line is otherwise unchanged |
| Pricing.CalcTotal | src/model/Order.js:54-61 | succeeds exactly when every line's product exists; each line gets its subtotal, and the total is the fold of the subtotals |
| Pricing.PreSave | src/model/Order.js:67-69 | every save fails or sets a total, keeping the line count |
| Pricing.CalcTotalIsAmount | src/model/Order.js:54-61 | the hook's total is Σ current price × quantity, and 0 for an order without lines |
| Pricing.PreSaveOverwrites | src/model/Order.js:67-69 | a previously held total or subtotal has no effect: saving recomputes both from current prices |
| Pricing.PriceItem | src/controllers/cartController.js:233-241 | a priced line carries the product's current name and unit price, the quantity, and their product; a deleted product fails |
| Pricing.CartTotal | src/controllers/cartController.js:233-244 | pricing succeeds exactly when every product exists, keeps line order and count, and prices each line |
| Pricing.CartTotalIsAmount | src/controllers/cartController.js:244 | the estimate's total is Σ current price × quantity over the cart's lines |
| CartOps.LineIndex | src/controllers/cartController.js:63-65 | the first line for the product, or none exactly when no line has it |
| CartOps.Merge | src/controllers/cartController.js:63-73 | a present product gets its first line's quantity increased and nothing else changes; an absent one is appended as one new line |
| CartOps.MergeQuantity | src/controllers/cartController.js:63-73 | the merged product's total quantity grows by exactly `cantidad`, and every other product's is unchanged |
| CartOps.MergeKeepsUnique | src/controllers/cartController.js:63-73 | a list with one line per product keeps that shape; the length grows by one exactly when the product was absent |
| CartOps.MergeTwice | src/controllers/cartController.js:63-73 | adding a then b of a product equals adding a + b |
| CartOps.MergeKeepsPositive | src/model/Cart.js:5 | merging a positive quantity keeps every line at quantity ≥ 1 |
| CartOps.MergeNegativeBreaksMinimum | src/controllers/cartController.js:55-73 | a quantity below 1 for a new product, or one that takes an existing line below 1, passes the falsy check and yields a line below the schema's minimum |
| CartOps.MergeAmount | src/controllers/cartController.js:63-73 | after a merge, the cart's estimated total grows by exactly price × `cantidad` |
| CartOps.CartOfUser | src/controllers/cartController.js:27 | the first cart of the user, or none exactly when the user has none; it is unique under the unique index |
| CartOps.NameLine | src/controllers/cartController.js:136-139 | a shown line is the product's name and the quantity; a deleted product fails |
| CartOps.View | src/controllers/cartController.js:136-146 | the simplified cart keeps id, owner, line order and count; each line is its product's current name and its quantity; a deleted product fails |
| CartOps.RemoveAtKeepsOneCart | src/model/Cart.js:9 | removing a cart keeps one cart per user, and its owner has none left |
| CartOps.Create | src/controllers/cartController.js:19-42 | 400 without user, 404 for an unknown user, 400 if the user has a cart; else one new empty cart of that user, invariants kept |
| CartOps.Update | src/controllers/cartController.js:50-94 | 400 for a falsy product or quantity (including 0), 404 for an unknown cart; else only that cart's lines change, by `Merge` |
| CartOps.Delete | src/controllers/cartController.js:102-118 | 404 before 403 (owner only, no admin exception); else exactly that cart is removed |
| CartOps.GetById | src/controllers/cartController.js:186-214 | 404, then 403 for a non-owner, then 500 when a product is gone; succeeds exactly otherwise, with the owner's simplified cart |
| CartOps.GetCartByUser | src/controllers/cartController.js:126-151 | 404 when the user has no cart, 500 when a product is gone; succeeds exactly otherwise, with that user's simplified cart and no ownership check |
| CartOps.GetAll | src/controllers/cartController.js:159-178 | every cart in order, each as its own simplified view; a 500 exactly when some line's product is gone |
| CartOps.GetCartTotal | src/controllers/cartController.js:222-257 | 404 without a cart, 500 when a product is gone, and success exactly otherwise; each line priced in order, and the total equals Σ price × quantity |
| CartOps.CreateThenRead | src/controllers/cartController.js:30-33 | a new cart reads back as the user's cart, empty, with total 0 |
| CartOps.UpdateThenGetById | src/controllers/cartController.js:63-73 | after an update, the owner reads back the merged lines, named, while every product exists |
| CartOps.CreateThenGetAll | src/controllers/cartController.js:30-33 | a new cart is listed last by `getAll`, empty, and the listing fails exactly when it failed before |
| OrderOps.ConvertLines | src/controllers/orderController.js:29-32 | the order lines are the cart lines in order, same product and quantity, no subtotal yet |
| OrderOps.Draft | src/controllers/orderController.js:34-39 | the unsaved order is the user's, PENDIENTE, with the payment method, the cart's lines and no total |
| OrderOps.SaveDraft | src/model/Order.js:13-16 | saving prices the draft exactly when every product exists; it then validates exactly with a payment method and every quantity ≥ 1, at total Σ price × quantity |
| OrderOps.Create | src/controllers/orderController.js:19-48 | 404 without a cart, 400 for an empty one, 500 for any failed save; succeeds exactly for a non-empty cart whose products exist, with quantities ≥ 1, a payment method and a free id. Then a PENDIENTE order of the user with the same lines and total Σ price × quantity is stored, and the cart is deleted. Any failure changes nothing |
| OrderOps.CreateAsWritten | src/model/Order.js:13-17 | as written, validation runs before the pricing hook: 404 and 400 as before, and any success is the intended one |
| OrderOps.CreateAsWrittenRefusesEveryCart | src/model/Order.js:16 | as written, every non-empty cart gets a 500 and stays in place, including every cart the intended create converts |
| OrderOps.ConvertedAmount | src/controllers/orderController.js:29-32 | conversion keeps which products must exist and the Σ price × quantity amount |
| OrderOps.ConversionMatchesEstimate | src/controllers/orderController.js:41 | the total frozen into a new order equals the cart-total estimate just before |
| OrderOps.UpdateState | src/controllers/orderController.js:113-133 | 400 for a name outside the whitelist before any lookup, 404 for an unknown id; else only `estado` changes, from any state |
| OrderOps.UpdateStateIdempotent | src/controllers/orderController.js:123 | setting the same state twice equals setting it once |
| OrderOps.GetById | src/controllers/orderController.js:92-105 | 400 for an empty id, 404 for an unknown one, else that order |
| OrderOps.Delete | src/controllers/orderController.js:140-151 | 404 for an unknown id; else exactly that order is removed |
| OrderOps.CountsCoverAll | src/controllers/orderController.js:161-169 | every order is in exactly one state: the four counts add up to the number of orders |
| OrderOps.CountPositive | src/controllers/orderController.js:161-169 | a state's count is positive exactly when some order is in it |
| OrderOps.RankFollowsNames | src/controllers/orderController.js:168 | the rank of the states is the ascending order of their names |
| OrderOps.Bucket | src/controllers/orderController.js:162-167 | one group per state that occurs, holding that state's count |
| OrderOps.Stats | src/controllers/orderController.js:161-169 | each row's count is the number of orders in that state; a state is listed exactly when it has orders; rows ascend |
| OrderOps.BucketsListed | src/controllers/orderController.js:161-169 | the groups list exactly the states that have orders |
| OrderOps.StatsSummary | src/controllers/orderController.js:161-169 | the counts sum to the number of orders, the names ascend byte-wise, a state is listed exactly when an order is in it |
| OrderOps.StatsTotal | src/controllers/orderController.js:161-169 | the counts sum to the number of orders |
| OrderOps.ByUser | src/controllers/orderController.js:183-202 | 404 exactly when the user has no order; else exactly that user's orders in collection order, each as often as the collection holds it |
| OrderOps.CreateThenGetById | src/controllers/orderController.js:41-44 | a new order reads back by its id |
| OrderOps.CreateThenByUser | src/controllers/orderController.js:41-44 | a new order comes last in its user's order list, after the orders listed before |
| OrderOps.ScenarioCart | src/controllers/cartController.js:63-73 | adding 2 then 3 units of one product to a new cart gives one line of 5 |
| OrderOps.ScenarioCheckout | src/controllers/orderController.js:19-48 | checking out one line of 5 at price 1000 gives subtotal and total 5000, state PENDIENTE, and no cart |
| ProductOps.CreateChecks | src/controllers/productController.js:34-36 | 400 exactly when name, price, stock or brand is falsy, or price or stock is non-numeric or negative |
| ProductOps.Create | src/controllers/productController.js:26-55 | gate, then 400 checks; succeeds exactly when, besides those, description, reviews and category are all given, storing the numeric price and stock |
| ProductOps.Insert | src/controllers/productController.js:42-51 | a product is stored under a new id and answered with 201; a taken id is a 500 and stores nothing |
| ProductOps.CreateWithoutDescriptionFails | src/controllers/productController.js:38-40 | an admin's otherwise valid product without a description gets a 500 and nothing is stored |
| ProductOps.CreateWithDefaults | src/controllers/productController.js:38-50 | as create was meant: the same checks, then "Sin descripción", no reviews and no category replace missing fields |
| ProductOps.GetById | src/controllers/productController.js:16-25 | 404 for an unknown id, else that product |
| ProductOps.CreateThenGet | src/controllers/productController.js:42-51 | a created product reads back by id with the price and stock it was given |
| ProductOps.ApplyPatch | src/controllers/productController.js:65-81 | each of name, price, description, stock, brand and category is set exactly when given (truthy); reviews never change |
| ProductOps.PatchIdempotent | src/controllers/productController.js:65-81 | a patch applied twice equals it applied once; an empty patch changes nothing |
| ProductOps.Update | src/controllers/productController.js:56-87 | 403 for any refusal; 400 for a bad price, then for a bad stock, before the lookup; 404; else only that product changes, by the patch |
| ProductOps.Delete | src/controllers/productController.js:88-106 | 403 changes nothing; otherwise every review of the product is deleted and every other review kept, even on the 404; then exactly that product is removed |
| ProductOps.Filter | src/controllers/productController.js:107-124 | 400 without either bound, 500 for a bound that is not a number; else exactly the products within both bounds and of the brand if given, in collection order |
| ProductOps.FilterMonotone | src/controllers/productController.js:116-118 | widening the price range or dropping the brand loses no product |
| ProductOps.UpdateStock | src/controllers/productController.js:125-142 | 400 for a missing, null or non-numeric stock, 404; else only that product's stock changes, to any number |
| ProductOps.InsertByReviews | src/controllers/productController.js:155 | insertion adds exactly the one document |
| ProductOps.InsertKeepsOrder | src/controllers/productController.js:155 | insertion keeps a list sorted by review count, most first |
| ProductOps.SortByReviews | src/controllers/productController.js:155 | the sort is a permutation of its input |
| ProductOps.SortOrders | src/controllers/productController.js:155 | the sort orders by review count, most first |
| ProductOps.PrefixDominates | src/controllers/productController.js:155-157 | in a sorted list, what lies past the first n has no more reviews than any of those n |
| ProductOps.Top | src/controllers/productController.js:145-158 | min(10, number of reviewed products) results, drawn from the reviewed products with no product listed more often than the store holds it |
| ProductOps.TopFromStore | src/controllers/productController.js:146-149 | every listed product is a product of the store with at least one review |
| ProductOps.TopSorted | src/controllers/productController.js:155 | the listed products come most reviews first |
| ProductOps.TopDominates | src/controllers/productController.js:155-157 | every reviewed product left out has no more reviews than any listed one |
| UserOps.NormaliseAddresses | src/controllers/userController.js:25-29 | an array is kept, another truthy value becomes a singleton, a falsy one the empty list |
| UserOps.NormaliseIdempotent | src/controllers/userController.js:25-29 | normalising a normalised list changes nothing, and no address is invented |
| UserOps.UserWithEmail | src/controllers/userController.js:150 | the first user with the email, or none exactly when no user has it; unique under the unique index |
| UserOps.UniqueEmailsAppend | src/model/User.js:12 | adding a user with an unused email keeps emails unique |
| UserOps.UniqueEmailsSet | src/model/User.js:12 | changing a user to an email no other user holds keeps emails unique |
| UserOps.UniqueEmailsRemove | src/model/User.js:12 | removing a user keeps emails unique |
| UserOps.Create | src/controllers/userController.js:19-48 | every failure is a 500 that changes nothing, an empty role included; success stores the hash, never the password, and answers name, email and normalised addresses |
| UserOps.CreateResponseIgnoresPassword | src/controllers/userController.js:41-44 | the sign-up answer is the same whatever the password |
| UserOps.GetAll | src/controllers/userController.js:50-60 | 403 unless admin; else every user in order, with no password field |
| UserOps.CreateThenGetAll | src/controllers/userController.js:39 | a new user is listed last by an admin's `getAll`, with no password field |
| UserOps.GetById | src/controllers/userController.js:62-75 | 403 unless owner or admin, before the lookup; 404; else exactly name and email |
| UserOps.ApplyPatch | src/controllers/userController.js:86-93 | name, email and password (hashed) change exactly when given; phone, role and addresses never |
| UserOps.Update | src/controllers/userController.js:77-126 | 403 unless owner or admin, 404, 500 for an email held by another user; else only that user changes, by the patch |
| UserOps.PatchIdempotent | src/controllers/userController.js:86-99 | a patch applied twice equals it applied once; an empty patch changes nothing |
| UserOps.Delete | src/controllers/userController.js:128-144 | 403 unless owner or admin, 404; else exactly that user is removed, invariants kept |
| UserOps.PayloadOf | src/controllers/userController.js:157-162 | the token payload is the user's id, name, email and role |
| UserOps.Login | src/controllers/userController.js:146-180 | every failure is the same 401; success exactly for a known email with a matching password, with the payload of that user |
| UserOps.LoginFailuresAlike | src/controllers/userController.js:150-155 | an unknown email and a wrong password give identical responses |
| UserOps.CreateThenLogin | src/controllers/userController.js:150-163 | a user who has just signed up logs in with that password and gets their own id, name, email and role |
| UserOps.LoginThenOwnAccess | src/controllers/userController.js:64 | a login's token reads its own user's name and email, and a client's token is refused on another user |
| UserOps.UpdateThenLogin | src/controllers/userController.js:90-93 | after a password change the new password logs in, and another one logs in exactly when it agrees with it on the first 72 characters |
| UserOps.Logout | src/controllers/userController.js:182-197 | 403 when the body email is not the caller's, 404 when no user has it, else success |
| UserOps.LoginThenLogout | src/controllers/userController.js:186-187 | the token of a login passes logout's email check for that email |
| CategoryOps.CategoryNamed | src/model/Category.js:9 | the first category with the name, or none exactly when no category has it |
| CategoryOps.UniqueNamesAppend | src/model/Category.js:9 | adding a category with an unused name keeps names unique |
| CategoryOps.UniqueNamesSet | src/model/Category.js:9 | renaming to a name no other category holds keeps names unique |
| CategoryOps.UniqueNamesRemove | src/model/Category.js:9 | removing a category keeps names unique |
| CategoryOps.Create | src/controllers/categoryController.js:47-61 | 400 without a name, 500 for a taken name; else one new category, its description defaulting to "Sin descripción", with no products |
| CategoryOps.GetById | src/controllers/categoryController.js:31-39 | 404 for an unknown id, else that category |
| CategoryOps.CreateThenRead | src/controllers/categoryController.js:52-57 | a new category reads back by its id and is listed last by `getAll` |
| CategoryOps.ApplyPatch | src/controllers/categoryController.js:73-76 | name and description change exactly when given; the product list never |
| CategoryOps.Update | src/controllers/categoryController.js:69-85 | 404, 500 for a name held by another category; else only that category changes, by the patch |
| CategoryOps.UpdateIdempotent | src/controllers/categoryController.js:75-78 | updating twice with the same fields equals updating once; an empty update changes nothing |
| CategoryOps.Delete | src/controllers/categoryController.js:92-102 | 404; else exactly that category is removed |
| CategoryOps.Stats | src/controllers/categoryController.js:110-131 | one row (name, product count) per category with products, and no other rows |
| CategoryOps.StatsCoverAll | src/controllers/categoryController.js:112-122 | the counts add up to all product entries of all categories |
| CategoryOps.StatsEmpty | src/controllers/categoryController.js:114 | the stats are empty exactly when no category lists a product |
| CategoryOps.CreateKeepsStats | src/controllers/categoryController.js:52-55 | a new category adds no stats row |

## Left out

- Routing, Express, the app and database setup, and the authentication middleware are not modelled. So are the review controller and timestamps. Each action is modelled as one atomic request.
- bcrypt and JSON Web Tokens are library calls. `Hash` is a stand-in that keeps bcrypt's 72-byte limit and is otherwise injective. A token is represented by its claims. Salts, token expiry and signatures are not modelled.
- Product create, update and delete call a header-verification helper that the token service does not define. Its result is the `AuthHeader` parameter.
- The `$lookup` joins and `populate` are not modelled. So are the user join of the order listing and the review details attached to top products. Only filter, sort, limit and count are modelled.
- A malformed ObjectId is not modelled. Mongoose rejects one with a cast error (a 500); here ids are arbitrary strings.
- Values.ParseNumber: reads only integers with an optional sign. Other strings that JavaScript's `Number()` accepts count as NaN here, such as "5.0", " 5 ", "1e3", "0x10" and "Infinity". So `ProductOps.Create` and `ProductOps.Update` answer 400, and `ProductOps.Filter` answers 500, where the source accepts such a value. Prices are integers, for example cents, so fractional prices are out of scope.
- Concurrent requests are left out. That includes the read-modify-write race in the cart update.
- Order listing (`getAll`) is left out because it is a pure join projection.
- Product `getAll` is a plain projection of the collection and is left out. Category `getAll` is modelled, and `CategoryOps.CreateThenRead` is its read-after-write property.
- Values.ToNumber: arrays and objects are always NaN. In JavaScript, `[]` and `[5]` convert to numbers.
- CartOps.Update: the quantity is an integer. In the source, `+` concatenates when the body sends the quantity as a string, so a line of 2 plus `cantidad: "3"` is stored as 23. That is not modelled.
- ProductOps.UpdateStock: an empty-string stock is taken as 0. Mongoose would store `null`.
- ProductOps.Top: among products with equal review counts the model keeps collection order, where the database may return any order; the proved properties do not depend on that choice.
- Auth.MatchesOnlyOwnHash: bcrypt's limit is 72 bytes of UTF-8, and the model counts 72 characters. The two agree for ASCII passwords only.
- UserOps.UpdateThenLogin: it inherits the characters-for-bytes reading of bcrypt's 72-byte limit.
- UserOps.Login: an absent email or password is taken as a value that matches no user. A missing password would make the comparison throw, which is a 500 in the source.
- UserOps.Create: the message text of each 500 is not the database's. Only the status and the store are modelled.
- OrderOps.Create: the order's `fecha` field and the creation timestamp are not modelled.

## Findings

| source | as written | input that shows it | evidently intended | confidence | as-written member | corrected member |
|---|---|---|---|---|---|---|
| src/model/Order.js:16 | a line's `subtotal` is required, but only the pre-save hook (lines 67-69) sets it, and Mongoose validates before it runs that hook, so every save of a converted cart fails validation and checkout answers 500 | a user whose cart holds one line of 5 units of an existing product checks out with `metodoPago: "tarjeta"` | the hook prices the lines first, and the order is stored with its subtotals and total | high (not executed) | OrderOps.CreateAsWrittenRefusesEveryCart | OrderOps.Create |
| src/controllers/productController.js:38-40 | the defaults for a missing description, reviews or category are assigned to `const` bindings, which throws a TypeError, so the request ends in a 500 | an admin creates `{nombre: "Mate", precio: 1999, stock: 5, marca: "Acme", reviews: [], categoria: "cat"}` with no description | the product is created with description "Sin descripción", no reviews and no category | high (not executed) | ProductOps.CreateWithoutDescriptionFails | ProductOps.CreateWithDefaults |
