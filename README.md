# FoodExpress ordering: a Dafny model

FoodExpress is a single-restaurant food-ordering web application. Customers
browse a menu by category, fill a cart, place orders, follow an order's
progress and rate a delivered order. The restaurant owner manages the menu and
moves each order along a fixed pipeline: pending, accepted, preparing,
out-for-delivery, delivered. A pending order may instead be cancelled.

This project models three parts of the system and proves properties about them.

- **The customer client's cart and menu logic** (`cart.dfy`, module `Cart`).
  This covers `addToCart`, `removeFromCart`, `updateQuantity`, the cart total,
  the body that `placeOrder` sends, the category bar and the category filter.
  Each is a pure function over sequences, as in the client, which builds a new
  array every time.
- **The order lifecycle** (`order_status.dfy`, module `OrderStatus`). The six
  statuses form a closed datatype. `NextOffered` gives the buttons the owner
  dashboard shows. `TrackingShown`, `ActiveSteps` and `FeedbackOffered` give
  what the customer's order card shows. The proofs show that the offered
  buttons are exactly the edges of the pipeline, plus the pending-to-cancelled
  exit. An order moved only through those buttons, each pressed on its current
  status, never skips a status.
- **The backend's route handlers** (`store.dfy`, module `Store`; the record
  types are in `schema.dfy`, module `Schema`). They are methods and functions
  on a `RecordStore` class. The class holds one map per collection (users,
  foods, orders) keyed by a `nat` id, plus an id counter. Handlers that write
  are methods whose `ensures` give the whole new state. Login and the listings
  only read, so they are functions of the store's contents. Timestamps are
  passed in as an `int` parameter `now`.

The backend is modelled **as written**, which is permissive:

- Status updates and feedback overwrite the order without any check.
- Both report success when the id is unknown.
- The order total is stored as the client submitted it.
- Deleting a missing menu item reports success.

A hardened design would reject an update that is not a pipeline edge. It would
reject feedback on an undelivered or already-rated order, and it would
recompute the total. The code does none of these things, and the model follows
the code. `PayloadTotalMatchesItems` proves instead that the client always
sends a total equal to the sum over the line items it sends.

`wrappers.dfy` holds `Option` and the `{success, message, payload}` reply
envelope. `lists.dfy` holds the order-preserving `Filter` and `Distinct`, with
their lemmas.

Some source behaviour looks odd but is reproduced as the code has it:

- Decrementing a cart line whose quantity is 1 does not remove that line.
  `updateQuantity` keeps the old line when the new quantity would not be
  positive, so its trailing filter never drops anything from a valid cart
  (`DecrementLastUnitIsNoOp`).
- Adding an item already in the cart raises the total by the price stored in
  the cart line, not by the menu's current price (`AddExistingTotal`).
- If a menu item's category is literally `All`, the category bar shows `All`
  twice. Choosing it shows the whole menu. `CategoryBar` therefore promises
  distinctness only after the leading `All`.

## Model

| member | source | states |
|---|---|---|
| `OrderStatus.Parse` | backend/server.js:58-62 | A parsed status has exactly the given wire name; a string outside the six-value enum parses to None. |
| `OrderStatus.ParseName` | backend/server.js:58-62 | Every status's wire name parses back to that status. |
| `OrderStatus.NextOffered` | frontend/vite-project/src/App.jsx:870-909 | The owner's buttons for a status are exactly the edges of the independently written transition table: the next pipeline status, or cancelled from pending. |
| `OrderStatus.NothingOfferedIffTerminal` | frontend/vite-project/src/App.jsx:870-909 | No button is offered exactly for delivered and cancelled. |
| `OrderStatus.OfferedStepsByOne` | frontend/vite-project/src/App.jsx:870-909 | Every offered button raises the pipeline position by exactly one, unless it cancels a pending order. |
| `OrderStatus.OfferedRunFollowsPipeline` | frontend/vite-project/src/App.jsx:870-909 | A status history made only through offered buttons from pending matches the pipeline position by position, except that it may be cancelled at step 1. A cancelled history ends there, so it has exactly two entries. Every change that is not a cancel advances the pipeline position by exactly one, so no status is skipped, and the history has at most five entries. |
| `OrderStatus.DeliveredRunIsWholePipeline` | frontend/vite-project/src/App.jsx:870-909 | Such a history that ends in delivered is exactly pending, accepted, preparing, out-for-delivery, delivered. |
| `OrderStatus.TrackingShown` | frontend/vite-project/src/App.jsx:612 | The tracking panel is shown exactly for the statuses after pending on the pipeline, so never for pending or cancelled. |
| `OrderStatus.ActiveSteps` | frontend/vite-project/src/App.jsx:616-639 | There are four tracking steps, and step i is highlighted exactly when i is below the status's pipeline position, so the highlighted steps form a prefix. |
| `OrderStatus.FeedbackOffered` | frontend/vite-project/src/App.jsx:644 | The feedback form is offered exactly when the status is terminal, the tracking panel is shown and the order has no feedback yet, which means delivered and unrated. All four tracking steps are then highlighted. This client gate is the only thing that stops a second rating, because the backend overwrites feedback. |
| `Schema.InIdOrderMembers` | backend/server.js:147 | A collection scan lists exactly the records stored under ids below the counter. |
| `Schema.InsertKeepsOrder` | backend/server.js:186 | Inserting an order into a newest-first list keeps it newest first. |
| `Schema.InsertAddsOne` | backend/server.js:186 | Inserting adds exactly that one order, as a multiset. |
| `Schema.SortNewestFirst` | backend/server.js:186 | The sorted listing has non-increasing `createdAt` and is a permutation of its input. |
| `Store.FirstMatch` | backend/server.js:121 | `findOne` returns a user that is in the list and matches email, password and role. It returns none exactly when no user in the list matches. |
| `Store.FreshEmailKeepsUnique` | backend/server.js:83-97 | Adding a user whose email no stored user has keeps emails unique. |
| `Store.Inserted` | backend/server.js:484 | `insertMany` creates one record per seed entry, with consecutive ids from the counter, each stored under its own id. |
| `Store.RecordStore.constructor` | backend/server.js:72-74 | A new store has three empty collections and satisfies the store invariant. |
| `Store.RecordStore.Register` | backend/server.js:79-115 | If the email is taken, the reply is 'Email already exists' and nothing changes. Otherwise exactly one user is added with role defaulting to customer and a restaurant name only for owners. The reply echoes that user without its password, and email uniqueness is kept. |
| `Store.RecordStore.Login` | backend/server.js:117-142 | Login succeeds iff some stored user matches email, password and role exactly, and then it returns that user's public fields. Otherwise it returns 'Invalid credentials'. |
| `Store.RecordStore.MenuItems` | backend/server.js:145-152 | The menu listing holds exactly the stored food items, in strictly ascending id (insertion) order. |
| `Store.RecordStore.AddFood` | backend/server.js:154-162 | One food record is added under the next id with the fields as given, and it is returned. |
| `Store.RecordStore.DeleteFood` | backend/server.js:164-171 | The item with that id is removed if present. The reply is success either way, and a missing id changes nothing. |
| `Store.RecordStore.InitializeFood` | backend/server.js:481-487 | An empty food collection receives exactly the 30 seed items. A non-empty one is left unchanged. Afterwards the collection is non-empty, so a second run changes nothing. |
| `Store.RecordStore.CreateOrder` | backend/server.js:174-182 | One order is added under the next id. Its status defaults to pending, and its total is kept exactly as submitted. It has no feedback unless the request carries some, in which case that feedback is stored as sent. |
| `Store.RecordStore.CustomerOrders` | backend/server.js:184-191 | The listing holds exactly that customer's orders, each once, sorted by `createdAt` non-increasing. |
| `Store.RecordStore.AllOrders` | backend/server.js:193-200 | The listing holds every stored order, each once, sorted by `createdAt` non-increasing. |
| `Store.RecordStore.UpdateStatus` | backend/server.js:202-214 | Only that order's status changes, whatever it was before. An unknown id changes nothing and still reports success. |
| `Store.RecordStore.SubmitFeedback` | backend/server.js:216-234 | That order's feedback is replaced by the new rating, comment and timestamp, whatever its status and earlier feedback. Nothing else changes, and an unknown id still reports success. |
| `Cart.AddToCart` | frontend/vite-project/src/App.jsx:257-264 | After adding, the cart holds exactly its old food ids plus the added item's id. The length grows by one exactly when the id was not yet in the cart. |
| `Cart.AddExistingIncrements` | frontend/vite-project/src/App.jsx:257-260 | Adding an item already in a cart with distinct ids raises that line's quantity by exactly one. Length, order and every other line stay the same. |
| `Cart.AddNewAppends` | frontend/vite-project/src/App.jsx:261-262 | Adding an item not in the cart appends it at the end with quantity 1, and appends its id to the cart's ids. |
| `Cart.AddToCartKeepsValid` | frontend/vite-project/src/App.jsx:257-264 | Adding keeps the ids pairwise distinct and every quantity positive. |
| `Cart.AddExistingTotal` | frontend/vite-project/src/App.jsx:257-260 | Adding an item already in the cart raises the total by the price stored in its line. |
| `Cart.AddNewTotal` | frontend/vite-project/src/App.jsx:261-262 | Adding a new item raises the total by its price. |
| `Cart.RemoveFromCart` | frontend/vite-project/src/App.jsx:266-268 | The result holds exactly the lines whose id differs from the given one, so no line with that id remains. |
| `Cart.RemoveFromCartKeepsOrder` | frontend/vite-project/src/App.jsx:266-268 | Removal distributes over concatenation, so the remaining lines keep their order. |
| `Cart.RemoveFromCartTotal` | frontend/vite-project/src/App.jsx:266-268 | The new total plus the subtotal of the removed lines is the old total. |
| `Cart.RemoveFromCartKeepsValid` | frontend/vite-project/src/App.jsx:266-268 | Removal keeps the ids distinct and the quantities positive. |
| `Cart.UpdateQuantity` | frontend/vite-project/src/App.jsx:270-278 | After any update every quantity is positive. |
| `Cart.UpdateQuantityAt` | frontend/vite-project/src/App.jsx:270-278 | On a cart of positive quantities the length is unchanged. Only lines with that id change, and only when quantity plus delta is positive; otherwise they stay as they were. |
| `Cart.UpdateQuantityReplacesLine` | frontend/vite-project/src/App.jsx:270-278 | In a valid cart an update replaces at most the one line with that id. |
| `Cart.DecrementLastUnitIsNoOp` | frontend/vite-project/src/App.jsx:273-277 | Decrementing a line of quantity 1 leaves the cart unchanged; the line is not removed. |
| `Cart.UpdateQuantityKeepsValid` | frontend/vite-project/src/App.jsx:270-278 | Updates keep the ids distinct and the quantities positive. |
| `Cart.UpdateQuantityTotal` | frontend/vite-project/src/App.jsx:270-278 | An applied update moves the total by price times delta; a refused one leaves it unchanged. |
| `Cart.Total` | frontend/vite-project/src/App.jsx:446 | The cart total, folded left to right as the `reduce` does, is never negative when every price is non-negative and every quantity positive. |
| `Cart.TotalAppend` | frontend/vite-project/src/App.jsx:446 | The cart total of a concatenation is the sum of the two totals. |
| `Cart.OrderPayload` | frontend/vite-project/src/App.jsx:280-294 | The payload carries the customer's id, name, phone and address. It has one line item per cart line in cart order, each holding that line's food id, name, price and quantity. Its total is the cart total, its payment method is the one chosen, and it carries neither a status nor feedback, so an order the client places starts pending and unrated. |
| `Cart.PayloadTotalMatchesItems` | frontend/vite-project/src/App.jsx:286-292 | The submitted total equals the sum of price times quantity over the submitted line items. |
| `Cart.Dedup` | frontend/vite-project/src/App.jsx:332 | Spreading a Set yields each value of the input exactly once, and nothing else. |
| `Cart.DedupFirstOccurrenceOrder` | frontend/vite-project/src/App.jsx:332 | The distinct values appear in the order of their first occurrences. |
| `Cart.CategoryBar` | frontend/vite-project/src/App.jsx:332 | The category bar is 'All' followed by the menu's categories. Each of them appears once, and they are exactly the categories some item has. |
| `Cart.FilteredItems` | frontend/vite-project/src/App.jsx:333-335 | With 'All' selected the whole menu is shown. Otherwise the shown items are exactly those whose category equals the selection. |
| `Cart.FilteredItemsKeepsOrder` | frontend/vite-project/src/App.jsx:333-335 | Filtering distributes over concatenation, so the shown items keep the menu's order. |

## Left out

- Rendering, CSS, icons, `alert` and `confirm` in `App.jsx` are presentation only. The owner's delete confirmation is one such dialog: when it is declined, no request is sent.
- `fetch`, the API URL, `localStorage`, and the login and logout handlers that set the user and the auth-page flag (`App.jsx` lines 12-30) are browser and network I/O.
- Express, CORS, `app.listen` and the Mongoose connection are I/O plumbing. Each handler is one atomic step on the maps. The races between `findOne` and `save` in register, and between `countDocuments` and `insertMany`, are therefore not modelled.
- The `catch` branches ('Registration failed', 'Login failed', 'Failed to ...') are not modelled. Their causes are malformed ObjectIds, store errors and schema validation failures, and in the model ids are `nat` and the store cannot fail.
- The food `rating`, `image` and `description` fields are not modelled, and neither are the seed items' URLs and texts. They are stored and echoed unchanged, and no logic reads them. The seed menu keeps each item's name, category and price.
- Request bodies are stored wholesale (`new Food(req.body)` at `backend/server.js` line 156 and `new Order(req.body)` at line 176). A body may carry its own `createdAt` or its own `_id`, and the database then keeps it instead of generating one. The model always takes the timestamp from `now` and the id from the counter. A duplicate `_id` is rejected by the database and answered with 'Failed to add food item' or 'Failed to place order', and that path is not modelled either. Of the other fields, an order request keeps `status` and `feedback`, so an order can be created already rated. Fields outside the schema are not modelled.
- `OrderStatus.Parse` is not used by `Store.RecordStore.UpdateStatus`, which takes a `Status`. In the code, `findByIdAndUpdate` does not run the schema's enum validator, so an update can store any string as a status. The closed datatype cannot express such a string.
- A role outside `customer` or `owner` fails validation in register. The model's `Role` type cannot express it.
- Store.RecordStore.CustomerOrders: orders with equal `createdAt` are listed in insertion order by the model's stable sort, but the contract states only the non-increasing order. The code's sort leaves ties unspecified.
- Store.RecordStore.AllOrders: same as `CustomerOrders` for ties.
- Store.RecordStore.Login: request fields are modelled as strings and a `Role`. In the source, `express.json()` at `backend/server.js` line 10 accepts any JSON value, and line 121 passes the body's fields straight into `findOne`. Mongoose reads an object value such as `{"$ne": ""}` as a query operator, so such a password matches any stored password. The exact-match property holds only for requests whose fields are strings.
- Store.RecordStore.MenuItems: the model lists the menu in insertion (id) order. `Food.find()` at `backend/server.js` line 147 has no sort, so the real order is the database's natural order. That order is usually insertion order but is not guaranteed.
- OrderStatus.OfferedRunFollowsPipeline: assumes every button is pressed on the order's current status. The dashboard draws its buttons from the last fetched snapshot (`App.jsx` lines 722-732). A second click before the refetch in `updateOrderStatus` (lines 746-761), or a second owner tab, can send the button of an earlier status. The server applies it, because it checks no transition, so in the running system a history can leave the pipeline.
- Prices, quantities and totals are unbounded integers. JavaScript numbers are floats, which matters only for non-integral values, and those are not modelled.
- In the code, `feedback` is a nested object that is omitted from replies when empty. The model uses `Option<Feedback>`.
