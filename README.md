# WhatsApp ordering bot — a verified model

This project models, in Dafny, the core of a WhatsApp restaurant-ordering bot written in Node.js.
The core has three parts.

- **The ordering state machine of `server-fixed.js`** (module `OrderBot`, file `order_bot.dfy`).
  The process keeps three stores in memory:
  - `carts` holds, per phone number, the live cart, the typed delivery address and the pending
    order snapshot.
  - `userState` marks users whose next text is a delivery address.
  - `orders` lists every confirmed order.

  Two handlers read one inbound event each and mutate those stores:
  - `handleTextMessage` reads a free-text message;
  - `handleInteractive` reads a button or list selection id.

  The model is a `Store` class with one field per store and one method per handler and helper
  (`addToCart`, `askDeliveryAddress`, `confirmOrder`, `finalizeOrder`). Cart rows are objects
  changed in place (`existing.quantity += 1`), so they are a class `Item`. The order snapshot
  copies the array of rows but not the rows, and the model keeps that sharing. The store
  invariant is `CartsValid`: within one cart no id appears twice, every row is priced from the
  table, and no row object lives in two users' carts.
- **The catalogue views of `interactive-messages-DRIVE.js`** (module `DriveMenu`, file
  `drive_menu.dfy`). This part covers:
  - the five-minute menu cache, as a class `MenuCache` over the two module variables, specified
    by the pure step `CacheStep`;
  - the built-in fallback menu;
  - the featured and campaign filters;
  - the business search with its ten-row cap;
  - the grouping of categories into sections, as the source's two loops;
  - the available-product list of a category;
  - the cart summary with its flat delivery fee (module `Cart`).
- **The stateless router of `server.js`** (module `Router`, file `router.dfy`). Free text is
  lower-cased and matched against keyword groups in a fixed order. A selection id is compared
  with four exact ids, then with the prefixes `business_`, `cat_` and `prod_`. A product
  selection is looked up over all categories of the menu.

Shared building blocks:
- `Text` (`text.dfy`) models the JavaScript string operations the core uses: `startsWith`,
  `includes`, `replace` with a string pattern, `toLowerCase`, and
  `Date.now().toString().slice(-6)`.
- `Lists` (`lists.dfy`) models `filter`, `map` and `slice(0, n)`.
- `Cart` (`cart.dfy`) models the cart rows as values and their total.
- `Options` (`options.dfy`) holds the option type.

Inputs the core cannot compute are parameters:
- The clock (`Date.now()`) is a `nat` of milliseconds.
- The outcome of the menu fetch (the parsed menu and the clock reading when it arrived, or a
  failure) is a `FetchOutcome`.

Outbound messages are modelled as the abstract views a handler sends, in order (`Reply`,
`Directive`). In `server-fixed.js` every handler finishes its mutations before its first
`await`, so each handler is modelled as one atomic step.

### Behaviour as written

The conversation is looser than a phased checkout: no handler checks which step the user is at.
The model follows the code.

- Checkout does not look at the cart. `cart_checkout` asks for an address even when the cart is
  empty (`HandleInteractive`, case `Checkout`).
- Payment and confirmation are accepted in any state.
  - A payment id with no address on record snapshots the order with "Adres belirtilmedi" (no
    address given) (`AddressOf`).
  - `order_confirm` without a pending order does nothing and sends nothing (`FinalizeOrder`,
    `ConfirmTwice`).
- `order_cancel` only sends the "cancelled" text and the main menu. The pending order, the cart
  and the address stay, so a later `order_confirm` still records the order
  (`CancelThenConfirm`).
- Order numbers are not unique. Two confirmations a multiple of 1000 seconds apart get the same
  number (`OrderNumberRepeats`).
- The pending order shares its row objects with the live cart. Selecting a product that is
  already in the cart after the summary changes the quantities the pending order holds, but not
  its recorded total (`SelectAfterSummary`).
- The code has no order status updates, no order listing and no statistics beyond the order
  count and the revenue.
- In `server.js`, a product selection only shows the product's details. The text says "added to
  cart", but nothing is stored: that variant keeps no cart.

## Model

| member | source | states |
|---|---|---|
| Text.IndexFrom | server.js:194-212 | the result is the first position at or after `from` where the pattern occurs; it is None only when the pattern occurs nowhere from there on |
| Text.Contains | server.js:194-212 | `includes` holds exactly when the pattern occurs at some position |
| Text.StripPrefix | server.js:125 | on an id that starts with the prefix, `replace(prefix, '')` removes exactly that prefix |
| Text.StripTagged | interactive-messages-DRIVE.js:393 | tagging a string with a prefix and replacing the prefix by nothing gives the string back |
| Text.ReplaceFirst | server.js:125 | a string without the pattern comes back unchanged; otherwise one occurrence is swapped, changing the length by the difference of the two strings |
| Text.ReplaceFirstOccurrence | server.js:125 | the occurrence replaced is the first one: the text before it and after it is kept as it was |
| Text.Lower | server.js:87 | lower-casing keeps the length, leaves no ASCII capital, turns each capital into its lower-case letter and leaves every other character as it is |
| Text.LowerIdempotent | server.js:87 | lower-casing twice is lower-casing once |
| Text.Digits | server-fixed.js:266 | the decimal rendering of the clock is a non-empty string of digits |
| Text.TakeLast | server-fixed.js:266 | `slice(-k)` is the last k characters, or the whole string when it is shorter |
| Text.LowDigits | server-fixed.js:266 | the k lowest digits form a string of exactly k digits |
| Text.DigitsLength | server-fixed.js:266 | the rendering has more than k digits exactly when the number reaches 10^k |
| Text.LastDigits | server-fixed.js:266 | the last k characters of the rendering are the k lowest digits |
| Text.LowDigitsValue | server-fixed.js:266 | the k lowest digits denote the number modulo 10^k |
| Text.LowDigitsPeriodic | server-fixed.js:266 | adding a multiple of 10^k leaves the k lowest digits unchanged |
| Lists.Filter | interactive-messages-DRIVE.js:176 | `filter` keeps exactly the elements that pass the test, and never lengthens the array |
| Lists.FilterAppend | interactive-messages-DRIVE.js:176 | filtering a concatenation concatenates the filtered parts, so the original order is kept |
| Lists.FilterSnoc | interactive-messages-DRIVE.js:389 | one more element at the end adds itself to the result or adds nothing |
| Lists.FilterAll | interactive-messages-DRIVE.js:389 | a test every element passes changes nothing |
| Lists.FilterNone | interactive-messages-DRIVE.js:389 | a test no element passes leaves nothing |
| Lists.Map | interactive-messages-DRIVE.js:392-396 | `map` keeps the length and sends element i to f(element i) |
| Lists.Take | interactive-messages-DRIVE.js:281 | `slice(0, n)` is the prefix of length min(n, length) |
| Cart.TotalNonNegative | server-fixed.js:209 | with no negative price or quantity, the `reduce` total is never negative |
| Cart.TotalAppend | server-fixed.js:209 | the `reduce` total of two carts put together is the sum of their totals |
| Cart.TotalSplit | server-fixed.js:209 | the total counts each row's price × quantity exactly once |
| Cart.TotalBump | server-fixed.js:191-192 | one more unit on a row raises the total by that row's price |
| Cart.FindLine | server-fixed.js:189 | `find` gives the first row holding the id, or reports that no row holds it |
| Cart.AddLine | server-fixed.js:188-195 | adding a product adds at most one row, and the row found for the id, or the new row at the end, holds one more unit than before |
| Cart.AddLineBumps | server-fixed.js:191-192 | when a row holds the id, adding a product bumps that row |
| Cart.AddLineAppends | server-fixed.js:193-195 | when no row holds the id, adding appends a row with quantity 1 |
| Cart.AddLineEffect | server-fixed.js:188-195 | adding a known id: that row gains one unit and the other rows stay. Adding a new id: a quantity-1 row goes last. Either way the total rises by the price of the changed row |
| Cart.KnownIdEffect | server-fixed.js:191-192 | the bump branch: the found row gains one unit, the others stay, and the total rises by its price |
| Cart.NewIdEffect | server-fixed.js:193-195 | the push branch: no row held the id, the earlier rows stay, the new row is last, and the total rises by the price |
| Cart.AddLineKeepsIdsUnique | server-fixed.js:188-195 | adding never creates a second row for an id |
| Cart.AddTimesFromEmpty | server-fixed.js:184-195 | selecting one product n times from an empty cart gives a single row with quantity n and total price × n |
| Cart.SummaryOf | interactive-messages-DRIVE.js:433-453 | the summary shows the cart's `reduce` total, that total plus the 20 ₺ delivery fee, and the number of rows as the item count |
| Cart.FooterCountsRows | interactive-messages-DRIVE.js:453 | the "n ürün" (n items) footer counts rows, not units: it never exceeds the unit count, and equals it exactly when every row holds one unit |
| OrderBot.CategoryShown | server-fixed.js:441 | the category shown is always one of the three hard-coded ones |
| OrderBot.CategoryFallback | server-fixed.js:441 | an unknown category id shows the kebab list; a known one shows itself |
| OrderBot.OfferedProductsArePriced | server-fixed.js:414-439 | every product the product lists offer has an entry in addToCart's price table |
| OrderBot.ExactIdsAreNotProducts | server-fixed.js:106-162 | no id handleInteractive compares for equality starts with `prod_` |
| OrderBot.Classify | server-fixed.js:103-165 | an id is unrecognised exactly when it is none of the 17 ids and lacks `prod_`. It adds a product exactly when it is none of them and has `prod_`, and then the full id is the product id. A category id shows one of the known categories |
| OrderBot.ExactAction | server-fixed.js:106-162 | every id compared for equality is recognised and none adds a product |
| OrderBot.ClassifyBrowsing | server-fixed.js:106-134 | `action_new_order` and `menu_all` show the restaurants, `action_cart` the cart, `cart_continue` the categories |
| OrderBot.ClassifyBusinesses | server-fixed.js:116-119 | each of the three business ids shows the categories |
| OrderBot.ClassifyCategories | server-fixed.js:121-124 | each of the three category ids shows its own product list |
| OrderBot.ClassifyCartButtons | server-fixed.js:136-146 | `cart_clear` clears the cart and `cart_checkout` checks out |
| OrderBot.ClassifyPayments | server-fixed.js:148-151 | `pay_cash`, `pay_card` and `pay_meal` each confirm with their own payment method |
| OrderBot.ClassifyOrderButtons | server-fixed.js:153-162 | `order_confirm` finalizes and `order_cancel` cancels |
| OrderBot.TextIntentOf | server-fixed.js:90-99 | a text asks for the cart exactly when its lower-cased form contains "sepet" and neither greeting word |
| OrderBot.OrderNumberPrefix | server-fixed.js:266 | whatever the clock reads, the order number is "SIP-" followed by one to six digits |
| OrderBot.OrderNumberDigits | server-fixed.js:266 | from six clock digits on, the order number is "SIP-" followed by the six lowest digits of the clock |
| OrderBot.OrderNumberShape | server-fixed.js:266 | from 100000 ms on, the order number has length 10 and is "SIP-" plus six digits whose value is the clock modulo 1000000 |
| OrderBot.OrderNumberRepeats | server-fixed.js:266 | clock readings 1000000·m ms apart give the same order number, so numbers are not unique |
| OrderBot.Item.constructor | server-fixed.js:194 | a pushed row carries the id, name and price given, with quantity 1 |
| OrderBot.FindId | server-fixed.js:189 | `cart.find` gives the first row object holding the id, or reports that no row holds it |
| OrderBot.FoundLine | server-fixed.js:189 | looking up the id in the row objects finds the same index as looking it up in their values |
| OrderBot.RevenueAppend | server-fixed.js:523 | the revenue of two order lists put together is the sum of their revenues |
| OrderBot.RevenueSnoc | server-fixed.js:523 | one more order adds its total to the revenue |
| OrderBot.AdminStats | server-fixed.js:515-523 | the panel shows the number of orders and the sum of their totals; with no orders the revenue is 0 |
| OrderBot.CartReply | server-fixed.js:201-209 | the cart summary is the "empty cart" text exactly when the cart is missing or empty; otherwise it shows the rows as they read now and their `reduce` total |
| OrderBot.PushKeepsValid | server-fixed.js:193-195 | pushing a priced row, new to the cart and held by no cart, keeps every cart well formed and the carts disjoint |
| OrderBot.BumpedRows | server-fixed.js:191-192 | rows whose only change is one more unit on row k read as the bump of row k |
| OrderBot.PushedRows | server-fixed.js:194 | pushing a row appends its value to the cart's rows |
| OrderBot.Store.constructor | server-fixed.js:18-20 | the stores start empty and satisfy the invariant |
| OrderBot.Store.AddressOf | server-fixed.js:262 | the address used is never empty: the typed address when one is on record, else "Adres belirtilmedi" |
| OrderBot.Store.Snapshot | server-fixed.js:270-278 | the pending order holds the same row objects as the cart, the cart's current total, the address and the order number of the clock reading |
| OrderBot.Store.HandleText | server-fixed.js:79-100 | when an address is awaited: the text becomes the address, the flag is cleared and only the payment prompt is sent. Otherwise no store changes, and the cart summary is sent for a cart request and the main menu for anything else |
| OrderBot.Store.HandleInteractive | server-fixed.js:103-165 | keeps the invariant. A product id runs addToCart. `cart_clear` removes only the cart. Checkout asks for an address. A payment id snapshots the order. `order_confirm` finalizes it. Every other id changes no store and sends its view; an unknown id sends the main menu |
| OrderBot.Store.AddToCart | server-fixed.js:168-198 | an unknown product changes nothing and sends nothing. A known one turns the cart's rows into AddLine of the old rows: the found row is bumped in place in the same array, or a fresh row is pushed. Then the cart is shown, and the invariant is kept |
| OrderBot.Store.BumpRow | server-fixed.js:191-192 | only row k gains one unit; the cart array and every other cart stay; the rows become AddLine of the old rows |
| OrderBot.Store.PushRow | server-fixed.js:193-195 | the cart is created when missing and gets one fresh row with quantity 1 at the end; the old rows are untouched and the invariant is kept |
| OrderBot.Store.AskDeliveryAddress | server-fixed.js:233-236 | the user is marked as awaiting an address, whatever the cart holds; nothing else changes and only the address prompt is sent |
| OrderBot.Store.ConfirmOrder | server-fixed.js:260-278 | only the user's pending order is replaced, by the snapshot taken before the call; the summary shows the order number, rows, address, payment and total |
| OrderBot.Store.FinalizeOrder | server-fixed.js:300-313 | without a pending order nothing changes and nothing is sent. Otherwise the snapshot is appended once with status "Alındı" (received), and the user's cart, address, pending order and address flag are all removed; the admin revenue rises by the pending order's total |
| OrderBot.Store.SelectAfterSummary | server-fixed.js:270-272 | after the summary, selecting a product already in the cart leaves the pending order holding the live cart. Its rows now total the recorded total plus the product's price |
| OrderBot.Store.SelectInSnapshot | server-fixed.js:188-192 | a bump on a cart the pending order shares raises the total the pending rows read by the product's price, while the pending map stays |
| OrderBot.Store.SelectTwice | server-fixed.js:184-195 | the same product selected twice by a user with no cart gives one row with quantity 2 |
| OrderBot.Store.ConfirmTwice | server-fixed.js:300-302 | a second `order_confirm` appends nothing and sends nothing, so an order is recorded at most once |
| OrderBot.Store.CancelOrder | server-fixed.js:158-162 | `order_cancel` changes no store and sends the "cancelled" text then the main menu |
| OrderBot.Store.CancelThenConfirm | server-fixed.js:153-162 | after `order_cancel`, `order_confirm` still appends the pending order |
| OrderBot.Store.OrderScenario | server-fixed.js:103-165 | a full order: select a product twice, check out, type an address, pay cash, confirm. Exactly one order is appended, with one row of quantity 2, twice the price as total, the address, cash, the summary's order number and status "received"; nothing of the user's is left |
| OrderBot.Store.CheckoutWithCash | server-fixed.js:143-156 | from a filled cart, checkout, address, cash and confirm append exactly the snapshot of that cart, its total and the address, and clear the user's entries |
| DriveMenu.FallbackMenu | interactive-messages-DRIVE.js:68-83 | the built-in menu has one featured campaign business, the `cat_kebap` category and one available product under `kebap` |
| DriveMenu.CacheStep | interactive-messages-DRIVE.js:26-63 | the menu served is the fallback menu or the cached one; the cache is unchanged unless a fetch succeeded, and then it holds that menu and its time |
| DriveMenu.CacheHit | interactive-messages-DRIVE.js:29-32 | a fresh cache is served as is, whatever the fetch would bring: no fetch happens |
| DriveMenu.CacheRefill | interactive-messages-DRIVE.js:35-50 | a stale or empty cache and a successful fetch store, stamp and serve the fetched menu |
| DriveMenu.CacheFailure | interactive-messages-DRIVE.js:51-62 | a failed fetch changes neither variable and serves the stale menu, or the built-in one when there is none; the next call fetches again |
| DriveMenu.ServedForFiveMinutes | interactive-messages-DRIVE.js:29-45 | a menu fetched at a non-zero time is served unchanged, without fetching, by every call less than five minutes later |
| DriveMenu.StaleBeatsFallback | interactive-messages-DRIVE.js:54-58 | once a menu is cached, only it or a newly fetched menu is ever served |
| DriveMenu.MenuCache.constructor | interactive-messages-DRIVE.js:18-20 | both cache variables start as null |
| DriveMenu.MenuCache.GetMenu | interactive-messages-DRIVE.js:26-63 | the new cache variables and the menu returned are exactly one CacheStep from the old ones; the variables stay both null or both set |
| DriveMenu.Featured | interactive-messages-DRIVE.js:176 | a business is featured-listed exactly when it is in the menu with the flag set |
| DriveMenu.Campaigns | interactive-messages-DRIVE.js:218 | a business is campaign-listed exactly when it is in the menu with the flag set |
| DriveMenu.FlagFiltersKeepOrder | interactive-messages-DRIVE.js:176 | both filters keep the menu's order and drop exactly the businesses without the flag |
| DriveMenu.Searched | interactive-messages-DRIVE.js:263-268 | no keyword keeps all businesses; with one, a business stays exactly when its lower-cased name or category contains the lower-cased keyword |
| DriveMenu.SearchKeepsOrder | interactive-messages-DRIVE.js:263-268 | the search keeps the menu's order: it distributes over concatenation, and one business is kept exactly when it matches or there is no keyword |
| DriveMenu.BusinessList | interactive-messages-DRIVE.js:258-285 | "no results" is sent exactly when the search leaves nothing. Otherwise at most ten rows are sent, the first of the result in order, and all of them when there are ten or fewer |
| DriveMenu.SearchedRows | interactive-messages-DRIVE.js:263-285 | with a keyword, every row listed matches it, and "no results" means no business matches; without one, the list is the first ten businesses |
| DriveMenu.SectionNamesDistinct | interactive-messages-DRIVE.js:344-349 | no section is sent twice |
| DriveMenu.SectionNamesCover | interactive-messages-DRIVE.js:331-341 | every category's section (or "Diğer", other) is among the sections |
| DriveMenu.SectionNamesOnly | interactive-messages-DRIVE.js:331-341 | a name no category is grouped under is not a section |
| DriveMenu.SectionsFor | interactive-messages-DRIVE.js:344-349 | one section per name, in the order given, each with the rows grouped under that name |
| DriveMenu.GroupCategories | interactive-messages-DRIVE.js:323-349 | the sections sent are exactly one per section name in first-appearance order, each with its categories' rows in their original order |
| DriveMenu.GroupBySection | interactive-messages-DRIVE.js:331-341 | after the loop, `grouped` has exactly the section names as keys, in first-appearance order, each holding its categories' rows in order |
| DriveMenu.SectionsOf | interactive-messages-DRIVE.js:344-349 | walking the keys in insertion order gives one section per key with the rows grouped under it |
| DriveMenu.GroupedSnoc | interactive-messages-DRIVE.js:332-340 | one loop iteration (create the array on first sight, push the row) keeps `grouped` equal to the grouping of the categories seen |
| DriveMenu.RowsInAbsent | interactive-messages-DRIVE.js:333-335 | no row is grouped under a name that is not a section |
| DriveMenu.RowsInAppend | interactive-messages-DRIVE.js:336-340 | the rows of a section for two category lists put together are the rows of each, in order |
| DriveMenu.RowTotalSnoc | interactive-messages-DRIVE.js:336-340 | one more category adds one row to the sections exactly when its section is among them |
| DriveMenu.RowTotalIsCategoryCount | interactive-messages-DRIVE.js:331-349 | the sections hold as many rows as there are categories: none lost, none duplicated |
| DriveMenu.CategoryPlacement | interactive-messages-DRIVE.js:331-349 | each category's row is in the section titled with its section name, and no other section has that title |
| DriveMenu.SectionNamesPrefix | interactive-messages-DRIVE.js:344 | the sections of the first categories are a prefix of the sections of all of them |
| DriveMenu.FirstAppearanceOrder | interactive-messages-DRIVE.js:344-349 | sections come in the order their names first appear among the categories |
| DriveMenu.FirstSeenBefore | interactive-messages-DRIVE.js:333-335 | the section of an earlier category is already a key before category j is pushed |
| DriveMenu.NewNameAppended | interactive-messages-DRIVE.js:333-335 | the first category of a section appends that section as the last key |
| DriveMenu.CategoryProducts | interactive-messages-DRIVE.js:382 | a key in the menu gives the products of its first entry; a key not in the menu gives none; a non-empty result is stored under that key |
| DriveMenu.Shown | interactive-messages-DRIVE.js:389 | a product is shown exactly when it is in the category and not marked `available: false` |
| DriveMenu.ShownKeepsOrder | interactive-messages-DRIVE.js:389 | the availability filter keeps the category's order: it distributes over any split of the category's products |
| DriveMenu.ProductList | interactive-messages-DRIVE.js:380-396 | the "no products" text is sent exactly when the category has no products. Otherwise there is one row per shown product, in order, with id `prod_` + product id and the product's name |
| DriveMenu.ProductRowsNoneListed | interactive-messages-DRIVE.js:384-389 | a category whose products are all unavailable gets a list with no rows, not the "no products" text |
| DriveMenu.ProductRowsAllListed | interactive-messages-DRIVE.js:389-396 | a category whose products are all available gets one row per product, in order |
| DriveMenu.ProductRowTag | interactive-messages-DRIVE.js:393 | every product row id starts with `prod_`, and the product id follows it |
| DriveMenu.FallbackBusinesses | interactive-messages-DRIVE.js:72 | with the built-in menu, the featured, campaign and full lists all show its one business |
| DriveMenu.FallbackSections | interactive-messages-DRIVE.js:75 | with the built-in menu, the category list is the one section "Ana Yemekler" (main dishes) with its one category |
| DriveMenu.FallbackProducts | interactive-messages-DRIVE.js:77-81 | with the built-in menu, the `kebap` list has one row, "Adana Kebap", whose id `prod_prod_001` carries the tag twice |
| Router.FirstMatch | server.js:193-226 | the first keyword group the text hits, with no earlier group hit |
| Router.RouteText | server.js:190-226 | text without any keyword gets the main menu. Otherwise the first group the text hits decides the view |
| Router.GreetingWins | server.js:194-196 | any text containing "hi" (so also "chicken order") gets the main menu |
| Router.OrderAndHelpRouting | server.js:194-222 | an order keyword gives the business list only without a greeting or menu keyword; a help keyword gives the help text only without a keyword of any earlier group |
| Router.CaseInsensitive | server.js:87 | a message and its lower-cased form are routed alike |
| Router.HandleText | server.js:87 | a message holding no keyword in any case of ASCII letters gets the main menu |
| Router.ExactIdRoutes | server.js:107-118 | `action_new_order` and `menu_all` give the business list, `menu_featured` the featured and `menu_campaign` the campaign businesses |
| Router.HandleInteractiveReply | server.js:103-154 | For each prefix, the id gets that view exactly when no earlier test caught it. A category or product view gets the id minus its prefix. `action_help` alone gives the help text, and everything else the main menu |
| Router.ProductIdRoundTrip | server.js:128-131 | the row id `prod_` + p comes back as a selection of product p |
| Router.CategoryIdRoundTrip | server.js:123-126 | the id `cat_` + key asks for the product list stored under key |
| Router.AllProductsMembers | server.js:165 | a product is among all products exactly when some category holds it |
| Router.FindProduct | server.js:166 | `find` gives the first product with the id, or reports that none has it |
| Router.HandleProductSelection | server.js:159-171 | "product not found" exactly when no product of any category has the id; otherwise the first product with that id over all categories in order |
| Router.SelectedRowIsFound | server.js:159-171 | selecting row i of a product list finds a product with that row's product id |

## Left out

- Transport: the message payloads, their text and emoji formatting, the HTTP webhook, its
  verification handshake and the `try`/`catch` error texts around failed sends. Each handler is
  modelled by the views it sends, as if delivery succeeded.
- Concurrency: no handler of `server-fixed.js` awaits before its mutations, so each is modelled
  as one atomic step. Interleavings inside the sends are not modelled.
- The admin panel's HTML and its "orders today" count. That count compares date strings of the
  wall clock, which is not modelled; only the order count and the revenue are.
- The display-only fields: business ratings, category and product descriptions, and product
  prices in the catalogue menu, which are strings such as "250₺".
- The static list and button payloads of `interactive-messages-DRIVE.js` (main menu, help,
  payment and confirmation buttons). They hold no logic beyond their text.
- The fetch itself: an HTTP error, a network error and a JSON parse error all become
  `FetchFailed`. A fetched document without `businesses`, `categories` or `products` (which makes
  the views throw) is not modelled; every menu has all three.
- Selection ids and texts that are not strings (a missing `replyId` makes `startsWith` throw).
- Text.Lower: only ASCII letters are lower-cased. JavaScript's `toLowerCase` also lower-cases
  letters such as `Ü` and `İ`, so a keyword written in upper-case Turkish letters matches in the
  source but not in the model.
- Router.CaseInsensitive: holds for the ASCII lower-casing of Text.Lower, not for every Unicode
  letter.
- DriveMenu.GroupCategories: `grouped` is modelled with keys in insertion order. JavaScript
  lists integer-like keys (such as "1") first, in numeric order, so such sections come out in a
  different order in the source. A section named like an inherited property ("constructor",
  "toString") finds that property truthy, so no array is created and `grouped[section].push`
  throws a TypeError: the source sends no category list at all, while the model groups it.
- DriveMenu.CategoryProducts: the lookup `menu.products[name]` is modelled as a search of the
  entries. For an inherited property name such as "constructor" the source finds a function,
  whose `.length` is not 0, and `.filter` then throws: no product list is sent, while the model
  answers "no products".
- Timestamps stored with an order (`new Date().toISOString()`) are the clock reading as a number.
  The phone number stored in the snapshot is the user id.
