/**
 * The ordering bot of server-fixed.js: three module-level stores and the handlers that read one
 * inbound event (a free-text message or a button/list selection id) and apply one mutation.
 *
 * The source keeps everything in two `Map`s and an array:
 *   carts.get(phone)               the live cart, an array of row objects
 *   carts.get(phone + '_address')  the delivery address typed by the user
 *   carts.get(phone + '_pending')  the order snapshot awaiting confirmation
 *   userState.get(phone)           'waiting_address' or nothing
 *   orders                         every confirmed order, append-only
 * User ids are the sender's phone number, a string of digits, so `phone + '_address'` never
 * equals another user's `phone`; the model keeps the three kinds of value in three maps.
 *
 * Cart rows are objects: `existing.quantity += 1` changes a row in place, and the order snapshot
 * copies the row ARRAY (`[...cart]`) but not the rows, so it shares them with the live cart.
 * `Item` is therefore a class and the store holds references to items.
 *
 * Every handler mutates the stores before its first outbound message, so a failing send never
 * changes the resulting state; the replies are the directives the handler sends, in order.
 */
module OrderBot {
  import opened Text
  import opened Cart

  // ---- the hard-coded catalogue ----

  datatype Product = Product(name: string, price: int)

  /** The price table of addToCart, keyed by the full selection id. */
  const Products: map<string, Product> := map[
    "prod_adana" := Product("Adana Kebap", 150),
    "prod_urfa" := Product("Urfa Kebap", 150),
    "prod_beyti" := Product("Beyti Kebap", 180),
    "prod_classic" := Product("Klasik Burger", 120),
    "prod_cheese" := Product("Cheeseburger", 140),
    "prod_double" := Product("Double Burger", 180),
    "prod_cola" := Product("Coca Cola", 25),
    "prod_fanta" := Product("Fanta", 25),
    "prod_ayran" := Product("Ayran", 15)
  ]

  /** The product lists of sendProducts: the selection ids each category offers. */
  const CategoryItems: map<string, seq<string>> := map[
    "cat_kebap" := ["prod_adana", "prod_urfa", "prod_beyti"],
    "cat_burger" := ["prod_classic", "prod_cheese", "prod_double"],
    "cat_drink" := ["prod_cola", "prod_fanta", "prod_ayran"]
  ]

  /** `products[categoryId] || products['cat_kebap']`: the category whose list is shown. */
  function CategoryShown(categoryId: string): (c: string)
    ensures c in CategoryItems
  {
    if categoryId in CategoryItems then categoryId else "cat_kebap"
  }

  /** An unknown category shows the kebab list; a known one shows itself. */
  lemma CategoryFallback(categoryId: string)
    ensures categoryId !in CategoryItems ==> CategoryShown(categoryId) == "cat_kebap"
    ensures categoryId in CategoryItems ==> CategoryShown(categoryId) == categoryId
  {
  }

  /** The two hard-coded tables agree: every product a category offers has a price. */
  lemma OfferedProductsArePriced()
    ensures forall c, id :: c in CategoryItems && id in CategoryItems[c] ==> id in Products
  {
  }

  // ---- events and replies ----

  datatype Payment = Cash | Card | MealCard

  /** The status every confirmed order is stored with ("received"). */
  const Received: string := "Alındı"

  /** Used when a user reaches the payment step without an address on record. */
  const NoAddress: string := "Adres belirtilmedi"

  /** The directives a handler sends, as abstract views (transport and text formatting left out). */
  datatype Reply =
    | MainMenu                   // sendMainMenu
    | RestaurantList             // sendRestaurantList
    | CategoryMenu               // sendCategories
    | ProductMenu(category: string)   // sendProducts, after the fallback
    | CartEmpty                  // the "cart is empty" text of sendCartSummary
    | CartView(lines: seq<Line>, total: int)
    | AddressPrompt              // askDeliveryAddress
    | PaymentPrompt              // selectPaymentMethod
    | OrderSummary(orderNumber: string, lines: seq<Line>, address: string, payment: Payment, total: int)
    | CartCleared
    | OrderCancelled
    | OrderReceived(orderNumber: string)

  /** What a selection id asks for: the if-chain of handleInteractive, in its order. */
  datatype Action =
    | ShowRestaurants
    | ShowCart
    | ShowCategories
    | ShowProducts(category: string)
    | AddProduct(productId: string)
    | ContinueShopping
    | ClearCart
    | Checkout
    | Pay(payment: Payment)
    | Confirm
    | Cancel
    | Unrecognised

  /** The selection ids handleInteractive compares for equality. */
  const ExactIds: set<string> := {
    "action_new_order", "menu_all", "action_cart",
    "business_lezzet", "business_burger", "business_pizza",
    "cat_kebap", "cat_burger", "cat_drink",
    "cart_continue", "cart_clear", "cart_checkout",
    "pay_cash", "pay_card", "pay_meal",
    "order_confirm", "order_cancel"
  }

  /** No id compared for equality carries the product prefix, so the prefix test sees only product ids. */
  lemma ExactIdsAreNotProducts()
    ensures forall id :: id in ExactIds ==> !StartsWith(id, "prod_")
  {
    forall id | id in ExactIds
      ensures !StartsWith(id, "prod_")
    {
      assert id[0] != 'p' || id[1] != 'r';
    }
  }

  /**
   * handleInteractive's if-chain. The product prefix is looked at between the category ids and the
   * cart ids; no exact id carries that prefix, so the exact ids are looked at first here.
   */
  function Classify(replyId: string): (a: Action)
    ensures a == Unrecognised <==> replyId !in ExactIds && !StartsWith(replyId, "prod_")
    ensures a.AddProduct? <==> replyId !in ExactIds && StartsWith(replyId, "prod_")
    ensures a.AddProduct? ==> a.productId == replyId
    ensures a.ShowProducts? ==> a.category in CategoryItems
  {
    if replyId in ExactIds then ExactAction(replyId)
    else if StartsWith(replyId, "prod_") then AddProduct(replyId)
    else Unrecognised
  }

  /** The action of an id compared for equality. */
  function ExactAction(replyId: string): (a: Action)
    requires replyId in ExactIds
    ensures a != Unrecognised && !a.AddProduct?
    ensures a.ShowProducts? ==> a.category in CategoryItems
  {
    if replyId == "action_new_order" || replyId == "menu_all" then ShowRestaurants
    else if replyId == "action_cart" then ShowCart
    else if replyId == "business_lezzet" || replyId == "business_burger" || replyId == "business_pizza" then ShowCategories
    else if replyId == "cat_kebap" || replyId == "cat_burger" || replyId == "cat_drink" then ShowProducts(replyId)
    else if replyId == "cart_continue" then ContinueShopping
    else if replyId == "cart_clear" then ClearCart
    else if replyId == "cart_checkout" then Checkout
    else if replyId == "pay_cash" then Pay(Cash)
    else if replyId == "pay_card" then Pay(Card)
    else if replyId == "pay_meal" then Pay(MealCard)
    else if replyId == "order_confirm" then Confirm
    else Cancel
  }

  // Which action each id compared for equality asks for: the table of handleInteractive's if-chain.

  /** The browsing ids: the restaurant list, the cart, and back to the categories. */
  lemma ClassifyBrowsing()
    ensures Classify("action_new_order") == ShowRestaurants && Classify("menu_all") == ShowRestaurants
    ensures Classify("action_cart") == ShowCart && Classify("cart_continue") == ContinueShopping
  {
  }

  /** Every business id shows the same categories. */
  lemma ClassifyBusinesses()
    ensures Classify("business_lezzet") == ShowCategories && Classify("business_burger") == ShowCategories
    ensures Classify("business_pizza") == ShowCategories
  {
  }

  /** Each category id shows its own product list. */
  lemma ClassifyCategories()
    ensures Classify("cat_kebap") == ShowProducts("cat_kebap") && Classify("cat_burger") == ShowProducts("cat_burger")
    ensures Classify("cat_drink") == ShowProducts("cat_drink")
  {
  }

  /** The cart buttons: clear and checkout. */
  lemma ClassifyCartButtons()
    ensures Classify("cart_clear") == ClearCart && Classify("cart_checkout") == Checkout
  {
  }

  /** Each payment id picks its own payment method. */
  lemma ClassifyPayments()
    ensures Classify("pay_cash") == Pay(Cash) && Classify("pay_card") == Pay(Card)
    ensures Classify("pay_meal") == Pay(MealCard)
  {
  }

  /** The order buttons: confirm and cancel. */
  lemma ClassifyOrderButtons()
    ensures Classify("order_confirm") == Confirm && Classify("order_cancel") == Cancel
  {
  }

  /** The selections that only send views and change no store. */
  predicate IsView(a: Action) {
    !(a.AddProduct? || a == ClearCart || a == Checkout || a.Pay? || a == Confirm)
  }

  /**
   * What a view-only selection sends: the restaurant list, the cart, the categories, the
   * product list of a category, the "cancelled" text then the main menu, or for an id nobody
   * recognises the main menu.
   */
  function ViewReplies(a: Action, cart: seq<Item>): seq<Reply>
    requires IsView(a)
    reads cart
  {
    match a
    case ShowRestaurants => [RestaurantList]
    case ShowCart => [CartReply(cart)]
    case ShowCategories => [CategoryMenu]
    case ShowProducts(c) => [ProductMenu(CategoryShown(c))]
    case ContinueShopping => [CategoryMenu]
    case Cancel => [OrderCancelled, MainMenu]
    case Unrecognised => [MainMenu]
  }

  /** What a free-text message asks for when no address is awaited. */
  datatype TextIntent = Greeting | CartRequest | Other

  /** Lower-case the text, then: greeting words first, then "sepet" (cart), else anything. */
  function TextIntentOf(text: string): (t: TextIntent)
    ensures t == CartRequest <==>
      var s := Lower(text); Contains(s, "sepet") && !Contains(s, "merhaba") && !Contains(s, "selam")
  {
    var s := Lower(text);
    if Contains(s, "merhaba") || Contains(s, "selam") then Greeting
    else if Contains(s, "sepet") then CartRequest
    else Other
  }

  /** The order number: "SIP-" and the last six digits of the millisecond clock. */
  function OrderNumber(now: nat): string {
    "SIP-" + TakeLast(Digits(now), 6)
  }

  /** Whatever the clock reads, the order number is "SIP-" and one to six digits. */
  lemma OrderNumberPrefix(now: nat)
    ensures var n := OrderNumber(now); 5 <= |n| <= 10 && n[..4] == "SIP-" && AllDigits(n[4..])
  {
    var d := TakeLast(Digits(now), 6);
    assert OrderNumber(now)[4..] == d;
  }

  /** The order number is "SIP-" and the six lowest digits of the clock, once it has six digits. */
  lemma OrderNumberDigits(now: nat)
    requires now >= 100000
    ensures OrderNumber(now) == "SIP-" + LowDigits(now, 6)
  {
    DigitsLength(now, 5);
    assert Pow10(5) == 100000;
    LastDigits(now, 6);
  }

  /**
   * From 100000 ms on, the order number is "SIP-" followed by exactly six digits, and those
   * digits are the clock modulo 1000000.
   */
  lemma OrderNumberShape(now: nat)
    requires now >= 100000
    ensures var n := OrderNumber(now);
      && |n| == 10 && n[..4] == "SIP-" && AllDigits(n[4..])
      && n[4..] == LowDigits(now, 6) && Value(n[4..]) == now % 1000000
  {
    OrderNumberDigits(now);
    LowDigitsValue(now, 6);
    assert Pow10(6) == 1000000;
  }

  /**
   * Nothing makes order numbers unique: two confirmations a multiple of 1000 seconds apart get
   * the same number.
   */
  lemma OrderNumberRepeats(now: nat, m: nat)
    requires now >= 100000
    ensures OrderNumber(now + m * 1000000) == OrderNumber(now)
  {
    assert Pow10(6) == 1000000;
    LowDigitsPeriodic(now, m, 6);
    var later := now + m * Pow10(6);
    assert later == now + m * 1000000;
    OrderNumberDigits(now);
    OrderNumberDigits(later);
  }

  // ---- cart rows ----

  /** One cart row; its quantity is changed in place. */
  class Item {
    const id: string
    const name: string
    const price: int
    var quantity: int

    constructor (id: string, name: string, price: int)
      ensures this.id == id && this.name == name && this.price == price && quantity == 1
    {
      this.id := id;
      this.name := name;
      this.price := price;
      quantity := 1;
    }

    /** The row as a value, as it reads now. */
    function Row(): Line
      reads this
    {
      Line(id, name, price, quantity)
    }
  }

  /** The rows of a cart array as values, in order. */
  function Lines(items: seq<Item>): (ls: seq<Line>)
    reads items
    ensures |ls| == |items|
    ensures forall i :: 0 <= i < |items| ==> ls[i] == items[i].Row()
  {
    if items == [] then [] else Lines(items[..|items| - 1]) + [items[|items| - 1].Row()]
  }

  /** `cart.find(item => item.id === productId)`: the index of the first row holding the id, or the length. */
  function FindId(items: seq<Item>, id: string): (k: nat)
    ensures k <= |items|
    ensures k < |items| ==> items[k].id == id
    ensures forall j :: 0 <= j < k ==> items[j].id != id
  {
    if items == [] then 0 else if items[0].id == id then 0 else 1 + FindId(items[1..], id)
  }

  /** Looking the id up in the rows' values finds the same row as looking it up in the cart. */
  lemma FoundLine(items: seq<Item>, id: string)
    ensures FindLine(Lines(items), id) == FindId(items, id)
  {
  }

  /** The order snapshot `{ orderNumber, cart, total, address, payment, phone, timestamp }`. */
  datatype PendingOrder = PendingOrder(
    orderNumber: string, cart: seq<Item>, total: int, address: string, payment: Payment,
    phone: string, timestamp: nat)

  /** A confirmed order: the snapshot spread into a new record with its status and time. */
  datatype Order = Order(snapshot: PendingOrder, status: string, confirmedAt: nat)

  /** The admin panel's "total revenue": the sum of the order totals. */
  function Revenue(orders: seq<Order>): int {
    if orders == [] then 0 else Revenue(orders[..|orders| - 1]) + orders[|orders| - 1].snapshot.total
  }

  /** Appending an order raises the revenue by its total (and the order count by one). */
  lemma {:induction false} RevenueAppend(orders: seq<Order>, more: seq<Order>)
    ensures Revenue(orders + more) == Revenue(orders) + Revenue(more)
  {
    if more == [] {
      assert orders + more == orders;
    } else {
      assert (orders + more)[..|orders + more| - 1] == orders + more[..|more| - 1];
      RevenueAppend(orders, more[..|more| - 1]);
    }
  }

  /** One more order adds one to the count and its total to the revenue. */
  lemma RevenueSnoc(orders: seq<Order>, o: Order)
    ensures Revenue(orders + [o]) == Revenue(orders) + o.snapshot.total
  {
    assert (orders + [o])[..|orders|] == orders;
  }

  /** The admin panel's two totals: `orders.length` and the revenue. */
  datatype Stats = Stats(totalOrders: nat, totalRevenue: int)

  function AdminStats(orders: seq<Order>): (s: Stats)
    ensures s.totalOrders == |orders|
    ensures s.totalRevenue == Revenue(orders)
    ensures orders == [] ==> s.totalRevenue == 0
  {
    Stats(|orders|, Revenue(orders))
  }

  /** What sendCartSummary shows: the "empty" text for a missing or empty cart, else rows and total. */
  function CartReply(cart: seq<Item>): (r: Reply)
    reads cart
    ensures r == CartEmpty <==> cart == []
    ensures r.CartView? ==> r.lines == Lines(cart) && r.total == Total(Lines(cart))
  {
    if |cart| == 0 then CartEmpty
    else var lines := Lines(cart); CartView(lines, Total(lines))
  }

  // ---- the invariant of the stores ----

  /** A row carries the name and price the table gives its id. */
  predicate Priced(it: Item) {
    it.id in Products && it.name == Products[it.id].name && it.price == Products[it.id].price
  }

  /** Within one cart no id appears twice, and every row is priced from the table. */
  predicate WellFormedCart(cart: seq<Item>) {
    && (forall i, j :: 0 <= i < j < |cart| ==> cart[i].id != cart[j].id)
    && (forall i :: 0 <= i < |cart| ==> Priced(cart[i]))
  }

  /** No row of `a` is a row of `b`. */
  predicate Apart(a: seq<Item>, b: seq<Item>) {
    forall i :: 0 <= i < |a| ==> a[i] !in b
  }

  /**
   * What the handlers keep true of the carts: each is well formed, and no row is live in two
   * carts, so bumping a row of one user's cart changes no other user's cart.
   */
  ghost predicate CartsValid(carts: map<string, seq<Item>>) {
    && (forall u | u in carts :: WellFormedCart(carts[u]))
    && (forall u, v | u in carts && v in carts && u != v :: Apart(carts[u], carts[v]))
  }

  /** Pushing a priced row with an id new to the cart, held by no cart, keeps the carts valid. */
  lemma PushKeepsValid(carts: map<string, seq<Item>>, user: string, item: Item)
    requires CartsValid(carts)
    requires Priced(item)
    requires user in carts ==> forall j :: 0 <= j < |carts[user]| ==> carts[user][j].id != item.id
    requires forall v :: v in carts ==> item !in carts[v]
    ensures CartsValid(carts[user := (if user in carts then carts[user] else []) + [item]])
  {
    var cart := if user in carts then carts[user] else [];
    var carts' := carts[user := cart + [item]];
    forall u, v | u in carts' && v in carts' && u != v
      ensures Apart(carts'[u], carts'[v])
    {
      forall i | 0 <= i < |carts'[u]|
        ensures carts'[u][i] !in carts'[v]
      {
        if u == user && i == |cart| {
          assert carts'[v] == carts[v];
        } else if u == user {
          assert carts'[u][i] == cart[i];
        }
      }
    }
  }

  /** Rows that read as `rows` except one more on row k read as the bump of row k. */
  lemma BumpedRows(cart: seq<Item>, rows: seq<Line>, k: nat)
    requires k < |cart| == |rows|
    requires forall j :: 0 <= j < |cart| ==>
      cart[j].Row() == if j == k then rows[j].(quantity := rows[j].quantity + 1) else rows[j]
    ensures Lines(cart) == rows[k := rows[k].(quantity := rows[k].quantity + 1)]
  {
  }

  /** Rows nobody wrote to read as they did. */
  twostate lemma LinesUnchanged(items: seq<Item>)
    requires unchanged(items)
    ensures Lines(items) == old(Lines(items))
  {
  }

  /** Writing back the entry a map already holds leaves the map as it was. */
  lemma SameEntry(carts: map<string, seq<Item>>, user: string)
    requires user in carts
    ensures carts[user := carts[user]] == carts
  {
  }

  /** Pushing a row onto a cart appends its value to the cart's rows. */
  lemma PushedRows(cart: seq<Item>, item: Item)
    ensures Lines(cart + [item]) == Lines(cart) + [item.Row()]
  {
    assert (cart + [item])[..|cart|] == cart;
  }

  // ---- the store ----

  class Store {
    var carts: map<string, seq<Item>>
    var addresses: map<string, string>
    var pending: map<string, PendingOrder>
    var waitingAddress: set<string>
    var orders: seq<Order>

    /** The stores satisfy the invariant the handlers keep. */
    ghost predicate Valid()
      reads this
    {
      CartsValid(carts)
    }

    constructor ()
      ensures Valid()
      ensures carts == map[] && addresses == map[] && pending == map[]
      ensures waitingAddress == {} && orders == []
    {
      carts, addresses, pending := map[], map[], map[];
      waitingAddress, orders := {}, [];
    }

    /** `carts.get(phone) || []` */
    function CartOf(user: string): seq<Item>
      reads this
    {
      if user in carts then carts[user] else []
    }

    /** `carts.get(phone + '_address') || 'Adres belirtilmedi'`: an empty address counts as none. */
    function AddressOf(user: string): (a: string)
      reads this
      ensures a != ""
      ensures user in addresses && addresses[user] != "" ==> a == addresses[user]
    {
      if user in addresses && addresses[user] != "" then addresses[user] else NoAddress
    }

    /** The snapshot confirmOrder stores: the current cart's rows (shared), its total, the address. */
    function Snapshot(user: string, payment: Payment, now: nat): (p: PendingOrder)
      reads this, CartOf(user)
      ensures p.cart == CartOf(user) && p.total == Total(Lines(CartOf(user)))
      ensures p.address == AddressOf(user) && p.orderNumber == OrderNumber(now)
    {
      PendingOrder(OrderNumber(now), CartOf(user), Total(Lines(CartOf(user))), AddressOf(user),
                   payment, user, now)
    }

    /** No store entry changed. */
    twostate predicate StoresUnchanged()
      reads this
    {
      && carts == old(carts) && addresses == old(addresses) && pending == old(pending)
      && waitingAddress == old(waitingAddress) && orders == old(orders)
    }

    /** No row of `items` changed its quantity. */
    twostate predicate RowsUnchanged(items: seq<Item>)
      reads items
    {
      forall it :: it in items ==> it.quantity == old(it.quantity)
    }

    /** handleTextMessage */
    method HandleText(user: string, text: string) returns (replies: seq<Reply>)
      requires Valid()
      modifies this
      ensures Valid()
      ensures carts == old(carts) && pending == old(pending) && orders == old(orders)
      ensures user in old(waitingAddress) ==>
        && waitingAddress == old(waitingAddress) - {user}
        && addresses == old(addresses)[user := text]
        && replies == [PaymentPrompt]
      ensures user !in old(waitingAddress) ==>
        && waitingAddress == old(waitingAddress) && addresses == old(addresses)
        && replies == [match TextIntentOf(text)
                       case CartRequest => CartReply(CartOf(user))
                       case _ => MainMenu]
    {
      if user in waitingAddress {
        waitingAddress := waitingAddress - {user};
        addresses := addresses[user := text];
        replies := [PaymentPrompt];
        return;
      }
      match TextIntentOf(text)
      case Greeting => replies := [MainMenu];
      case CartRequest => replies := [CartReply(CartOf(user))];
      case Other => replies := [MainMenu];
    }

    /** handleInteractive */
    method HandleInteractive(user: string, replyId: string, now: nat) returns (replies: seq<Reply>)
      requires Valid()
      modifies this, CartOf(user)
      ensures Valid()
      ensures Classify(replyId).AddProduct? ==> AddedToCart(user, replyId, old(CartOf(user)))
      ensures Classify(replyId).AddProduct? ==>
        replies == if replyId in Products then [CartReply(CartOf(user))] else []
      ensures !Classify(replyId).AddProduct? ==> RowsUnchanged(old(CartOf(user)))
      ensures IsView(Classify(replyId)) ==>
        StoresUnchanged() && replies == ViewReplies(Classify(replyId), CartOf(user))
      ensures Classify(replyId) == ClearCart ==>
        && carts == old(carts) - {user}
        && addresses == old(addresses) && pending == old(pending)
        && waitingAddress == old(waitingAddress) && orders == old(orders)
        && replies == [CartCleared, MainMenu]
      ensures Classify(replyId) == Checkout ==> AskedAddress(user, replies)
      ensures Classify(replyId).Pay? ==> Confirmed(user, Classify(replyId).payment, now, replies)
      ensures Classify(replyId) == Confirm ==> Finalized(user, now, replies)
    {
      var action := Classify(replyId);
      match action
      case AddProduct(id) => replies := AddToCart(user, id);
      case ClearCart =>
        carts := carts - {user};
        replies := [CartCleared, MainMenu];
      case Checkout => replies := AskDeliveryAddress(user);
      case Pay(p) => replies := ConfirmOrder(user, p, now);
      case Confirm => replies := FinalizeOrder(user, now);
      case _ => replies := ViewReplies(action, CartOf(user));
    }

    /**
     * What addToCart does to the stores (for use in the postconditions of its callers): an
     * unknown id changes nothing; for a known id, the first row holding it (as `cart.find`
     * returns it) gains one, in place, and the cart array is kept; when no row holds it, every
     * row is left as it was and a fresh row with quantity 1 is pushed.
     */
    twostate predicate AddedToCart(user: string, productId: string, before: seq<Item>)
      reads this, before, CartOf(user)
    {
      && before == old(CartOf(user))
      && addresses == old(addresses) && pending == old(pending)
      && waitingAddress == old(waitingAddress) && orders == old(orders)
      && (productId !in Products ==> carts == old(carts) && RowsUnchanged(before))
      && (productId in Products ==>
            && user in carts
            && carts == old(carts)[user := carts[user]]
            && var k := FindId(before, productId);
            && (forall i :: 0 <= i < |before| ==>
                  before[i].quantity == old(before[i].quantity) + (if i == k then 1 else 0))
            && if k < |before| then carts[user] == before
               else PushedFresh(carts[user], before, productId))
    }

    /** `cart` is `before` with one fresh row for `productId`, priced from the table, at the end. */
    twostate predicate PushedFresh(new cart: seq<Item>, before: seq<Item>, productId: string)
      requires productId in Products
      reads cart
    {
      && |cart| == |before| + 1 && cart[..|before|] == before
      && fresh(cart[|before|])
      && cart[|before|].Row() == Line(productId, Products[productId].name, Products[productId].price, 1)
    }

    /**
     * addToCart: an unknown id changes nothing and sends nothing; a known one bumps the row
     * holding it, in place, or appends a fresh row, then shows the cart.
     */
    method AddToCart(user: string, productId: string) returns (replies: seq<Reply>)
      requires Valid()
      modifies this, CartOf(user)
      ensures Valid()
      ensures AddedToCart(user, productId, old(CartOf(user)))
      ensures productId in Products ==>
        Lines(CartOf(user)) ==
        AddLine(old(Lines(CartOf(user))), productId, Products[productId].name, Products[productId].price)
      ensures replies == if productId in Products then [CartReply(CartOf(user))] else []
    {
      if productId !in Products {
        return [];
      }
      var k := FindId(CartOf(user), productId);
      if k < |CartOf(user)| {
        BumpRow(user, productId, k);
      } else {
        PushRow(user, productId);
      }
      replies := [CartReply(CartOf(user))];
    }

    /** The `existing.quantity += 1` branch of addToCart: the row is changed in place. */
    method BumpRow(user: string, productId: string, k: nat)
      requires Valid() && productId in Products && user in carts
      requires k < |carts[user]| && k == FindId(carts[user], productId)
      modifies carts[user][k]
      ensures Valid()
      ensures AddedToCart(user, productId, old(CartOf(user)))
      ensures Lines(carts[user]) ==
        AddLine(old(Lines(carts[user])), productId, Products[productId].name, Products[productId].price)
    {
      var cart := carts[user];
      ghost var rows := Lines(cart);
      FoundLine(cart, productId);
      assert WellFormedCart(cart);
      assert forall i :: 0 <= i < |cart| && i != k ==> cart[i] != cart[k];
      cart[k].quantity := cart[k].quantity + 1;
      assert forall i :: 0 <= i < |cart| ==>
        cart[i].quantity == old(cart[i].quantity) + (if i == k then 1 else 0);
      SameEntry(carts, user);
      BumpedRows(cart, rows, k);
      AddLineBumps(rows, productId, Products[productId].name, Products[productId].price, k);
    }

    /** The `cart.push(...)` branch of addToCart: a fresh row with quantity 1 goes last. */
    method PushRow(user: string, productId: string)
      requires Valid() && productId in Products
      requires FindId(CartOf(user), productId) == |CartOf(user)|
      modifies this
      ensures Valid()
      ensures AddedToCart(user, productId, old(CartOf(user)))
      ensures Lines(carts[user]) ==
        AddLine(old(Lines(CartOf(user))), productId, Products[productId].name, Products[productId].price)
    {
      var product := Products[productId];
      var cart := CartOf(user);
      ghost var rows := Lines(cart);
      FoundLine(cart, productId);
      AddLineAppends(rows, productId, product.name, product.price);
      var item := new Item(productId, product.name, product.price);
      PushKeepsValid(carts, user, item);
      carts := carts[user := cart + [item]];
      PushedRows(cart, item);
      LinesUnchanged(cart);
    }

    /** The outcome of askDeliveryAddress. */
    twostate predicate AskedAddress(user: string, replies: seq<Reply>)
      reads this
    {
      && carts == old(carts) && addresses == old(addresses) && pending == old(pending)
      && orders == old(orders)
      && waitingAddress == old(waitingAddress) + {user}
      && replies == [AddressPrompt]
    }

    /** askDeliveryAddress: awaits an address whatever the cart holds, even nothing. */
    method AskDeliveryAddress(user: string) returns (replies: seq<Reply>)
      requires Valid()
      modifies this
      ensures Valid()
      ensures AskedAddress(user, replies)
    {
      waitingAddress := waitingAddress + {user};
      replies := [AddressPrompt];
    }

    /** The outcome of confirmOrder. */
    twostate predicate Confirmed(user: string, payment: Payment, now: nat, replies: seq<Reply>)
      reads this, CartOf(user)
    {
      && carts == old(carts) && addresses == old(addresses)
      && waitingAddress == old(waitingAddress) && orders == old(orders)
      && pending == old(pending)[user := old(Snapshot(user, payment, now))]
      && replies == [OrderSummary(OrderNumber(now), old(Lines(CartOf(user))), old(AddressOf(user)), payment,
                                  old(Total(Lines(CartOf(user)))))]
    }

    /** confirmOrder: snapshots the cart (the array is copied, the rows are shared) as the pending order. */
    method ConfirmOrder(user: string, payment: Payment, now: nat) returns (replies: seq<Reply>)
      requires Valid()
      modifies this
      ensures Valid()
      ensures Confirmed(user, payment, now, replies)
    {
      replies := [OrderSummary(OrderNumber(now), Lines(CartOf(user)), AddressOf(user), payment,
                               Total(Lines(CartOf(user))))];
      pending := pending[user := Snapshot(user, payment, now)];
    }

    /** The outcome of finalizeOrder. */
    twostate predicate Finalized(user: string, now: nat, replies: seq<Reply>)
      reads this
    {
      && (user !in old(pending) ==> StoresUnchanged() && replies == [])
      && (user in old(pending) ==>
            && orders == old(orders) + [Order(old(pending[user]), Received, now)]
            && carts == old(carts) - {user}
            && addresses == old(addresses) - {user}
            && pending == old(pending) - {user}
            && waitingAddress == old(waitingAddress) - {user}
            && replies == [OrderReceived(old(pending[user]).orderNumber)])
    }

    /**
     * finalizeOrder: without a pending order nothing happens and nothing is sent; otherwise the
     * snapshot is appended to the orders once and every per-user entry is removed.
     */
    method FinalizeOrder(user: string, now: nat) returns (replies: seq<Reply>)
      requires Valid()
      modifies this
      ensures Valid()
      ensures Finalized(user, now, replies)
      ensures user !in pending
      ensures user in old(pending) ==> Revenue(orders) == old(Revenue(orders)) + old(pending[user].total)
    {
      if user !in pending {
        return [];
      }
      var order := pending[user];
      RevenueSnoc(orders, Order(order, Received, now));
      orders := orders + [Order(order, Received, now)];
      carts := carts - {user};
      addresses := addresses - {user};
      pending := pending - {user};
      waitingAddress := waitingAddress - {user};
      replies := [OrderReceived(order.orderNumber)];
    }

    /**
     * `cart: [...cart]` copies the array but not the rows: selecting, after the order summary,
     * a product that is already in the cart raises the quantity the pending order shows while its
     * recorded total stays, so the two no longer agree.
     */
    method SelectAfterSummary(user: string, payment: Payment, now: nat, productId: string)
      returns (replies: seq<Reply>)
      requires Valid() && productId in Products
      requires FindId(CartOf(user), productId) < |CartOf(user)|
      modifies this, CartOf(user)
      ensures Valid()
      ensures user in pending && pending[user].cart == CartOf(user)
      ensures pending[user].total == old(Total(Lines(CartOf(user))))
      ensures Total(Lines(pending[user].cart)) == pending[user].total + Products[productId].price
    {
      ghost var snapshot := Snapshot(user, payment, now);
      var summary := ConfirmOrder(user, payment, now);
      assert pending[user] == snapshot && snapshot.cart == CartOf(user);
      LinesUnchanged(CartOf(user));
      replies := SelectInSnapshot(user, productId);
    }

    /**
     * Selecting a product already in a cart whose array the pending order holds: addToCart takes
     * its `existing.quantity += 1` branch, and the pending order's rows change with it.
     */
    method SelectInSnapshot(user: string, productId: string) returns (replies: seq<Reply>)
      requires Valid() && productId in Products
      requires FindId(CartOf(user), productId) < |CartOf(user)|
      requires user in pending && pending[user].cart == CartOf(user)
      modifies CartOf(user)
      ensures Valid()
      ensures pending == old(pending) && pending[user].cart == CartOf(user)
      ensures Total(Lines(CartOf(user))) == old(Total(Lines(CartOf(user)))) + Products[productId].price
    {
      var cart := carts[user];
      ghost var rows := Lines(cart);
      var k := FindId(cart, productId);
      FoundLine(cart, productId);
      AddLineEffect(rows, productId, Products[productId].name, Products[productId].price);
      assert Priced(cart[k]);
      BumpRow(user, productId, k);
      replies := [CartReply(cart)];
    }

    /** The same product selected twice by a user with no cart: one row, quantity two. */
    method SelectTwice(user: string, productId: string) returns (replies: seq<Reply>)
      requires Valid() && user !in carts && productId in Products
      modifies this
      ensures Valid()
      ensures addresses == old(addresses) && pending == old(pending)
      ensures waitingAddress == old(waitingAddress) && orders == old(orders)
      ensures user in carts
      ensures Lines(carts[user]) == [Line(productId, Products[productId].name, Products[productId].price, 2)]
    {
      var product := Products[productId];
      var once := Line(productId, product.name, product.price, 1);
      assert Lines(CartOf(user)) == [];
      AddLineAppends([], productId, product.name, product.price);
      var r1 := AddToCart(user, productId);
      assert Lines(CartOf(user)) == [once];
      AddLineBumps([once], productId, product.name, product.price, 0);
      var r2 := AddToCart(user, productId);
      replies := r1 + r2;
    }

    /** Confirming twice: the second `order_confirm` finds no pending order, appends nothing and sends nothing. */
    method ConfirmTwice(user: string, now: nat, later: nat) returns (first: seq<Reply>, second: seq<Reply>)
      requires Valid()
      modifies this
      ensures Valid()
      ensures user in old(pending) ==> orders == old(orders) + [Order(old(pending[user]), Received, now)]
      ensures user !in old(pending) ==> orders == old(orders)
      ensures second == []
    {
      first := FinalizeOrder(user, now);
      second := FinalizeOrder(user, later);
    }

    /** `order_cancel` sends the "cancelled" text and the main menu, and changes no store. */
    method CancelOrder(user: string, now: nat) returns (replies: seq<Reply>)
      requires Valid()
      modifies this, CartOf(user)
      ensures Valid() && StoresUnchanged()
      ensures replies == [OrderCancelled, MainMenu]
    {
      assert Classify("order_cancel") == Cancel;
      replies := HandleInteractive(user, "order_cancel", now);
    }

    /**
     * The pending order outlives `order_cancel`: an `order_confirm` pressed afterwards still
     * records it.
     */
    method CancelThenConfirm(user: string, now: nat, later: nat) returns (replies: seq<Reply>)
      requires Valid() && user in pending
      modifies this, CartOf(user)
      ensures Valid()
      ensures orders == old(orders) + [Order(old(pending[user]), Received, later)]
      ensures replies == [OrderCancelled, MainMenu, OrderReceived(old(pending[user]).orderNumber)]
    {
      var r1 := CancelOrder(user, now);
      assert Classify("order_confirm") == Confirm;
      var r2 := HandleInteractive(user, "order_confirm", later);
      replies := r1 + r2;
    }

    /**
     * A whole order, from a user with no cart and no pending order: one product selected twice,
     * checkout, the address typed, cash chosen and the order confirmed. Exactly one order is
     * appended, with both portions, twice the price as total, the address and the order number
     * of the summary, and nothing of the user's is left in the stores.
     */
    method OrderScenario(user: string, productId: string, address: string, now: nat, later: nat)
      returns (replies: seq<Reply>)
      requires Valid() && user !in carts && productId in Products
      modifies this
      ensures Valid()
      ensures |orders| == |old(orders)| + 1 && orders[..|old(orders)|] == old(orders)
      ensures var o, product := orders[|orders| - 1], Products[productId];
        && |o.snapshot.cart| == 1 && o.snapshot.cart[0].Row() == Line(productId, product.name, product.price, 2)
        && o.snapshot.total == 2 * product.price
        && o.snapshot.address == (if address != "" then address else NoAddress)
        && o.snapshot.payment == Cash && o.snapshot.orderNumber == OrderNumber(now)
        && o.status == Received
      ensures user !in carts && user !in addresses && user !in pending && user !in waitingAddress
    {
      var product := Products[productId];
      var twice := Line(productId, product.name, product.price, 2);
      var r1 := SelectTwice(user, productId);
      var cart := carts[user];
      assert Lines(cart) == [twice];
      assert |cart| == 1 && cart[0].Row() == twice;
      assert Total([twice]) == 2 * product.price by {
        assert [twice][..0] == [];
      }
      ghost var shipTo := if address != "" then address else NoAddress;
      label Filled:
      var r2 := CheckoutWithCash(user, address, now, later);
      assert orders[|orders| - 1] ==
        Order(PendingOrder(OrderNumber(now), cart, 2 * product.price, shipTo, Cash, user, now), Received, later);
      replies := r1 + r2;
    }

    /**
     * From a filled cart: checkout, the address typed, cash chosen, the order confirmed. One order
     * is appended, holding the cart's rows, its total, the address and the summary's order number.
     */
    method CheckoutWithCash(user: string, address: string, now: nat, later: nat) returns (replies: seq<Reply>)
      requires Valid() && user in carts
      modifies this
      ensures Valid()
      ensures orders == old(orders) + [Order(PendingOrder(OrderNumber(now), old(carts[user]), old(Total(Lines(carts[user]))),
                                                          if address != "" then address else NoAddress, Cash, user, now),
                                             Received, later)]
      ensures user !in carts && user !in addresses && user !in pending && user !in waitingAddress
    {
      ghost var cart := carts[user];
      ghost var rows := Lines(cart);
      var r1 := AskDeliveryAddress(user);
      var r2 := HandleText(user, address);
      LinesUnchanged(cart);
      assert CartOf(user) == cart;
      ghost var shipTo := if address != "" then address else NoAddress;
      assert AddressOf(user) == shipTo;
      var r3 := ConfirmOrder(user, Cash, now);
      assert pending[user] == PendingOrder(OrderNumber(now), cart, Total(rows), shipTo, Cash, user, now);
      var r4 := FinalizeOrder(user, later);
      replies := r1 + r2 + r3 + r4;
    }
  }
}
