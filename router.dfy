/**
 * The stateless router of server.js: a free-text message is lower-cased and matched against
 * keyword groups in a fixed order, and a list/button selection id is compared with four exact ids
 * before its prefix (`business_`, `cat_`, `prod_`) is looked at. Each handler is modelled as the
 * directive it sends (which view, with which parameter); building and sending the message is left
 * to the catalogue views of DriveMenu and to the transport.
 */
module Router {
  import opened Text
  import DriveMenu

  /** The views server.js asks for. */
  datatype Directive =
    | BusinessMainMenu                      // sendBusinessMainMenu
    | BusinessList                          // sendBusinessList, no search keyword
    | FeaturedBusinesses                    // sendFeaturedBusinesses
    | CampaignBusinesses                    // sendCampaignBusinesses
    | CategoryList(businessName: string)    // sendCategoryList
    | ProductList(categoryName: string)     // sendProductList
    | ProductSelection(productId: string)   // handleProductSelection
    | HelpText                              // the help text

  // ---- free text ----

  /** Some keyword of the group occurs in the text. */
  predicate AnyIn(text: string, words: seq<string>) {
    exists w :: w in words && Contains(text, w)
  }

  /** The keyword groups of handleTextMessage, in the order they are tried, with the view each asks for. */
  const TextRules: seq<(seq<string>, Directive)> := [
    (["merhaba", "selam", "hi", "hello"], BusinessMainMenu),
    (["menü", "menu"], BusinessMainMenu),
    (["sipariş", "siparis", "order"], BusinessList),
    (["kampanya", "indirim"], CampaignBusinesses),
    (["önerilen", "populer", "popular"], FeaturedBusinesses),
    (["restoran", "restaurant"], BusinessList),
    (["yardım", "help"], HelpText)
  ]

  /** The index of the first group with a keyword in the text, or the number of groups if none has. */
  function FirstMatch(text: string, rules: seq<(seq<string>, Directive)>): (k: nat)
    ensures k <= |rules|
    ensures k < |rules| ==> AnyIn(text, rules[k].0)
    ensures forall j :: 0 <= j < k ==> !AnyIn(text, rules[j].0)
  {
    if rules == [] then 0
    else if AnyIn(text, rules[0].0) then 0
    else 1 + FirstMatch(text, rules[1..])
  }

  /**
   * handleTextMessage on already lower-cased text: the first group with a keyword in the text
   * decides, and text with no keyword at all gets the main menu.
   */
  function RouteText(text: string): (d: Directive)
    ensures (forall k :: 0 <= k < |TextRules| ==> !AnyIn(text, TextRules[k].0)) ==> d == BusinessMainMenu
    ensures forall k ::
      (0 <= k < |TextRules| && AnyIn(text, TextRules[k].0) && (forall j :: 0 <= j < k ==> !AnyIn(text, TextRules[j].0)))
      ==> d == TextRules[k].1
  {
    var k := FirstMatch(text, TextRules);
    if k < |TextRules| then TextRules[k].1 else BusinessMainMenu
  }

  /**
   * A text message as it arrives: the webhook lower-cases it before handleTextMessage sees it.
   * Text holding no keyword, in any case of ASCII letters, gets the main menu.
   */
  function HandleText(message: string): (d: Directive)
    ensures (forall k :: 0 <= k < |TextRules| ==> !AnyIn(Lower(message), TextRules[k].0)) ==> d == BusinessMainMenu
  {
    RouteText(Lower(message))
  }

  /**
   * Greetings are tried first: any text containing "hi" (so also "hi, siparis vermek istiyorum",
   * and "chicken order") gets the main menu, whatever other keyword it holds.
   */
  lemma GreetingWins(message: string)
    requires Contains(Lower(message), "hi")
    ensures HandleText(message) == BusinessMainMenu
  {
    assert "hi" in TextRules[0].0;
    assert AnyIn(Lower(message), TextRules[0].0);
  }

  /**
   * An order keyword leads to the business list only when no greeting or menu keyword is present;
   * a help keyword gives the help text only when no keyword of any earlier group is present.
   */
  lemma OrderAndHelpRouting(message: string)
    ensures var s := Lower(message);
      && ((Contains(s, "siparis") && !AnyIn(s, TextRules[0].0) && !AnyIn(s, TextRules[1].0))
          ==> HandleText(message) == BusinessList)
      && ((Contains(s, "help") && (forall j :: 0 <= j < 6 ==> !AnyIn(s, TextRules[j].0)))
          ==> HandleText(message) == HelpText)
  {
    var s := Lower(message);
    assert "siparis" in TextRules[2].0;
    assert "help" in TextRules[6].0;
    if Contains(s, "siparis") {
      assert AnyIn(s, TextRules[2].0);
    }
    if Contains(s, "help") {
      assert AnyIn(s, TextRules[6].0);
    }
  }

  /** Matching ignores the case of ASCII letters: a message and its lower-cased form route alike. */
  lemma CaseInsensitive(message: string)
    ensures HandleText(Lower(message)) == HandleText(message)
  {
    LowerIdempotent(message);
  }

  // ---- selection ids ----

  /** The ids handleInteractiveReply compares for equality before it looks at prefixes. */
  const ExactIds: set<string> := {"action_new_order", "menu_featured", "menu_campaign", "menu_all"}

  /** The business whose menu every `business_` id shows: the id itself is not used. */
  const BusinessShown: string := "Lezzet Durağı"

  /** handleInteractiveReply: exact ids first, then the three prefixes (stripped), then two more ids. */
  function HandleInteractiveReply(replyId: string): (d: Directive)
    ensures d.CategoryList? <==> replyId !in ExactIds && StartsWith(replyId, "business_")
    ensures d.CategoryList? ==> d.businessName == BusinessShown
    ensures d.ProductList? <==>
      replyId !in ExactIds && !StartsWith(replyId, "business_") && StartsWith(replyId, "cat_")
    ensures d.ProductList? ==> "cat_" + d.categoryName == replyId
    ensures d.ProductSelection? <==>
      replyId !in ExactIds && !StartsWith(replyId, "business_") && !StartsWith(replyId, "cat_")
      && StartsWith(replyId, "prod_")
    ensures d.ProductSelection? ==> "prod_" + d.productId == replyId
    ensures d == HelpText <==> replyId == "action_help"
    ensures d == BusinessMainMenu <==>
      replyId !in ExactIds && replyId != "action_help"
      && !StartsWith(replyId, "business_") && !StartsWith(replyId, "cat_") && !StartsWith(replyId, "prod_")
  {
    if replyId == "action_new_order" then BusinessList
    else if replyId == "menu_featured" then FeaturedBusinesses
    else if replyId == "menu_campaign" then CampaignBusinesses
    else if replyId == "menu_all" then BusinessList
    else if StartsWith(replyId, "business_") then
      assert replyId[0] == 'b';
      CategoryList(BusinessShown)
    else if StartsWith(replyId, "cat_") then
      assert replyId[0] == 'c';
      StripPrefix(replyId, "cat_");
      ProductList(ReplaceFirst(replyId, "cat_", ""))
    else if StartsWith(replyId, "prod_") then
      assert replyId[0] == 'p';
      StripPrefix(replyId, "prod_");
      ProductSelection(ReplaceFirst(replyId, "prod_", ""))
    else if replyId == "action_menu" then BusinessMainMenu
    else if replyId == "action_help" then HelpText
    else BusinessMainMenu
  }

  /** The four exact ids: "new order" and "all" list every business, the other two their own selection. */
  lemma ExactIdRoutes()
    ensures HandleInteractiveReply("action_new_order") == BusinessList
    ensures HandleInteractiveReply("menu_all") == BusinessList
    ensures HandleInteractiveReply("menu_featured") == FeaturedBusinesses
    ensures HandleInteractiveReply("menu_campaign") == CampaignBusinesses
  {
  }

  /** The id of a product row, `'prod_' + p.id`, comes back as the product id `p.id`. */
  lemma ProductIdRoundTrip(productId: string)
    ensures HandleInteractiveReply("prod_" + productId) == ProductSelection(productId)
  {
    var id := "prod_" + productId;
    assert id[..5] == "prod_";
    assert id[0] == 'p';
  }

  /** A category id `'cat_' + key` asks for the products stored under `key`. */
  lemma CategoryIdRoundTrip(key: string)
    ensures HandleInteractiveReply("cat_" + key) == ProductList(key)
  {
    var id := "cat_" + key;
    assert id[..4] == "cat_";
    assert id[0] == 'c';
  }

  // ---- product selection ----

  /** `Object.values(menu.products).flat()`: every product, category by category, in order. */
  function AllProducts(entries: seq<(string, seq<DriveMenu.Product>)>): seq<DriveMenu.Product> {
    if entries == [] then [] else entries[0].1 + AllProducts(entries[1..])
  }

  /** A product is among all products exactly when some category holds it. */
  lemma {:induction false} AllProductsMembers(entries: seq<(string, seq<DriveMenu.Product>)>, p: DriveMenu.Product)
    ensures p in AllProducts(entries) <==> exists k :: 0 <= k < |entries| && p in entries[k].1
  {
    if entries != [] {
      AllProductsMembers(entries[1..], p);
      if p in AllProducts(entries[1..]) {
        var k :| 0 <= k < |entries[1..]| && p in entries[1..][k].1;
        assert entries[k + 1] == entries[1..][k];
      }
      if exists k :: 0 <= k < |entries| && p in entries[k].1 {
        var k :| 0 <= k < |entries| && p in entries[k].1;
        if k > 0 {
          assert entries[1..][k - 1] == entries[k];
        }
      }
    }
  }

  /** `allProducts.find(p => p.id === productId)`: the index of the first product with that id, or the length. */
  function FindProduct(ps: seq<DriveMenu.Product>, productId: string): (k: nat)
    ensures k <= |ps|
    ensures k < |ps| ==> ps[k].id == productId
    ensures forall j :: 0 <= j < k ==> ps[j].id != productId
  {
    if ps == [] then 0 else if ps[0].id == productId then 0 else 1 + FindProduct(ps[1..], productId)
  }

  /** What handleProductSelection sends: "product not found", or the details of the product found. */
  datatype Selection = ProductNotFound | ProductDetail(product: DriveMenu.Product)

  /**
   * handleProductSelection: the first product, over all categories in order, whose id is the one
   * selected; no product with that id gives "product not found". Nothing is stored: server.js
   * keeps no cart.
   */
  function HandleProductSelection(menu: DriveMenu.Menu, productId: string): (r: Selection)
    ensures r == ProductNotFound <==> forall p :: p in AllProducts(menu.products) ==> p.id != productId
    ensures r.ProductDetail? ==>
      var all := AllProducts(menu.products);
      exists k :: 0 <= k < |all| && all[k] == r.product && r.product.id == productId
                  && forall j :: 0 <= j < k ==> all[j].id != productId
  {
    var all := AllProducts(menu.products);
    var k := FindProduct(all, productId);
    if k < |all| then ProductDetail(all[k]) else ProductNotFound
  }

  /**
   * The round trip through a product list: selecting row i of the list sent for a category asks
   * for the product that row was made from, and the lookup finds a product with that id (the
   * first one, which may sit in an earlier category under the same id).
   */
  lemma SelectedRowIsFound(menu: DriveMenu.Menu, name: string, i: nat)
    requires DriveMenu.ProductList(menu, name).ProductRows?
    requires i < |DriveMenu.ProductList(menu, name).rows|
    ensures var shown := DriveMenu.Shown(menu, name);
      && i < |shown|
      && HandleInteractiveReply(DriveMenu.ProductList(menu, name).rows[i].id) == ProductSelection(shown[i].id)
      && HandleProductSelection(menu, shown[i].id).ProductDetail?
      && HandleProductSelection(menu, shown[i].id).product.id == shown[i].id
  {
    var ps := DriveMenu.CategoryProducts(menu.products, name);
    var shown := DriveMenu.Shown(menu, name);
    var p := shown[i];
    ProductIdRoundTrip(p.id);
    assert p in shown;
    var k :| 0 <= k < |menu.products| && menu.products[k] == (name, ps);
    AllProductsMembers(menu.products, p);
    assert p in AllProducts(menu.products);
  }
}
