/**
 * The catalogue-driven views of interactive-messages-DRIVE.js: the menu document fetched from a
 * file share and kept for five minutes, the built-in menu used when nothing was ever fetched,
 * and the data each list message is built from (featured and campaign businesses, the search
 * result, the categories grouped by section, the available products of a category).
 *
 * The fetch itself is not modelled: each call to the cache receives the outcome of the fetch it
 * would make (the parsed menu and the clock reading taken when it arrived, or a failure), and the
 * clock reading taken on entry. Truthy flags (`b.featured`, `b.campaign`) are booleans here;
 * a missing flag is `false`.
 */
module DriveMenu {
  import opened Options
  import opened Text
  import opened Lists

  // ---- the menu document ----

  /** A business `{ id, name, category, featured, campaign }` (its rating only feeds display text). */
  datatype Business = Business(id: string, name: string, category: string, featured: bool, campaign: bool)

  /** A category `{ id, title, description, section }`; the section may be missing. */
  datatype Category = Category(id: string, title: string, description: string, section: Option<string>)

  /**
   * A product `{ id, name, price, description, available }`; the price is display text such as
   * "250₺", the description and the availability flag may be missing.
   */
  datatype Product = Product(id: string, name: string, price: string, description: Option<string>,
                             available: Option<bool>)

  /**
   * The menu: businesses, categories, and `products`, an object from category key to product
   * array, kept as its entries in property order.
   */
  datatype Menu = Menu(businesses: seq<Business>, categories: seq<Category>,
                       products: seq<(string, seq<Product>)>)

  /** getFallbackMenu: one business, one category and one product, all available. */
  function FallbackMenu(): (m: Menu)
    ensures |m.businesses| == 1 && m.businesses[0].featured && m.businesses[0].campaign
    ensures |m.categories| == 1 && m.categories[0].id == "cat_kebap"
    ensures |m.products| == 1 && m.products[0].0 == "kebap" && |m.products[0].1| == 1
    ensures m.products[0].1[0].available == Some(true)
  {
    Menu(
      [Business("business_lezzet", "🍖 Lezzet Durağı", "Kebap & Türk Mutfağı", true, true)],
      [Category("cat_kebap", "🍖 Kebaplar", "Izgara kebap çeşitleri", Some("Ana Yemekler"))],
      [("kebap", [Product("prod_001", "Adana Kebap", "250₺", Some("Közde pişmiş"), Some(true))])])
  }

  // ---- the five-minute cache ----

  /** How long a fetched menu is served without fetching again: five minutes, in milliseconds. */
  const CacheDuration: int := 5 * 60 * 1000

  /** What the fetch brings: the parsed menu and the clock reading once it arrived, or a failure. */
  datatype FetchOutcome = Fetched(data: Menu, doneAt: int) | FetchFailed

  /** The module state `menuCache` and `lastFetch` (`null` is `None`). */
  datatype CacheState = CacheState(menu: Option<Menu>, lastFetch: Option<int>)

  /** `menuCache && lastFetch && (Date.now() - lastFetch < CACHE_DURATION)`; a clock reading of 0 is falsy. */
  predicate Fresh(s: CacheState, now: int) {
    s.menu.Some? && s.lastFetch.Some? && s.lastFetch.value != 0 && now - s.lastFetch.value < CacheDuration
  }

  /**
   * One call of getMenuFromDrive: the new cache state and the menu returned. A fresh cache is
   * served without fetching; otherwise a successful fetch replaces the cache and its time, and a
   * failed one leaves both as they were and serves the stale menu, or the built-in one when there
   * is none.
   */
  function CacheStep(s: CacheState, now: int, outcome: FetchOutcome): (r: (CacheState, Menu))
    ensures r.1 == FallbackMenu() || Some(r.1) == r.0.menu
    ensures r.0 == s || (outcome.Fetched? && r.0 == CacheState(Some(outcome.data), Some(outcome.doneAt)))
  {
    if Fresh(s, now) then (s, s.menu.value)
    else match outcome
      case Fetched(data, doneAt) => (CacheState(Some(data), Some(doneAt)), data)
      case FetchFailed => (s, if s.menu.Some? then s.menu.value else FallbackMenu())
  }

  /** A fresh cache answers whatever the fetch would have brought: no fetch happens. */
  lemma CacheHit(s: CacheState, now: int, outcome: FetchOutcome)
    requires Fresh(s, now)
    ensures CacheStep(s, now, outcome) == (s, s.menu.value)
    ensures forall other :: CacheStep(s, now, other) == CacheStep(s, now, outcome)
  {
  }

  /** A stale or empty cache and a successful fetch: the fetched menu is stored, stamped and served. */
  lemma CacheRefill(s: CacheState, now: int, data: Menu, doneAt: int)
    requires !Fresh(s, now)
    ensures CacheStep(s, now, Fetched(data, doneAt)) == (CacheState(Some(data), Some(doneAt)), data)
  {
  }

  /**
   * A failed fetch changes neither `menuCache` nor `lastFetch`; it serves the stale menu when
   * there is one and the built-in menu otherwise, and the next call at the same time fetches again.
   */
  lemma CacheFailure(s: CacheState, now: int)
    requires !Fresh(s, now)
    ensures CacheStep(s, now, FetchFailed).0 == s
    ensures CacheStep(s, now, FetchFailed).1 == if s.menu.Some? then s.menu.value else FallbackMenu()
    ensures forall outcome: FetchOutcome :: outcome.Fetched? ==> CacheStep(CacheStep(s, now, FetchFailed).0, now, outcome).1 == outcome.data
  {
  }

  /**
   * A menu fetched and stamped at a non-zero time `doneAt` is served, unchanged and without
   * fetching, by every later call less than five minutes after it.
   */
  lemma ServedForFiveMinutes(s: CacheState, now: int, data: Menu, doneAt: int, later: int, outcome: FetchOutcome)
    requires !Fresh(s, now)
    requires doneAt != 0 && later - doneAt < CacheDuration
    ensures var s' := CacheStep(s, now, Fetched(data, doneAt)).0;
      CacheStep(s', later, outcome) == (s', data)
  {
  }

  /** Once a menu has been fetched, the built-in menu is never served again unless it is the cached one. */
  lemma StaleBeatsFallback(s: CacheState, now: int, outcome: FetchOutcome)
    requires s.menu.Some?
    ensures var r := CacheStep(s, now, outcome);
      r.1 == s.menu.value || (outcome.Fetched? && r.1 == outcome.data)
  {
  }

  /** The cache of getMenuFromDrive, as the two module variables it updates. */
  class MenuCache {
    var menuCache: Option<Menu>
    var lastFetch: Option<int>

    /** The two variables are set together, so either both are `null` or neither is. */
    predicate Valid()
      reads this
    {
      menuCache.Some? <==> lastFetch.Some?
    }

    function State(): CacheState
      reads this
    {
      CacheState(menuCache, lastFetch)
    }

    /** `let menuCache = null; let lastFetch = null;` */
    constructor ()
      ensures Valid() && menuCache == None && lastFetch == None
    {
      menuCache := None;
      lastFetch := None;
    }

    /** getMenuFromDrive, with the entry clock reading and the fetch outcome given. */
    method GetMenu(now: int, outcome: FetchOutcome) returns (menu: Menu)
      requires Valid()
      modifies this
      ensures Valid()
      ensures (State(), menu) == CacheStep(old(State()), now, outcome)
    {
      if menuCache.Some? && lastFetch.Some? && lastFetch.value != 0 && now - lastFetch.value < CacheDuration {
        return menuCache.value;
      }
      match outcome
      case Fetched(data, doneAt) =>
        menuCache := Some(data);
        lastFetch := Some(doneAt);
        menu := data;
      case FetchFailed =>
        if menuCache.Some? {
          menu := menuCache.value;
        } else {
          menu := FallbackMenu();
        }
    }
  }

  // ---- featured and campaign businesses ----

  /** The `featured` flag, truthy or not. */
  predicate IsFeatured(b: Business) {
    b.featured
  }

  /** The `campaign` flag, truthy or not. */
  predicate IsCampaign(b: Business) {
    b.campaign
  }

  /** `menu.businesses.filter(b => b.featured)` */
  function Featured(businesses: seq<Business>): (r: seq<Business>)
    ensures forall b :: b in r <==> b in businesses && b.featured
  {
    Filter(businesses, IsFeatured)
  }

  /** `menu.businesses.filter(b => b.campaign)` */
  function Campaigns(businesses: seq<Business>): (r: seq<Business>)
    ensures forall b :: b in r <==> b in businesses && b.campaign
  {
    Filter(businesses, IsCampaign)
  }

  /**
   * Both filters keep the original order: the result for a concatenation is the concatenation of
   * the results, a business with the flag is kept alone and one without it is dropped.
   */
  lemma FlagFiltersKeepOrder(a: seq<Business>, c: seq<Business>, b: Business)
    ensures Featured(a + c) == Featured(a) + Featured(c)
    ensures Campaigns(a + c) == Campaigns(a) + Campaigns(c)
    ensures Featured([b]) == (if b.featured then [b] else [])
    ensures Campaigns([b]) == (if b.campaign then [b] else [])
  {
    FilterAppend(a, c, IsFeatured);
    FilterAppend(a, c, IsCampaign);
  }

  // ---- the business list and its search ----

  /** The most rows a list message carries. */
  const MaxRows: nat := 10

  /** The search test: the lower-cased name or category contains the lower-cased keyword. */
  predicate Matches(b: Business, keyword: string) {
    Contains(Lower(b.name), Lower(keyword)) || Contains(Lower(b.category), Lower(keyword))
  }

  /** The search test for one keyword, as the callback `filter` receives. */
  function Matcher(keyword: string): Business -> bool {
    b => Matches(b, keyword)
  }

  /** The businesses left after the search filter; an empty keyword (or none) filters nothing. */
  function Searched(businesses: seq<Business>, keyword: string): (r: seq<Business>)
    ensures keyword == "" ==> r == businesses
    ensures keyword != "" ==> forall b :: b in r <==> b in businesses && Matches(b, keyword)
  {
    if keyword == "" then businesses else Filter(businesses, Matcher(keyword))
  }

  /**
   * The search keeps the menu's order: the result for a concatenation is the concatenation of
   * the results, and one business is kept alone exactly when it matches (or there is no keyword).
   */
  lemma SearchKeepsOrder(a: seq<Business>, c: seq<Business>, b: Business, keyword: string)
    ensures Searched(a + c, keyword) == Searched(a, keyword) + Searched(c, keyword)
    ensures Searched([b], keyword) == if keyword == "" || Matches(b, keyword) then [b] else []
  {
    if keyword != "" {
      FilterAppend(a, c, Matcher(keyword));
    }
  }

  /** What sendBusinessList sends: the "no results" text, or at most ten rows and the match count. */
  datatype BusinessView = NoResults | BusinessRows(rows: seq<Business>, found: nat)

  function BusinessList(businesses: seq<Business>, keyword: string): (v: BusinessView)
    ensures v == NoResults <==> Searched(businesses, keyword) == []
    ensures v.BusinessRows? ==> var r := Searched(businesses, keyword);
      && v.found == |r| && |v.rows| <= MaxRows && |v.rows| <= |r|
      && v.rows == r[..|v.rows|]
      && (|r| <= MaxRows ==> v.rows == r)
      && (|r| > MaxRows ==> |v.rows| == MaxRows)
  {
    var r := Searched(businesses, keyword);
    if |r| == 0 then NoResults else BusinessRows(Take(r, MaxRows), |r|)
  }

  /**
   * With a keyword, a business is listed only if it matches, and no business matches when the
   * "no results" text is sent; without one, the list is the first ten businesses.
   */
  lemma SearchedRows(businesses: seq<Business>, keyword: string)
    ensures var v := BusinessList(businesses, keyword);
      && (keyword != "" && v.BusinessRows? ==> forall b :: b in v.rows ==> b in businesses && Matches(b, keyword))
      && (keyword != "" && v == NoResults ==> forall b :: b in businesses ==> !Matches(b, keyword))
      && (keyword == "" && businesses != [] ==> v.BusinessRows? && v.rows == Take(businesses, MaxRows))
  {
    var v := BusinessList(businesses, keyword);
    var r := Searched(businesses, keyword);
    if keyword != "" && v.BusinessRows? {
      forall b | b in v.rows ensures b in businesses && Matches(b, keyword) {
        assert b in r;
      }
    }
  }

  // ---- categories grouped by section ----

  /** The name a category is grouped under: its section, or "Diğer" (other) when that is missing or empty. */
  function SectionOf(c: Category): string {
    if c.section.Some? && c.section.value != "" then c.section.value else "Diğer"
  }

  /** The row pushed for a category: `{ id, title, description }`. */
  datatype CategoryRow = CategoryRow(id: string, title: string, description: string)

  function RowOf(c: Category): CategoryRow {
    CategoryRow(c.id, c.title, c.description)
  }

  /** A section of the list message: its title and rows. */
  datatype Section = Section(title: string, rows: seq<CategoryRow>)

  /** The section names in the order they first appear, each once: the keys of `grouped`, in order. */
  function SectionNames(cats: seq<Category>): seq<string> {
    if cats == [] then []
    else
      var names, last := SectionNames(cats[..|cats| - 1]), cats[|cats| - 1];
      if SectionOf(last) in names then names else names + [SectionOf(last)]
  }

  /** No name occurs twice. */
  predicate Distinct(names: seq<string>) {
    forall i, j :: 0 <= i < j < |names| ==> names[i] != names[j]
  }

  /** No section is listed twice. */
  lemma {:induction false} SectionNamesDistinct(cats: seq<Category>)
    ensures Distinct(SectionNames(cats))
  {
    if cats != [] {
      SectionNamesDistinct(cats[..|cats| - 1]);
    }
  }

  /** Every category's section is listed. */
  lemma {:induction false} SectionNamesCover(cats: seq<Category>, i: nat)
    requires i < |cats|
    ensures SectionOf(cats[i]) in SectionNames(cats)
  {
    if i < |cats| - 1 {
      SectionNamesCover(cats[..|cats| - 1], i);
    }
  }

  /** Only the sections of the categories are listed. */
  lemma {:induction false} SectionNamesOnly(cats: seq<Category>, name: string)
    requires forall i :: 0 <= i < |cats| ==> SectionOf(cats[i]) != name
    ensures name !in SectionNames(cats)
  {
    if cats != [] {
      SectionNamesOnly(cats[..|cats| - 1], name);
    }
  }

  /** The rows of the categories grouped under `name`, in their original order. */
  function RowsIn(cats: seq<Category>, name: string): seq<CategoryRow> {
    if cats == [] then []
    else
      var last := cats[|cats| - 1];
      RowsIn(cats[..|cats| - 1], name) + (if SectionOf(last) == name then [RowOf(last)] else [])
  }

  /** One section per name, in the order given, each holding the rows grouped under that name. */
  function SectionsFor(cats: seq<Category>, names: seq<string>): (ss: seq<Section>)
    ensures |ss| == |names|
    ensures forall k :: 0 <= k < |names| ==> ss[k] == Section(names[k], RowsIn(cats, names[k]))
  {
    if names == [] then []
    else SectionsFor(cats, names[..|names| - 1]) + [Section(names[|names| - 1], RowsIn(cats, names[|names| - 1]))]
  }

  /** The sections sendCategoryList sends. */
  function Sections(cats: seq<Category>): seq<Section> {
    SectionsFor(cats, SectionNames(cats))
  }

  /**
   * sendCategoryList's grouping: each category's row is pushed onto the array of its section,
   * created on first sight, then one section is made per key of `grouped` in insertion order.
   */
  method GroupCategories(cats: seq<Category>) returns (sections: seq<Section>)
    ensures sections == Sections(cats)
  {
    var grouped, keys := GroupBySection(cats);
    sections := SectionsOf(cats, grouped, keys);
  }

  /** The grouping loop; `keys` is the insertion order of `grouped`'s keys. */
  method GroupBySection(cats: seq<Category>) returns (grouped: map<string, seq<CategoryRow>>, keys: seq<string>)
    ensures GroupedAs(cats, grouped, keys)
  {
    grouped, keys := map[], [];
    var i := 0;
    while i < |cats|
      invariant 0 <= i <= |cats|
      invariant GroupedAs(cats[..i], grouped, keys)
    {
      var cat := cats[i];
      var section := SectionOf(cat);
      GroupedSnoc(cats[..i], cat, grouped, keys);
      if section !in grouped {
        grouped := grouped[section := []];
        keys := keys + [section];
      }
      grouped := grouped[section := grouped[section] + [RowOf(cat)]];
      assert cats[..i + 1] == cats[..i] + [cat];
      i := i + 1;
    }
    assert cats[..i] == cats;
  }

  /** `Object.entries(grouped).map(...)`: one section per key, in insertion order. */
  method SectionsOf(cats: seq<Category>, grouped: map<string, seq<CategoryRow>>, keys: seq<string>)
    returns (sections: seq<Section>)
    requires GroupedAs(cats, grouped, keys)
    ensures sections == SectionsFor(cats, keys)
  {
    sections := [];
    var k := 0;
    while k < |keys|
      invariant 0 <= k <= |keys|
      invariant sections == SectionsFor(cats, keys[..k])
    {
      assert keys[..k + 1][..k] == keys[..k];
      sections := sections + [Section(keys[k], grouped[keys[k]])];
      k := k + 1;
    }
    assert keys[..k] == keys;
  }

  /** `grouped` and its key order, after the categories `done` have been pushed. */
  ghost predicate GroupedAs(done: seq<Category>, grouped: map<string, seq<CategoryRow>>, keys: seq<string>) {
    && keys == SectionNames(done)
    && (forall n :: n in grouped <==> n in keys)
    && (forall n :: n in grouped ==> grouped[n] == RowsIn(done, n))
  }

  /** One iteration of the grouping loop: pushing category `c` onto its section's rows. */
  lemma GroupedSnoc(done: seq<Category>, c: Category, grouped: map<string, seq<CategoryRow>>, keys: seq<string>)
    requires GroupedAs(done, grouped, keys)
    ensures var n := SectionOf(c);
      var g := if n in grouped then grouped else grouped[n := []];
      var ks := if n in grouped then keys else keys + [n];
      GroupedAs(done + [c], g[n := g[n] + [RowOf(c)]], ks)
  {
    var n := SectionOf(c);
    assert (done + [c])[..|done|] == done;
    if n !in grouped {
      RowsInAbsent(done, n);
    }
  }

  /** No category is grouped under a name that is not among the section names. */
  lemma {:induction false} RowsInAbsent(cats: seq<Category>, name: string)
    requires name !in SectionNames(cats)
    ensures RowsIn(cats, name) == []
  {
    if cats != [] {
      var init := cats[..|cats| - 1];
      assert SectionOf(cats[|cats| - 1]) in SectionNames(cats);
      assert forall n :: n in SectionNames(init) ==> n in SectionNames(cats);
      RowsInAbsent(init, name);
    }
  }

  /** Grouping keeps the original order: the rows for a concatenation are the rows of each part. */
  lemma {:induction false} RowsInAppend(a: seq<Category>, b: seq<Category>, name: string)
    ensures RowsIn(a + b, name) == RowsIn(a, name) + RowsIn(b, name)
  {
    if b == [] {
      assert a + b == a;
    } else {
      assert (a + b)[..|a + b| - 1] == a + b[..|b| - 1];
      RowsInAppend(a, b[..|b| - 1], name);
    }
  }

  /** The number of rows over all sections. */
  function RowTotal(ss: seq<Section>): nat {
    if ss == [] then 0 else RowTotal(ss[..|ss| - 1]) + |ss[|ss| - 1].rows|
  }

  /** A section added at the end adds its rows to the total. */
  lemma RowTotalLast(ss: seq<Section>, s: Section)
    ensures RowTotal(ss + [s]) == RowTotal(ss) + |s.rows|
  {
    assert (ss + [s])[..|ss|] == ss;
  }

  /** One more category adds one row to the sections of distinct names if its name is among them. */
  lemma {:induction false} RowTotalSnoc(cats: seq<Category>, c: Category, names: seq<string>)
    requires Distinct(names)
    ensures RowTotal(SectionsFor(cats + [c], names))
         == RowTotal(SectionsFor(cats, names)) + (if SectionOf(c) in names then 1 else 0)
  {
    if names != [] {
      var init, last := names[..|names| - 1], names[|names| - 1];
      DistinctSnoc(names);
      RowTotalSnoc(cats, c, init);
      RowsInSnoc(cats, c, last);
      RowTotalLast(SectionsFor(cats + [c], init), Section(last, RowsIn(cats + [c], last)));
      RowTotalLast(SectionsFor(cats, init), Section(last, RowsIn(cats, last)));
    }
  }

  /** Of distinct names, the last is none of the others, and the others are distinct. */
  lemma DistinctSnoc(names: seq<string>)
    requires Distinct(names) && names != []
    ensures var init, last := names[..|names| - 1], names[|names| - 1];
      Distinct(init) && last !in init
      && forall x :: x in names <==> x in init || x == last
  {
    var init, last := names[..|names| - 1], names[|names| - 1];
    assert names == init + [last];
  }

  /** One more category adds its row to the rows of its own section and to no other. */
  lemma RowsInSnoc(cats: seq<Category>, c: Category, name: string)
    ensures |RowsIn(cats + [c], name)| == |RowsIn(cats, name)| + (if SectionOf(c) == name then 1 else 0)
  {
    assert (cats + [c])[..|cats|] == cats;
  }

  /** Every category gives exactly one row: the sections hold as many rows as there are categories. */
  lemma {:induction false} RowTotalIsCategoryCount(cats: seq<Category>)
    ensures RowTotal(Sections(cats)) == |cats|
  {
    if cats != [] {
      var init, c := cats[..|cats| - 1], cats[|cats| - 1];
      assert cats == init + [c];
      var names := SectionNames(init);
      SectionNamesDistinct(init);
      RowTotalIsCategoryCount(init);
      RowTotalSnoc(init, c, names);
      if SectionOf(c) !in names {
        RowsInAbsent(init, SectionOf(c));
        assert SectionsFor(cats, names + [SectionOf(c)])[..|names|] == SectionsFor(cats, names);
      }
    }
  }

  /**
   * Each category's row is in exactly one section: the one titled with its section name (or
   * "Diğer"), since no two sections share a title.
   */
  lemma CategoryPlacement(cats: seq<Category>, i: nat)
    requires i < |cats|
    ensures var ss := Sections(cats);
      exists k :: 0 <= k < |ss| && ss[k].title == SectionOf(cats[i]) && RowOf(cats[i]) in ss[k].rows
        && forall k' :: 0 <= k' < |ss| && k' != k ==> ss[k'].title != SectionOf(cats[i])
  {
    var names := SectionNames(cats);
    var ss := Sections(cats);
    SectionNamesCover(cats, i);
    SectionNamesDistinct(cats);
    var k :| 0 <= k < |names| && names[k] == SectionOf(cats[i]);
    assert cats == cats[..i] + [cats[i]] + cats[i + 1..];
    RowsInAppend(cats[..i] + [cats[i]], cats[i + 1..], SectionOf(cats[i]));
    RowsInAppend(cats[..i], [cats[i]], SectionOf(cats[i]));
    assert RowsIn([cats[i]], SectionOf(cats[i])) == [RowOf(cats[i])] by {
      assert [cats[i]][..0] == [];
    }
    assert ss[k].title == SectionOf(cats[i]) && RowOf(cats[i]) in ss[k].rows;
  }

  /** The section names of a prefix are a prefix of the section names. */
  lemma {:induction false} SectionNamesPrefix(a: seq<Category>, b: seq<Category>)
    ensures var p := SectionNames(a); |p| <= |SectionNames(a + b)| && SectionNames(a + b)[..|p|] == p
  {
    if b != [] {
      assert (a + b)[..|a + b| - 1] == a + b[..|b| - 1];
      SectionNamesPrefix(a, b[..|b| - 1]);
    } else {
      assert a + b == a;
    }
  }

  /**
   * Sections come in the order their names first appear: if category j is the first of its
   * section, the section of any earlier category i comes before it.
   */
  lemma FirstAppearanceOrder(cats: seq<Category>, i: nat, j: nat)
    requires i < j < |cats|
    requires forall k :: 0 <= k < j ==> SectionOf(cats[k]) != SectionOf(cats[j])
    ensures var ss := Sections(cats);
      exists p, q :: 0 <= p < q < |ss| && ss[p].title == SectionOf(cats[i]) && ss[q].title == SectionOf(cats[j])
  {
    var pre := SectionNames(cats[..j]);
    var p := FirstSeenBefore(cats, i, j);
    NewNameAppended(cats, j);
    var front := cats[..j + 1];
    assert cats == front + cats[j + 1..];
    SectionNamesPrefix(front, cats[j + 1..]);
    var names := SectionNames(cats);
    assert names[..|pre| + 1] == pre + [SectionOf(cats[j])];
    assert names[p] == SectionOf(cats[i]) && names[|pre|] == SectionOf(cats[j]);
    var ss := Sections(cats);
    assert ss[p].title == SectionOf(cats[i]) && ss[|pre|].title == SectionOf(cats[j]);
  }

  /** The section of a category before position j is among the section names of the first j categories. */
  lemma FirstSeenBefore(cats: seq<Category>, i: nat, j: nat) returns (p: nat)
    requires i < j <= |cats|
    ensures p < |SectionNames(cats[..j])| && SectionNames(cats[..j])[p] == SectionOf(cats[i])
  {
    assert cats[..j][i] == cats[i];
    SectionNamesCover(cats[..j], i);
    p :| 0 <= p < |SectionNames(cats[..j])| && SectionNames(cats[..j])[p] == SectionOf(cats[i]);
  }

  /** The first category of a section appends that section's name. */
  lemma NewNameAppended(cats: seq<Category>, j: nat)
    requires j < |cats|
    requires forall k :: 0 <= k < j ==> SectionOf(cats[k]) != SectionOf(cats[j])
    ensures SectionNames(cats[..j + 1]) == SectionNames(cats[..j]) + [SectionOf(cats[j])]
  {
    assert forall k :: 0 <= k < |cats[..j]| ==> SectionOf(cats[..j][k]) != SectionOf(cats[j]);
    SectionNamesOnly(cats[..j], SectionOf(cats[j]));
    assert cats[..j + 1][..j] == cats[..j];
  }

  // ---- the products of a category ----

  /** `menu.products[name] || []`: the products stored under that key, if any. */
  function CategoryProducts(entries: seq<(string, seq<Product>)>, name: string): (ps: seq<Product>)
    ensures ps != [] ==> exists k :: 0 <= k < |entries| && entries[k] == (name, ps)
    ensures (forall k :: 0 <= k < |entries| ==> entries[k].0 != name) ==> ps == []
    ensures forall k ::
              0 <= k < |entries| && entries[k].0 == name && (forall j :: 0 <= j < k ==> entries[j].0 != name)
              ==> ps == entries[k].1
  {
    if entries == [] then []
    else if entries[0].0 == name then entries[0].1
    else
      var ps := CategoryProducts(entries[1..], name);
      assert ps != [] ==> exists k :: 0 <= k < |entries[1..]| && entries[1..][k] == (name, ps);
      assert forall k :: 1 <= k < |entries| ==> entries[k] == entries[1..][k - 1];
      ps
  }

  /** A product is listed unless it says `available: false`; a missing flag counts as available. */
  predicate Listed(p: Product) {
    p.available != Some(false)
  }

  /** `categoryProducts.filter(p => p.available !== false)`: the products the list shows. */
  function Shown(menu: Menu, name: string): (ps: seq<Product>)
    ensures forall p :: p in ps <==> p in CategoryProducts(menu.products, name) && Listed(p)
  {
    Filter(CategoryProducts(menu.products, name), Listed)
  }

  /**
   * The availability filter keeps the category's order: for any split of the category's
   * products, the products shown are those shown from the front part, then from the rest.
   */
  lemma ShownKeepsOrder(menu: Menu, name: string, front: seq<Product>, rest: seq<Product>)
    requires CategoryProducts(menu.products, name) == front + rest
    ensures Shown(menu, name) == Filter(front, Listed) + Filter(rest, Listed)
  {
    FilterAppend(front, rest, Listed);
  }

  /** The id a product row carries: the product id tagged with "prod_". */
  function ProductRowId(p: Product): string {
    "prod_" + p.id
  }

  /** A product row `{ id: 'prod_' + p.id, title: p.name }` (its description is display text). */
  datatype ProductRow = ProductRow(id: string, title: string)

  /** What sendProductList sends: the "no products in this category" text, or the product rows. */
  datatype ProductView = NoProducts | ProductRows(rows: seq<ProductRow>)

  function ProductList(menu: Menu, name: string): (v: ProductView)
    ensures v == NoProducts <==> CategoryProducts(menu.products, name) == []
    ensures v.ProductRows? ==> var shown := Shown(menu, name);
      && |v.rows| == |shown|
      && forall i :: 0 <= i < |shown| ==> v.rows[i] == ProductRow(ProductRowId(shown[i]), shown[i].name)
  {
    var ps := CategoryProducts(menu.products, name);
    if |ps| == 0 then NoProducts
    else ProductRows(Map(Shown(menu, name), p => ProductRow(ProductRowId(p), p.name)))
  }

  /**
   * A category whose products all say `available: false` still gets a list, with no rows (the
   * emptiness test looks at the category, not at what is left after the filter).
   */
  lemma ProductRowsNoneListed(menu: Menu, name: string)
    requires CategoryProducts(menu.products, name) != []
    requires forall p :: p in CategoryProducts(menu.products, name) ==> !Listed(p)
    ensures ProductList(menu, name) == ProductRows([])
  {
    FilterNone(CategoryProducts(menu.products, name), Listed);
  }

  /** A category where every product is listed gets one row per product, in order. */
  lemma ProductRowsAllListed(menu: Menu, name: string)
    requires CategoryProducts(menu.products, name) != []
    requires forall p :: p in CategoryProducts(menu.products, name) ==> Listed(p)
    ensures var ps := CategoryProducts(menu.products, name);
      ProductList(menu, name) ==
      ProductRows(seq(|ps|, i requires 0 <= i < |ps| => ProductRow(ProductRowId(ps[i]), ps[i].name)))
  {
    var ps := CategoryProducts(menu.products, name);
    FilterAll(ps, Listed);
    var rows := ProductList(menu, name).rows;
    var expected := seq(|ps|, i requires 0 <= i < |ps| => ProductRow(ProductRowId(ps[i]), ps[i].name));
    assert |rows| == |expected|;
    assert forall i :: 0 <= i < |ps| ==> rows[i] == expected[i];
  }

  /** Every product row's id starts with the tag and the product id follows it. */
  lemma ProductRowTag(p: Product)
    ensures StartsWith(ProductRowId(p), "prod_")
    ensures ProductRowId(p)[5..] == p.id
  {
    StripTagged("prod_", p.id);
  }

  // ---- the built-in menu serves every view ----

  /** With the built-in menu, its one business is featured, on campaign and listed. */
  lemma FallbackBusinesses()
    ensures Featured(FallbackMenu().businesses) == FallbackMenu().businesses
    ensures Campaigns(FallbackMenu().businesses) == FallbackMenu().businesses
    ensures BusinessList(FallbackMenu().businesses, "") == BusinessRows(FallbackMenu().businesses, 1)
  {
    var m := FallbackMenu();
    FilterAll(m.businesses, IsFeatured);
    FilterAll(m.businesses, IsCampaign);
  }

  /** With the built-in menu, the category list has one section holding its one category. */
  lemma FallbackSections()
    ensures Sections(FallbackMenu().categories) == [Section("Ana Yemekler", [RowOf(FallbackMenu().categories[0])])]
  {
    var cats := FallbackMenu().categories;
    assert cats[..0] == [];
    assert SectionNames(cats) == ["Ana Yemekler"];
    assert RowsIn(cats, "Ana Yemekler") == [RowOf(cats[0])];
    assert ["Ana Yemekler"][..0] == [];
  }

  /** With the built-in menu, the kebab category lists its one product, tagged once more. */
  lemma FallbackProducts()
    ensures ProductList(FallbackMenu(), "kebap") == ProductRows([ProductRow("prod_prod_001", "Adana Kebap")])
  {
    var m := FallbackMenu();
    var ps := m.products[0].1;
    FilterAll(ps, Listed);
    assert CategoryProducts(m.products, "kebap") == ps;
    assert ProductRowId(ps[0]) == "prod_prod_001";
  }
}
