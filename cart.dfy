/**
 * Cart rows as values, and the arithmetic both bot variants do on them: the running total of
 * `cart.reduce((sum, item) => sum + item.price * item.quantity, 0)`, the find-then-increment-or-
 * append step of adding a product, and the summary with its flat delivery fee.
 * Prices are whole lira (JavaScript numbers that only ever hold integers here).
 */
module Cart {

  /** One cart row `{ id, name, price, quantity }`. */
  datatype Line = Line(id: string, name: string, price: int, quantity: int)

  function Subtotal(l: Line): int {
    l.price * l.quantity
  }

  /** The cart total: the left fold that `reduce` computes, row by row. */
  function Total(lines: seq<Line>): int {
    if lines == [] then 0 else Total(lines[..|lines| - 1]) + Subtotal(lines[|lines| - 1])
  }

  /** With no negative price or quantity, the total is never negative. */
  lemma {:induction false} TotalNonNegative(lines: seq<Line>)
    requires forall i :: 0 <= i < |lines| ==> lines[i].price >= 0 && lines[i].quantity >= 0
    ensures Total(lines) >= 0
  {
    if lines != [] {
      TotalNonNegative(lines[..|lines| - 1]);
      var l := lines[|lines| - 1];
      assert l.price * l.quantity >= 0;
    }
  }

  /** The total is additive over concatenation, so it is the sum of price x quantity over all rows. */
  lemma {:induction false} TotalAppend(a: seq<Line>, b: seq<Line>)
    ensures Total(a + b) == Total(a) + Total(b)
  {
    if b == [] {
      assert a + b == a;
    } else {
      assert (a + b)[..|a + b| - 1] == a + b[..|b| - 1];
      TotalAppend(a, b[..|b| - 1]);
    }
  }

  /** The total counts every row exactly once: splitting at any row adds its subtotal. */
  lemma TotalSplit(lines: seq<Line>, k: nat)
    requires k < |lines|
    ensures Total(lines) == Total(lines[..k]) + Subtotal(lines[k]) + Total(lines[k + 1..])
  {
    var front, row, back := lines[..k], [lines[k]], lines[k + 1..];
    assert lines == front + row + back;
    TotalAppend(front + row, back);
    TotalAppend(front, row);
    TotalSingle(lines[k]);
  }

  lemma TotalSingle(l: Line)
    ensures Total([l]) == Subtotal(l)
  {
    assert [l][..0] == [];
  }

  /** Raising the quantity of one row by one raises the total by that row's price. */
  lemma TotalBump(lines: seq<Line>, k: nat)
    requires k < |lines|
    ensures Total(lines[k := lines[k].(quantity := lines[k].quantity + 1)]) == Total(lines) + lines[k].price
  {
    var l := lines[k];
    var bumped := lines[k := l.(quantity := l.quantity + 1)];
    TotalSplit(lines, k);
    TotalSplit(bumped, k);
    assert bumped[..k] == lines[..k];
    assert bumped[k + 1..] == lines[k + 1..];
    SubtotalBump(l);
  }

  /** One more of a row costs its price once more. */
  lemma SubtotalBump(l: Line)
    ensures Subtotal(l.(quantity := l.quantity + 1)) == Subtotal(l) + l.price
  {
    assert l.price * (l.quantity + 1) == l.price * l.quantity + l.price;
  }

  /** `cart.find(item => item.id === id)`: the index of the first row with that id, or |lines|. */
  function FindLine(lines: seq<Line>, id: string): (k: nat)
    ensures k <= |lines|
    ensures k < |lines| ==> lines[k].id == id
    ensures forall j :: 0 <= j < k ==> lines[j].id != id
  {
    if lines == [] then 0
    else if lines[0].id == id then 0
    else 1 + FindLine(lines[1..], id)
  }

  /**
   * Adding a product: the row already holding this id gets one more, otherwise a new row with
   * quantity 1 is pushed at the end.
   */
  function AddLine(lines: seq<Line>, id: string, name: string, price: int): (r: seq<Line>)
    ensures |lines| <= |r| <= |lines| + 1
    ensures var k := FindLine(lines, id);
      k < |r| && r[k].id == id && r[k].quantity == (if k < |lines| then lines[k].quantity else 0) + 1
  {
    var k := FindLine(lines, id);
    if k < |lines| then lines[k := lines[k].(quantity := lines[k].quantity + 1)]
    else lines + [Line(id, name, price, 1)]
  }

  /** When a row holds the id, adding bumps that row. */
  lemma AddLineBumps(lines: seq<Line>, id: string, name: string, price: int, k: nat)
    requires k == FindLine(lines, id) && k < |lines|
    ensures AddLine(lines, id, name, price) == lines[k := lines[k].(quantity := lines[k].quantity + 1)]
  {
  }

  /** When no row holds the id, adding appends a row with quantity 1. */
  lemma AddLineAppends(lines: seq<Line>, id: string, name: string, price: int)
    requires FindLine(lines, id) == |lines|
    ensures AddLine(lines, id, name, price) == lines + [Line(id, name, price, 1)]
  {
  }

  /** No two rows share an id. */
  predicate UniqueIds(lines: seq<Line>) {
    forall i, j :: 0 <= i < j < |lines| ==> lines[i].id != lines[j].id
  }

  /**
   * What adding does to a cart: a known id gets exactly one more on its row and every other row
   * stays; a new id is appended last with quantity 1 and the earlier rows stay; and the total
   * grows by the price of the row that changed.
   */
  lemma AddLineEffect(lines: seq<Line>, id: string, name: string, price: int)
    ensures var r, k := AddLine(lines, id, name, price), FindLine(lines, id);
      && (k < |lines| ==>
            && |r| == |lines|
            && r[k] == lines[k].(quantity := lines[k].quantity + 1)
            && (forall j :: 0 <= j < |lines| && j != k ==> r[j] == lines[j])
            && Total(r) == Total(lines) + lines[k].price)
      && (k == |lines| ==>
            && (forall j :: 0 <= j < |lines| ==> lines[j].id != id)
            && |r| == |lines| + 1 && r[..|lines|] == lines && r[|lines|] == Line(id, name, price, 1)
            && Total(r) == Total(lines) + price)
  {
    var k := FindLine(lines, id);
    if k < |lines| {
      KnownIdEffect(lines, id, name, price, k);
    } else {
      NewIdEffect(lines, id, name, price);
    }
  }

  /** Adding a known id: the row found gets one more, the rest stay, the total grows by its price. */
  lemma KnownIdEffect(lines: seq<Line>, id: string, name: string, price: int, k: nat)
    requires k == FindLine(lines, id) && k < |lines|
    ensures var r := AddLine(lines, id, name, price);
      && |r| == |lines|
      && r[k] == lines[k].(quantity := lines[k].quantity + 1)
      && (forall j :: 0 <= j < |lines| && j != k ==> r[j] == lines[j])
      && Total(r) == Total(lines) + lines[k].price
  {
    TotalBump(lines, k);
  }

  /** Adding a new id: a row with quantity 1 is appended and the total grows by the price. */
  lemma NewIdEffect(lines: seq<Line>, id: string, name: string, price: int)
    requires FindLine(lines, id) == |lines|
    ensures var r := AddLine(lines, id, name, price);
      && (forall j :: 0 <= j < |lines| ==> lines[j].id != id)
      && |r| == |lines| + 1 && r[..|lines|] == lines && r[|lines|] == Line(id, name, price, 1)
      && Total(r) == Total(lines) + price
  {
    TotalAppend(lines, [Line(id, name, price, 1)]);
    assert Total([Line(id, name, price, 1)]) == price by {
      assert [Line(id, name, price, 1)][..0] == [];
    }
  }

  /** Adding never creates a second row for an id: ids stay unique. */
  lemma AddLineKeepsIdsUnique(lines: seq<Line>, id: string, name: string, price: int)
    requires UniqueIds(lines)
    ensures UniqueIds(AddLine(lines, id, name, price))
  {
    AddLineEffect(lines, id, name, price);
  }

  /** Selecting the same product n times, starting from `lines`. */
  function AddTimes(lines: seq<Line>, id: string, name: string, price: int, n: nat): seq<Line> {
    if n == 0 then lines else AddLine(AddTimes(lines, id, name, price, n - 1), id, name, price)
  }

  /** Selecting one product n >= 1 times from an empty cart yields exactly one row, with quantity n. */
  lemma {:induction false} AddTimesFromEmpty(id: string, name: string, price: int, n: nat)
    requires n >= 1
    ensures AddTimes([], id, name, price, n) == [Line(id, name, price, n)]
    ensures Total(AddTimes([], id, name, price, n)) == price * n
  {
    if n > 1 {
      AddTimesFromEmpty(id, name, price, n - 1);
    }
    assert [Line(id, name, price, n)][..0] == [];
  }

  // ---- the cart summary message of the catalogue-driven variant ----

  /** The flat delivery fee added to every cart summary. */
  const DeliveryFee: int := 20

  /** What the summary shows: the total, the total with delivery, and the footer's item count. */
  datatype Summary = Summary(total: int, grandTotal: int, itemCount: nat)

  function SummaryOf(cart: seq<Line>): (s: Summary)
    ensures s.total == Total(cart)
    ensures s.grandTotal == Total(cart) + DeliveryFee
    ensures s.itemCount == |cart|
  {
    var total := Total(cart);
    Summary(total, total + DeliveryFee, |cart|)
  }

  /** The number of units in the cart, summed over rows. */
  function Quantity(cart: seq<Line>): int {
    if cart == [] then 0 else Quantity(cart[..|cart| - 1]) + cart[|cart| - 1].quantity
  }

  /**
   * The footer counts rows, not units: with every row holding at least one unit it never
   * exceeds the unit count, and it equals it only when every row holds exactly one.
   */
  lemma {:induction false} FooterCountsRows(cart: seq<Line>)
    requires forall l :: l in cart ==> l.quantity >= 1
    ensures SummaryOf(cart).itemCount <= Quantity(cart)
    ensures SummaryOf(cart).itemCount == Quantity(cart) <==> forall l :: l in cart ==> l.quantity == 1
  {
    if cart != [] {
      var init := cart[..|cart| - 1];
      assert forall l :: l in init ==> l in cart;
      FooterCountsRows(init);
      assert forall l :: l in cart ==> l in init || l == cart[|cart| - 1];
    }
  }
}
