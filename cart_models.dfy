/**
 * The cart tables (`Cart`, `CartItem`): a cart's lines, what a line costs,
 * the price a line takes when it is saved, and the count and total a cart
 * derives from its lines.
 */
module CartModels {
  import opened Wrappers

  /**
   * A cart line (`CartItem`): the product, a non-negative quantity and the
   * price recorded when the product was added (`None` for a line without a
   * price).
   */
  datatype Line = Line(product: nat, quantity: nat, price: Option<real>)

  /**
   * A Python sum of amounts: it starts from the integer 0 and stays that
   * integer until a `Decimal` is added (`str` renders the integer as "0").
   */
  datatype Amount = IntZero | Dec(value: real) {
    function Value(): real {
      match this
      case IntZero => 0.0
      case Dec(v) => v
    }
  }

  /** Python's `a + b` on amounts: the integer 0 is absorbed by a `Decimal`. */
  function Plus(a: Amount, b: Amount): (r: Amount)
    ensures r.Value() == a.Value() + b.Value()
    ensures r == IntZero <==> a == IntZero && b == IntZero
  {
    match (a, b)
    case (IntZero, IntZero) => IntZero
    case (IntZero, Dec(y)) => Dec(y)
    case (Dec(x), IntZero) => Dec(x)
    case (Dec(x), Dec(y)) => Dec(x + y)
  }

  /** `CartItem.total`: the integer 0 for a line without a price, otherwise price times quantity. */
  function LineTotal(l: Line): Amount {
    if l.price.None? then IntZero else Dec(l.price.value * l.quantity as real)
  }

  /** What a line costs: its price times its quantity, nothing without a price. */
  function Cost(l: Line): real {
    if l.price.None? then 0.0 else l.price.value * l.quantity as real
  }

  lemma LineTotalCost(l: Line)
    ensures LineTotal(l).Value() == Cost(l)
    ensures LineTotal(l) == IntZero <==> l.price.None?
  {
  }

  /** The sum of the line quantities. */
  function ItemsCount(lines: seq<Line>): nat {
    if lines == [] then 0 else lines[0].quantity + ItemsCount(lines[1..])
  }

  /** The sum of what the lines cost. */
  function TotalCost(lines: seq<Line>): real {
    if lines == [] then 0.0 else Cost(lines[0]) + TotalCost(lines[1..])
  }

  /** `Cart.total`: `sum(item.total for item in items)`, added up from the first line. */
  function Total(lines: seq<Line>): Amount {
    if lines == [] then IntZero else Plus(Total(lines[..|lines| - 1]), LineTotal(lines[|lines| - 1]))
  }

  /**
   * The cart's total is what its lines cost; it stays the integer 0 exactly
   * when no line has a price, in particular for an empty cart.
   */
  lemma {:induction false} TotalIsCost(lines: seq<Line>)
    ensures Total(lines).Value() == TotalCost(lines)
    ensures Total(lines) == IntZero <==> forall i :: 0 <= i < |lines| ==> lines[i].price.None?
    decreases |lines|
  {
    if lines != [] {
      var n := |lines| - 1;
      TotalIsCost(lines[..n]);
      CostSnoc(lines[..n], lines[n]);
      assert lines[..n] + [lines[n]] == lines;
      LineTotalCost(lines[n]);
      assert forall i :: 0 <= i < n ==> lines[..n][i] == lines[i];
    }
  }

  lemma {:induction false} CostSnoc(lines: seq<Line>, l: Line)
    ensures TotalCost(lines + [l]) == TotalCost(lines) + Cost(l)
    decreases |lines|
  {
    if lines != [] {
      assert (lines + [l])[1..] == lines[1..] + [l];
      CostSnoc(lines[1..], l);
    } else {
      assert [] + [l] == [l];
    }
  }

  /** Counts add up over concatenation. */
  lemma {:induction false} CountAppend(a: seq<Line>, b: seq<Line>)
    ensures ItemsCount(a + b) == ItemsCount(a) + ItemsCount(b)
    ensures TotalCost(a + b) == TotalCost(a) + TotalCost(b)
    decreases |a|
  {
    if a != [] {
      assert (a + b)[1..] == a[1..] + b;
      CountAppend(a[1..], b);
    } else {
      assert [] + b == b;
    }
  }

  /** Replacing one line changes the count and the cost by the difference of the two lines. */
  lemma {:induction false} CountReplace(lines: seq<Line>, i: nat, l: Line)
    requires i < |lines|
    ensures ItemsCount(lines[i := l]) == ItemsCount(lines) - lines[i].quantity + l.quantity
    ensures TotalCost(lines[i := l]) == TotalCost(lines) - Cost(lines[i]) + Cost(l)
    decreases i
  {
    if i > 0 {
      assert lines[i := l][1..] == lines[1..][i - 1 := l];
      CountReplace(lines[1..], i - 1, l);
    }
  }

  /** At most one line per product (`unique_together = ['cart', 'product']`). */
  predicate UniqueProducts(lines: seq<Line>) {
    forall i, j :: 0 <= i < j < |lines| ==> lines[i].product != lines[j].product
  }

  predicate HasProduct(lines: seq<Line>, product: nat) {
    exists i :: 0 <= i < |lines| && lines[i].product == product
  }

  /** The position of the product's line, if the cart has one. */
  function Find(lines: seq<Line>, product: nat): (i: Option<nat>)
    ensures i.Some? ==> i.value < |lines| && lines[i.value].product == product
    ensures i.None? <==> !HasProduct(lines, product)
  {
    if lines == [] then None
    else if lines[0].product == product then Some(0)
    else
      match Find(lines[1..], product)
      case None =>
        assert forall k :: 1 <= k < |lines| ==> lines[k] == lines[1..][k - 1];
        None
      case Some(k) => Some(k + 1)
  }

  /** In a cart with one line per product, the line found is the only one for the product. */
  lemma FindUnique(lines: seq<Line>, product: nat, k: nat)
    requires UniqueProducts(lines) && k < |lines| && lines[k].product == product
    ensures Find(lines, product) == Some(k)
  {
  }

  /**
   * `CartItem.save`: a line without a price, or with a zero price, takes
   * the product's price when that is not zero; the product and the
   * quantity are left alone.
   */
  function Saved(l: Line, productPrice: real): (r: Line)
    ensures r.product == l.product && r.quantity == l.quantity
    ensures r.price == l.price || r.price == Some(productPrice)
  {
    if (l.price.None? || l.price == Some(0.0)) && productPrice != 0.0 then l.(price := Some(productPrice)) else l
  }

  /** A line keeps a non-zero price of its own; a line left without one takes the product's non-zero price; saving twice is saving once. */
  lemma SavedPrice(l: Line, productPrice: real)
    ensures l.price.Some? && l.price.value != 0.0 ==> Saved(l, productPrice) == l
    ensures productPrice != 0.0 && (l.price.None? || l.price == Some(0.0)) ==> Saved(l, productPrice).price == Some(productPrice)
    ensures productPrice == 0.0 ==> Saved(l, productPrice) == l
    ensures Saved(Saved(l, productPrice), productPrice) == Saved(l, productPrice)
  {
  }
}
