/**
 * `CartService`: the cart of the current request, kept in the `Cart` table
 * and mirrored into the session. The table is a map from cart id to cart;
 * `current` is the id of the cart the service works on.
 */
module CartService {
  import opened Wrappers
  import opened CartModels

  /** A `Cart` row: its owner (a user, or an anonymous session) and its lines. */
  datatype CartRecord = CartRecord(user: Option<nat>, sessionKey: Option<string>, lines: seq<Line>)

  /** The session entry `CART_SESSION_ID`: the cart's count and total. */
  datatype Summary = Summary(count: nat, total: Amount)

  /** Every cart has one line per product, and a user owns at most one cart (`OneToOneField`). */
  predicate TablesValid(carts: map<nat, CartRecord>) {
    (forall id :: id in carts ==> UniqueProducts(carts[id].lines))
    && (forall a, b :: a in carts && b in carts && a != b && carts[a].user.Some? ==> carts[a].user != carts[b].user)
  }

  /** The cart `get_or_create` looks for: the user's, or the anonymous cart of the session. */
  predicate Matches(c: CartRecord, user: Option<nat>, sessionKey: string) {
    if user.Some? then c.user == user else c.sessionKey == Some(sessionKey) && c.user.None?
  }

  /** The summary `_update_session` stores for these lines. */
  function SummaryOf(lines: seq<Line>): Summary {
    Summary(ItemsCount(lines), Total(lines))
  }

  // ---------------------------------------------------------------------
  // Line operations
  // ---------------------------------------------------------------------

  /** The quantity the lines hold of a product. */
  function QuantityOf(lines: seq<Line>, product: nat): nat {
    if lines == [] then 0
    else (if lines[0].product == product then lines[0].quantity else 0) + QuantityOf(lines[1..], product)
  }

  lemma {:induction false} QuantityOfAppend(a: seq<Line>, b: seq<Line>, product: nat)
    ensures QuantityOf(a + b, product) == QuantityOf(a, product) + QuantityOf(b, product)
    decreases |a|
  {
    if a != [] {
      assert (a + b)[1..] == a[1..] + b;
      QuantityOfAppend(a[1..], b, product);
    } else {
      assert [] + b == b;
    }
  }

  lemma {:induction false} QuantityOfReplace(lines: seq<Line>, i: nat, l: Line, product: nat)
    requires i < |lines| && l.product == lines[i].product
    ensures QuantityOf(lines[i := l], product)
         == QuantityOf(lines, product) + (if l.product == product then l.quantity - lines[i].quantity else 0)
    decreases i
  {
    if i > 0 {
      assert lines[i := l][1..] == lines[1..][i - 1 := l];
      QuantityOfReplace(lines[1..], i - 1, l, product);
    }
  }

  /** Lines without the product hold none of it. */
  lemma {:induction false} QuantityOfAbsent(lines: seq<Line>, product: nat)
    requires !HasProduct(lines, product)
    ensures QuantityOf(lines, product) == 0
    decreases |lines|
  {
    if lines != [] {
      assert !HasProduct(lines[1..], product) by {
        forall k | 0 <= k < |lines| - 1 ensures lines[1..][k].product != product {
          assert lines[1..][k] == lines[k + 1];
        }
      }
      QuantityOfAbsent(lines[1..], product);
    }
  }

  /**
   * `add`: `get_or_create` finds the product's line or creates one with
   * the requested quantity at the product's price; a found line gets the
   * quantity (override) or the quantity added, and is saved.
   */
  function Added(lines: seq<Line>, product: nat, price: real, quantity: nat, override: bool): seq<Line> {
    match Find(lines, product)
    case None => lines + [Line(product, quantity, Some(price))]
    case Some(i) =>
      lines[i := Saved(lines[i].(quantity := if override then quantity else lines[i].quantity + quantity), price)]
  }

  /**
   * After `add` the product has one line: a new one with the requested
   * quantity and the product's price, or the old one with the quantity
   * replaced or increased. Every other line stays where it was.
   */
  lemma AddedLines(lines: seq<Line>, product: nat, price: real, quantity: nat, override: bool)
    requires UniqueProducts(lines)
    ensures var r := Added(lines, product, price, quantity, override);
      UniqueProducts(r) && HasProduct(r, product)
      && |r| == |lines| + (if HasProduct(lines, product) then 0 else 1)
      && (forall k :: 0 <= k < |lines| && lines[k].product != product ==> r[k] == lines[k])
      && (!HasProduct(lines, product) ==> r[|lines|] == Line(product, quantity, Some(price)))
      && (HasProduct(lines, product) ==>
            QuantityOf(r, product) == (if override then quantity else QuantityOf(lines, product) + quantity))
  {
    var r := Added(lines, product, price, quantity, override);
    match Find(lines, product)
    case None =>
      assert r[|lines|].product == product;
    case Some(i) =>
      var l := Saved(lines[i].(quantity := if override then quantity else lines[i].quantity + quantity), price);
      assert r == lines[i := l] && r[i].product == product;
      QuantityOfReplace(lines, i, l, product);
      QuantityOfSingle(lines, i);
  }

  /** In lines with one line per product, the quantity held of a product is that of its line. */
  lemma {:induction false} QuantityOfSingle(lines: seq<Line>, i: nat)
    requires UniqueProducts(lines) && i < |lines|
    ensures QuantityOf(lines, lines[i].product) == lines[i].quantity
    decreases i
  {
    var p := lines[i].product;
    if i > 0 {
      assert lines[1..][i - 1] == lines[i];
      QuantityOfSingle(lines[1..], i - 1);
    } else {
      assert !HasProduct(lines[1..], p) by {
        forall k | 0 <= k < |lines| - 1 ensures lines[1..][k].product != p {
          assert lines[1..][k] == lines[k + 1];
        }
      }
      QuantityOfAbsent(lines[1..], p);
    }
  }

  /** Adding without override raises the cart's count by the quantity added. */
  lemma AddedCount(lines: seq<Line>, product: nat, price: real, quantity: nat)
    ensures ItemsCount(Added(lines, product, price, quantity, false)) == ItemsCount(lines) + quantity
  {
    match Find(lines, product)
    case None =>
      CountAppend(lines, [Line(product, quantity, Some(price))]);
    case Some(i) =>
      CountReplace(lines, i, Saved(lines[i].(quantity := lines[i].quantity + quantity), price));
  }

  /** `remove`: the product's line deleted; the other lines kept in order. */
  function Removed(lines: seq<Line>, product: nat): seq<Line> {
    if lines == [] then []
    else (if lines[0].product == product then [] else [lines[0]]) + Removed(lines[1..], product)
  }

  /**
   * After `remove` the product has no line, every other product holds what
   * it held, and the count drops by the product's quantity; removing an
   * absent product changes nothing.
   */
  lemma RemovedLines(lines: seq<Line>, product: nat)
    ensures !HasProduct(Removed(lines, product), product)
    ensures forall q :: q != product ==> QuantityOf(Removed(lines, product), q) == QuantityOf(lines, q)
    ensures ItemsCount(Removed(lines, product)) == ItemsCount(lines) - QuantityOf(lines, product)
    ensures !HasProduct(lines, product) ==> Removed(lines, product) == lines
    ensures UniqueProducts(lines) ==> UniqueProducts(Removed(lines, product))
  {
    RemovedFilters(lines, product);
    RemovedCounts(lines, product);
    if !HasProduct(lines, product) {
      RemovedAbsent(lines, product);
    }
    if UniqueProducts(lines) {
      RemovedUnique(lines, product);
    }
  }

  /** Every line left by `remove` is a line of the cart, of another product. */
  lemma {:induction false} RemovedFilters(lines: seq<Line>, product: nat)
    ensures |Removed(lines, product)| <= |lines|
    ensures forall k :: 0 <= k < |Removed(lines, product)| ==> Removed(lines, product)[k] in lines && Removed(lines, product)[k].product != product
    decreases |lines|
  {
    if lines != [] {
      var head: seq<Line> := if lines[0].product == product then [] else [lines[0]];
      var rest := Removed(lines[1..], product);
      RemovedFilters(lines[1..], product);
      assert Removed(lines, product) == head + rest;
      forall k | 0 <= k < |head + rest| ensures (head + rest)[k] in lines && (head + rest)[k].product != product {
        if k >= |head| {
          var line := rest[k - |head|];
          assert (head + rest)[k] == line;
          assert line in lines[1..];
          assert line in lines by {
            var m :| 0 <= m < |lines| - 1 && lines[1..][m] == line;
            assert lines[m + 1] == line;
          }
        }
      }
    }
  }

  lemma {:induction false} RemovedAbsent(lines: seq<Line>, product: nat)
    requires !HasProduct(lines, product)
    ensures Removed(lines, product) == lines
    decreases |lines|
  {
    if lines != [] {
      assert !HasProduct(lines[1..], product) by {
        forall k | 0 <= k < |lines| - 1 ensures lines[1..][k].product != product {
          assert lines[1..][k] == lines[k + 1];
        }
      }
      RemovedAbsent(lines[1..], product);
      assert lines == [lines[0]] + lines[1..];
    }
  }

  lemma {:induction false} RemovedCounts(lines: seq<Line>, product: nat)
    ensures forall q :: q != product ==> QuantityOf(Removed(lines, product), q) == QuantityOf(lines, q)
    ensures ItemsCount(Removed(lines, product)) == ItemsCount(lines) - QuantityOf(lines, product)
    decreases |lines|
  {
    if lines != [] {
      var head: seq<Line> := if lines[0].product == product then [] else [lines[0]];
      var rest := Removed(lines[1..], product);
      RemovedCounts(lines[1..], product);
      assert Removed(lines, product) == head + rest;
      CountAppend(head, rest);
      forall q | q != product ensures QuantityOf(head + rest, q) == QuantityOf(lines, q) {
        QuantityOfAppend(head, rest, q);
      }
    }
  }

  lemma {:induction false} RemovedUnique(lines: seq<Line>, product: nat)
    requires UniqueProducts(lines)
    ensures UniqueProducts(Removed(lines, product))
    decreases |lines|
  {
    if lines != [] {
      var head: seq<Line> := if lines[0].product == product then [] else [lines[0]];
      var rest := Removed(lines[1..], product);
      assert UniqueProducts(lines[1..]) by {
        forall i, j | 0 <= i < j < |lines| - 1 ensures lines[1..][i].product != lines[1..][j].product {
          assert lines[1..][i] == lines[i + 1] && lines[1..][j] == lines[j + 1];
        }
      }
      RemovedUnique(lines[1..], product);
      RemovedFilters(lines[1..], product);
      assert Removed(lines, product) == head + rest;
      forall i, j | 0 <= i < j < |head + rest| ensures (head + rest)[i].product != (head + rest)[j].product {
        if |head| == 1 && i == 0 {
          assert (head + rest)[j] == rest[j - 1];
          assert rest[j - 1] in lines[1..];
          var m :| 0 <= m < |lines| - 1 && lines[1..][m] == rest[j - 1];
          assert lines[m + 1] == rest[j - 1];
        } else {
          assert (head + rest)[i] == rest[i - |head|] && (head + rest)[j] == rest[j - |head|];
        }
      }
    }
  }

  /**
   * `update_quantity`: a quantity of zero or less removes the line; a
   * positive one replaces the quantity of the product's line, if any,
   * without saving it (a queryset `update`), and never creates a line.
   */
  function QuantitySet(lines: seq<Line>, product: nat, quantity: int): seq<Line> {
    if quantity <= 0 then Removed(lines, product)
    else
      match Find(lines, product)
      case None => lines
      case Some(i) => lines[i := lines[i].(quantity := quantity)]
  }

  /**
   * A positive quantity changes no product's presence and only the
   * product's quantity, which becomes the one given when it has a line.
   */
  lemma QuantitySetLines(lines: seq<Line>, product: nat, quantity: int)
    requires UniqueProducts(lines) && quantity > 0
    ensures var r := QuantitySet(lines, product, quantity);
      |r| == |lines| && UniqueProducts(r)
      && (forall k :: 0 <= k < |lines| ==> r[k].product == lines[k].product && r[k].price == lines[k].price)
      && (forall k :: 0 <= k < |lines| && lines[k].product != product ==> r[k] == lines[k])
      && (HasProduct(lines, product) ==> QuantityOf(r, product) == quantity)
  {
    match Find(lines, product)
    case None =>
    case Some(i) =>
      var r := lines[i := lines[i].(quantity := quantity)];
      QuantityOfSingle(r, i);
  }

  /**
   * One line of `merge_with_user`: added to the user's line for the same
   * product (which is then saved), or copied as a new line whose missing
   * price becomes 0.
   */
  function MergeOne(target: seq<Line>, item: Line, priceOf: nat -> real): seq<Line> {
    match Find(target, item.product)
    case Some(i) => target[i := Saved(target[i].(quantity := target[i].quantity + item.quantity), priceOf(item.product))]
    case None => target + [Saved(Line(item.product, item.quantity, Some(item.price.GetOr(0.0))), priceOf(item.product))]
  }

  /** `merge_with_user`'s loop: each line of `src`, in order, merged into `target`. */
  function Merged(target: seq<Line>, src: seq<Line>, priceOf: nat -> real): seq<Line>
    decreases |src|
  {
    if src == [] then target
    else MergeOne(Merged(target, src[..|src| - 1], priceOf), src[|src| - 1], priceOf)
  }

  lemma MergeOneCounts(target: seq<Line>, item: Line, priceOf: nat -> real)
    requires UniqueProducts(target)
    ensures UniqueProducts(MergeOne(target, item, priceOf))
    ensures ItemsCount(MergeOne(target, item, priceOf)) == ItemsCount(target) + item.quantity
    ensures forall p :: QuantityOf(MergeOne(target, item, priceOf), p)
                     == QuantityOf(target, p) + (if item.product == p then item.quantity else 0)
  {
    match Find(target, item.product)
    case Some(i) =>
      var l := Saved(target[i].(quantity := target[i].quantity + item.quantity), priceOf(item.product));
      CountReplace(target, i, l);
      forall p ensures QuantityOf(target[i := l], p) == QuantityOf(target, p) + (if item.product == p then item.quantity else 0) {
        QuantityOfReplace(target, i, l, p);
      }
    case None =>
      var l := Saved(Line(item.product, item.quantity, Some(item.price.GetOr(0.0))), priceOf(item.product));
      CountAppend(target, [l]);
      forall p ensures QuantityOf(target + [l], p) == QuantityOf(target, p) + (if item.product == p then item.quantity else 0) {
        QuantityOfAppend(target, [l], p);
        assert [l][1..] == [];
      }
  }

  /**
   * Merging adds every quantity of `src` to the target: each product ends
   * with the sum of what both held, the count is the sum of both counts,
   * and the target keeps one line per product.
   */
  lemma {:induction false} MergedSums(target: seq<Line>, src: seq<Line>, priceOf: nat -> real)
    requires UniqueProducts(target)
    ensures UniqueProducts(Merged(target, src, priceOf))
    ensures ItemsCount(Merged(target, src, priceOf)) == ItemsCount(target) + ItemsCount(src)
    ensures forall p :: QuantityOf(Merged(target, src, priceOf), p) == QuantityOf(target, p) + QuantityOf(src, p)
    decreases |src|
  {
    if src != [] {
      var n := |src| - 1;
      var front := Merged(target, src[..n], priceOf);
      MergedSums(target, src[..n], priceOf);
      MergeOneCounts(front, src[n], priceOf);
      assert src[..n] + [src[n]] == src;
      CountAppend(src[..n], [src[n]]);
      forall p ensures QuantityOf(src, p) == QuantityOf(src[..n], p) + (if src[n].product == p then src[n].quantity else 0) {
        QuantityOfAppend(src[..n], [src[n]], p);
        assert [src[n]][1..] == [];
      }
    }
  }

  /**
   * The tables after `merge_with_user` on the cart `current`, given the
   * user's cart as found by `Cart.objects.get(user=user)`: without one,
   * the current cart is handed to the user and loses its session key;
   * with one, the current cart's lines are merged into it and the current
   * cart is deleted.
   */
  function MergedTables(carts: map<nat, CartRecord>, current: nat, user: nat, found: Option<nat>, priceOf: nat -> real): map<nat, CartRecord>
    requires current in carts && (found.Some? ==> found.value in carts)
  {
    if found.None? then carts[current := carts[current].(user := Some(user), sessionKey := None)]
    else
      var u := found.value;
      (carts[u := carts[u].(lines := Merged(carts[u].lines, carts[current].lines, priceOf))]) - {current}
  }

  /** The cart the service works on after the merge. */
  function MergedCurrent(current: nat, found: Option<nat>): nat {
    if found.None? then current else found.value
  }

  /** The lines of the cart `current` names; none when that cart is gone. */
  function LinesOf(carts: map<nat, CartRecord>, current: nat): seq<Line> {
    if current in carts then carts[current].lines else []
  }

  /**
   * Merging a session cart into another cart of the user: the user's cart
   * then holds, product by product, the sum of both carts, and the session
   * cart is gone.
   */
  lemma MergeIntoUserCart(carts: map<nat, CartRecord>, current: nat, user: nat, u: nat, priceOf: nat -> real)
    requires TablesValid(carts) && current in carts && u in carts && u != current
    ensures var after := MergedTables(carts, current, user, Some(u), priceOf);
      current !in after && u in after
      && (forall p :: QuantityOf(LinesOf(after, u), p) == QuantityOf(carts[u].lines, p) + QuantityOf(carts[current].lines, p))
      && ItemsCount(LinesOf(after, u)) == ItemsCount(carts[u].lines) + ItemsCount(carts[current].lines)
  {
    MergedSums(carts[u].lines, carts[current].lines, priceOf);
  }

  /**
   * Merging when the user's cart is the current cart itself (as it is for
   * any request of a signed-in user) deletes that cart: afterwards the
   * user owns no cart and the service's cart has no lines, whatever it
   * held before.
   */
  lemma MergeOwnCartDeletesIt(carts: map<nat, CartRecord>, current: nat, user: nat, priceOf: nat -> real)
    requires TablesValid(carts) && current in carts && carts[current].user == Some(user)
    ensures var after := MergedTables(carts, current, user, Some(current), priceOf);
      LinesOf(after, MergedCurrent(current, Some(current))) == []
      && forall id :: id in after ==> after[id].user != Some(user)
  {
  }

  /**
   * The merge as evidently intended: a cart that already is the user's
   * cart has nothing to merge and is left as it is; otherwise as above.
   */
  function MergedTablesFixed(carts: map<nat, CartRecord>, current: nat, user: nat, found: Option<nat>, priceOf: nat -> real): map<nat, CartRecord>
    requires current in carts && (found.Some? ==> found.value in carts)
  {
    if found == Some(current) then carts else MergedTables(carts, current, user, found, priceOf)
  }

  /**
   * With the fix, the cart the service works on afterwards belongs to the
   * user and holds, product by product, everything the user's cart and the
   * current cart held (once each), and the tables stay valid.
   */
  lemma MergeFixedKeepsEverything(carts: map<nat, CartRecord>, current: nat, user: nat, found: Option<nat>, priceOf: nat -> real)
    requires TablesValid(carts) && current in carts
    requires found.Some? ==> found.value in carts && carts[found.value].user == Some(user)
    requires found.None? ==> forall id :: id in carts ==> carts[id].user != Some(user)
    ensures var after := MergedTablesFixed(carts, current, user, found, priceOf);
      var c := MergedCurrent(current, found);
      TablesValid(after) && c in after && after[c].user == Some(user)
      && forall p :: QuantityOf(after[c].lines, p)
                  == QuantityOf(carts[current].lines, p) + (if found.Some? && found.value != current then QuantityOf(carts[found.value].lines, p) else 0)
  {
    if found.Some? && found.value != current {
      var u := found.value;
      MergedSums(carts[u].lines, carts[current].lines, priceOf);
      MergedTablesValid(carts, current, user, found, priceOf);
    } else if found.None? {
      MergedTablesValid(carts, current, user, found, priceOf);
    }
  }

  /** The merge keeps the tables valid. */
  lemma MergedTablesValid(carts: map<nat, CartRecord>, current: nat, user: nat, found: Option<nat>, priceOf: nat -> real)
    requires TablesValid(carts) && current in carts
    requires found.Some? ==> found.value in carts && carts[found.value].user == Some(user)
    requires found.None? ==> forall id :: id in carts ==> carts[id].user != Some(user)
    ensures TablesValid(MergedTables(carts, current, user, found, priceOf))
  {
    if found.Some? {
      MergedSums(carts[found.value].lines, carts[current].lines, priceOf);
    }
  }

  // ---------------------------------------------------------------------
  // The service object
  // ---------------------------------------------------------------------

  class Cart {
    /** The `Cart` table. */
    var carts: map<nat, CartRecord>
    /** The id of `self._cart_db`. */
    var current: nat
    /** The session entry `CART_SESSION_ID`, if any. */
    var session: Option<Summary>

    predicate Valid()
      reads this
    {
      TablesValid(carts)
    }

    /** The lines of the service's cart (`self._cart_db.items`); none once that cart is deleted. */
    function Items(): seq<Line>
      reads this
    {
      LinesOf(carts, current)
    }

    /**
     * `CartService.__init__`: `get_or_create` for the signed-in user, or
     * for the anonymous cart of the session (whose key the caller supplies,
     * creating the session when it had none). `found` is the matching cart,
     * `freshId` the id a created cart gets.
     */
    constructor(tables: map<nat, CartRecord>, user: Option<nat>, sessionKey: string, found: Option<nat>, freshId: nat, entry: Option<Summary>)
      requires TablesValid(tables)
      requires found.Some? ==> found.value in tables && Matches(tables[found.value], user, sessionKey)
      requires found.None? ==> freshId !in tables && forall id :: id in tables ==> !Matches(tables[id], user, sessionKey)
      ensures Valid() && current in carts && Matches(carts[current], user, sessionKey)
      ensures found.Some? ==> carts == tables && current == found.value
      ensures found.None? ==> carts == tables[freshId := CartRecord(user, if user.Some? then None else Some(sessionKey), [])] && current == freshId
      ensures session == entry
    {
      if found.Some? {
        carts := tables;
        current := found.value;
      } else {
        carts := tables[freshId := CartRecord(user, if user.Some? then None else Some(sessionKey), [])];
        current := freshId;
      }
      session := entry;
    }

    /** `get_count`: the quantities summed line by line. */
    method GetCount() returns (n: nat)
      ensures n == ItemsCount(Items())
    {
      var items := Items();
      n := 0;
      for i := 0 to |items|
        invariant n == ItemsCount(items[..i])
      {
        CountAppend(items[..i], [items[i]]);
        assert items[..i + 1] == items[..i] + [items[i]];
        assert ItemsCount([items[i]]) == items[i].quantity;
        n := n + items[i].quantity;
      }
      assert items[..|items|] == items;
    }

    /** `get_total`: the line totals summed from the integer 0; never the "0.00" fallback, since the sum is never `None`. */
    method GetTotal() returns (t: Amount)
      ensures t == Total(Items())
      ensures t.Value() == TotalCost(Items())
    {
      var items := Items();
      t := IntZero;
      for i := 0 to |items|
        invariant t == Total(items[..i])
      {
        assert items[..i + 1][..i] == items[..i];
        t := Plus(t, LineTotal(items[i]));
      }
      assert items[..|items|] == items;
      TotalIsCost(items);
    }

    /** `_update_session`: the session entry rewritten from the cart. */
    method UpdateSession()
      modifies this`session
      ensures session == Some(SummaryOf(Items()))
    {
      var n := GetCount();
      var t := GetTotal();
      session := Some(Summary(n, t));
    }

    /** `add`, then the session refreshed; returns the product's line. */
    method Add(product: nat, price: real, quantity: nat, override: bool) returns (line: Line)
      requires Valid() && current in carts
      modifies this
      ensures Valid() && current == old(current) && current in carts
      ensures carts == old(carts)[current := old(carts)[current].(lines := Added(old(Items()), product, price, quantity, override))]
      ensures session == Some(SummaryOf(Items()))
      ensures line.product == product && line in Items()
    {
      var lines := carts[current].lines;
      AddedLines(lines, product, price, quantity, override);
      match Find(lines, product) {
        case None =>
          line := Line(product, quantity, Some(price));
          lines := lines + [line];
        case Some(i) =>
          var q := if override then quantity else lines[i].quantity + quantity;
          line := Saved(lines[i].(quantity := q), price);
          lines := lines[i := line];
      }
      carts := carts[current := carts[current].(lines := lines)];
      UpdateSession();
    }

    /** `remove`, then the session refreshed. */
    method Remove(product: nat)
      requires Valid() && current in carts
      modifies this
      ensures Valid() && current == old(current) && current in carts
      ensures carts == old(carts)[current := old(carts)[current].(lines := Removed(old(Items()), product))]
      ensures session == Some(SummaryOf(Items()))
    {
      RemovedLines(carts[current].lines, product);
      carts := carts[current := carts[current].(lines := Removed(carts[current].lines, product))];
      UpdateSession();
    }

    /** `update_quantity`: `remove` for a quantity of zero or less, otherwise the line's quantity set; then the session refreshed. */
    method UpdateQuantity(product: nat, quantity: int)
      requires Valid() && current in carts
      modifies this
      ensures Valid() && current == old(current) && current in carts
      ensures carts == old(carts)[current := old(carts)[current].(lines := QuantitySet(old(Items()), product, quantity))]
      ensures session == Some(SummaryOf(Items()))
    {
      if quantity <= 0 {
        Remove(product);
        return;
      }
      var lines := carts[current].lines;
      QuantitySetLines(lines, product, quantity);
      match Find(lines, product) {
        case None =>
        case Some(i) =>
          lines := lines[i := lines[i].(quantity := quantity)];
      }
      carts := carts[current := carts[current].(lines := lines)];
      UpdateSession();
    }

    /** `clear`: every line deleted, then the session refreshed. */
    method Clear()
      requires Valid() && current in carts
      modifies this
      ensures Valid() && current == old(current) && current in carts
      ensures carts == old(carts)[current := old(carts)[current].(lines := [])]
      ensures session == Some(Summary(0, IntZero))
    {
      carts := carts[current := carts[current].(lines := [])];
      UpdateSession();
    }

    /**
     * `merge_with_user`, as written: `found` is the user's cart as
     * `Cart.objects.get(user=user)` returns it. The session is not
     * refreshed.
     */
    method MergeWithUser(user: nat, found: Option<nat>, priceOf: nat -> real)
      requires Valid() && current in carts
      requires found.Some? ==> found.value in carts && carts[found.value].user == Some(user)
      requires found.None? ==> forall id :: id in carts ==> carts[id].user != Some(user)
      modifies this
      ensures carts == MergedTables(old(carts), old(current), user, found, priceOf)
      ensures current == MergedCurrent(old(current), found)
      ensures session == old(session)
      ensures Valid()
    {
      MergedTablesValid(carts, current, user, found, priceOf);
      if found.None? {
        carts := carts[current := carts[current].(user := Some(user), sessionKey := None)];
        return;
      }
      var u := found.value;
      var src := carts[current].lines;
      MergeLines(u, src, priceOf);
      carts := carts - {current};
      current := u;
    }

    /** The loop of `merge_with_user`: each line of `src` merged into the cart `target`. */
    method MergeLines(target: nat, src: seq<Line>, priceOf: nat -> real)
      requires target in carts
      modifies this`carts
      ensures carts == old(carts)[target := old(carts)[target].(lines := Merged(old(carts)[target].lines, src, priceOf))]
    {
      ghost var t0 := carts[target].lines;
      for i := 0 to |src|
        invariant target in carts
        invariant carts == old(carts)[target := old(carts)[target].(lines := Merged(t0, src[..i], priceOf))]
      {
        assert src[..i + 1][..i] == src[..i];
        var lines := carts[target].lines;
        var item := src[i];
        match Find(lines, item.product) {
          case Some(k) =>
            lines := lines[k := Saved(lines[k].(quantity := lines[k].quantity + item.quantity), priceOf(item.product))];
          case None =>
            lines := lines + [Saved(Line(item.product, item.quantity, Some(item.price.GetOr(0.0))), priceOf(item.product))];
        }
        carts := carts[target := carts[target].(lines := lines)];
      }
      assert src[..|src|] == src;
    }
  }
}
