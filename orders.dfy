/**
 * Orders: the checkout arithmetic, the creation of an order from the
 * cart (order lines, stock decrement, cart cleared, confirmation e-mail),
 * the order number and the "e-mail already sent" guard.
 */
module Orders {
  import opened Wrappers
  import opened Text
  import opened CartModels
  import opened CartService

  datatype Status = Pending | Processing | Shipped | Delivered | Cancelled

  /** A delivery method: its cost and the subtotal from which it is free (none when unset). */
  datatype ShippingMethod = ShippingMethod(cost: real, freeFrom: Option<real>, isActive: bool)

  // ---------------------------------------------------------------------
  // Checkout arithmetic
  // ---------------------------------------------------------------------

  /**
   * The shipping cost: with a method, free once the subtotal reaches its
   * non-zero `free_from`, else its cost; without one, free above 100 and
   * 10 otherwise.
   */
  function ShippingCost(subtotal: real, delivery: Option<ShippingMethod>): real {
    match delivery
    case Some(m) =>
      if m.freeFrom.Some? && m.freeFrom.value != 0.0 && subtotal >= m.freeFrom.value then 0.0 else m.cost
    case None =>
      if subtotal > 100.0 then 0.0 else 10.0
  }

  /** `Decimal('0.08')`. */
  const TaxRate: real := 0.08

  datatype Totals = Totals(subtotal: real, shipping: real, tax: real, total: real)

  /** The amounts stored on a new order. */
  function Checkout(subtotal: real, delivery: Option<ShippingMethod>): Totals {
    var shipping := ShippingCost(subtotal, delivery);
    Totals(subtotal, shipping, subtotal * TaxRate, subtotal + shipping + subtotal * TaxRate)
  }

  /**
   * The shipping rule case by case. Without a method the order ships free
   * exactly when the subtotal is above 100 (a subtotal of exactly 100
   * pays 10); with a method, a `free_from` of 0 or none never makes it
   * free.
   */
  lemma ShippingRule(subtotal: real, delivery: Option<ShippingMethod>)
    ensures delivery.None? ==> (ShippingCost(subtotal, delivery) == 0.0 <==> subtotal > 100.0)
    ensures delivery.None? ==> (ShippingCost(subtotal, delivery) == 10.0 <==> subtotal <= 100.0)
    ensures delivery.Some? && (delivery.value.freeFrom.None? || delivery.value.freeFrom == Some(0.0)) ==>
      ShippingCost(subtotal, delivery) == delivery.value.cost
    ensures delivery.Some? && delivery.value.freeFrom.Some? && delivery.value.freeFrom.value != 0.0 ==>
      ShippingCost(subtotal, delivery) == (if subtotal >= delivery.value.freeFrom.value then 0.0 else delivery.value.cost)
  {
  }

  /**
   * The total is the subtotal with 8% tax plus shipping; with non-negative
   * amounts it is never below the subtotal and the tax is 8% of it.
   */
  lemma CheckoutTotals(subtotal: real, delivery: Option<ShippingMethod>)
    ensures Checkout(subtotal, delivery).total == subtotal * 1.08 + ShippingCost(subtotal, delivery)
    ensures Checkout(subtotal, delivery).tax * 100.0 == subtotal * 8.0
    ensures subtotal >= 0.0 && (delivery.Some? ==> delivery.value.cost >= 0.0) ==>
      Checkout(subtotal, delivery).total >= subtotal && Checkout(subtotal, delivery).shipping >= 0.0
  {
  }

  // ---------------------------------------------------------------------
  // Order number
  // ---------------------------------------------------------------------

  predicate IsLowerHex(s: string) {
    forall i :: 0 <= i < |s| ==> '0' <= s[i] <= '9' || 'a' <= s[i] <= 'f'
  }

  predicate IsUpperHex(s: string) {
    forall i :: 0 <= i < |s| ==> '0' <= s[i] <= '9' || 'A' <= s[i] <= 'F'
  }

  /** 'ORD-' and the first 8 characters of a uuid's hex, upper-cased. */
  function OrderNumber(hex: string): (n: string)
    requires |hex| >= 8 && IsLowerHex(hex)
    ensures |n| == 12 && n[..4] == "ORD-" && IsUpperHex(n[4..])
  {
    var h := UpperAscii(hex[..8]);
    assert ("ORD-" + h)[4..] == h;
    "ORD-" + h
  }

  /** `Order.save`: a number is assigned only to an order without one. */
  function NumberOnSave(current: string, hex: string): string
    requires |hex| >= 8 && IsLowerHex(hex)
  {
    if current == "" then OrderNumber(hex) else current
  }

  /** An order always has a number after saving, and a number once given never changes. */
  lemma NumberStable(current: string, hex1: string, hex2: string)
    requires |hex1| >= 8 && IsLowerHex(hex1) && |hex2| >= 8 && IsLowerHex(hex2)
    ensures NumberOnSave(current, hex1) != ""
    ensures current != "" ==> NumberOnSave(current, hex1) == current
    ensures NumberOnSave(NumberOnSave(current, hex1), hex2) == NumberOnSave(current, hex1)
  {
  }

  // ---------------------------------------------------------------------
  // Confirmation e-mail
  // ---------------------------------------------------------------------

  /** `email_sent` and `email_sent_at`. */
  datatype MailState = MailState(sent: bool, sentAt: Option<int>)

  /**
   * `send_confirmation_email`: nothing when already sent; otherwise the
   * flag and the time are set only when the mail went out (`delivered`).
   * Returns the new state and the method's result.
   */
  function Confirm(m: MailState, delivered: bool, now: int): (MailState, bool) {
    if m.sent then (m, false)
    else if delivered then (MailState(true, Some(now)), true)
    else (m, false)
  }

  /**
   * The confirmation goes out at most once: the method answers true only
   * when it set the flag, a second call after a success answers false and
   * changes nothing, and a failed attempt leaves the order as it was.
   */
  lemma ConfirmAtMostOnce(m: MailState, d1: bool, t1: int, d2: bool, t2: int)
    ensures Confirm(m, d1, t1).1 <==> !m.sent && d1
    ensures Confirm(m, d1, t1).1 ==> Confirm(m, d1, t1).0 == MailState(true, Some(t1))
    ensures !Confirm(m, d1, t1).1 ==> Confirm(m, d1, t1).0 == m
    ensures Confirm(m, d1, t1).1 ==>
              !Confirm(Confirm(m, d1, t1).0, d2, t2).1 && Confirm(Confirm(m, d1, t1).0, d2, t2).0 == Confirm(m, d1, t1).0
  {
  }

  // ---------------------------------------------------------------------
  // Orders and their lines
  // ---------------------------------------------------------------------

  /** An `OrderItem`: its total is recomputed as price times quantity on every save. */
  datatype OrderItem = OrderItem(product: nat, price: real, quantity: nat, total: real)

  function SavedItem(product: nat, price: real, quantity: nat): (i: OrderItem)
    ensures i.total == i.price * i.quantity as real
  {
    OrderItem(product, price, quantity, price * quantity as real)
  }

  class Order {
    var orderNumber: string
    var status: Status
    var firstName: string
    var lastName: string
    var email: string
    var subtotal: real
    var shippingCost: real
    var tax: real
    var total: real
    var emailSent: bool
    var emailSentAt: Option<int>
    /** The order's `items`. */
    var items: seq<OrderItem>

    /** `Order.objects.create`: a pending order with no lines, saved once. */
    constructor(firstName: string, lastName: string, email: string, t: Totals, hex: string)
      requires |hex| >= 8 && IsLowerHex(hex)
      ensures orderNumber == OrderNumber(hex) && status == Pending
      ensures this.firstName == firstName && this.lastName == lastName && this.email == email
      ensures Totals(subtotal, shippingCost, tax, total) == t
      ensures !emailSent && emailSentAt.None? && items == []
    {
      this.firstName := firstName;
      this.lastName := lastName;
      this.email := email;
      subtotal := t.subtotal;
      shippingCost := t.shipping;
      tax := t.tax;
      total := t.total;
      status := Pending;
      emailSent := false;
      emailSentAt := None;
      items := [];
      orderNumber := NumberOnSave("", hex);
    }

    /** `Order.save`. */
    method Save(hex: string)
      requires |hex| >= 8 && IsLowerHex(hex)
      modifies this`orderNumber
      ensures orderNumber == NumberOnSave(old(orderNumber), hex)
    {
      if orderNumber == "" {
        orderNumber := OrderNumber(hex);
      }
    }

    /** `get_full_name`. */
    function FullName(): (name: string)
      reads this
      ensures name == firstName + " " + lastName
      ensures |name| == |firstName| + 1 + |lastName| && name[|firstName|] == ' '
    {
      firstName + " " + lastName
    }

    /** `send_confirmation_email`; `delivered` is whether `send_mail` succeeded, `now` the clock. */
    method SendConfirmationEmail(delivered: bool, now: int) returns (sent: bool)
      modifies this`emailSent, this`emailSentAt
      ensures (MailState(emailSent, emailSentAt), sent) == Confirm(MailState(old(emailSent), old(emailSentAt)), delivered, now)
    {
      if emailSent {
        return false;
      }
      if delivered {
        emailSent := true;
        emailSentAt := Some(now);
        return true;
      }
      return false;
    }

    /**
     * `update_status`: the new status is stored; the status e-mail is due
     * (`notify`) only when the status actually changed.
     */
    method UpdateStatus(newStatus: Status) returns (notify: bool)
      modifies this`status
      ensures status == newStatus
      ensures notify <==> old(status) != newStatus
    {
      notify := status != newStatus;
      status := newStatus;
    }
  }

  /** The product table's stock column. */
  class Shop {
    var stock: map<nat, int>

    constructor(stock: map<nat, int>)
      ensures this.stock == stock
    {
      this.stock := stock;
    }
  }

  /**
   * The stock after the item loop: each line of an existing product takes
   * its quantity off the stock when the stock covers it; otherwise the
   * stock is left alone.
   */
  function StockAfter(stock: map<nat, int>, lines: seq<Line>): map<nat, int>
    decreases |lines|
  {
    if lines == [] then stock
    else
      var s := StockAfter(stock, lines[..|lines| - 1]);
      var l := lines[|lines| - 1];
      if l.product in s && s[l.product] >= l.quantity then s[l.product := s[l.product] - l.quantity] else s
  }

  /** The order lines the loop creates: one per line whose product still exists, at the line's price. */
  function ItemsFor(stock: map<nat, int>, lines: seq<Line>): seq<OrderItem>
    decreases |lines|
  {
    if lines == [] then []
    else
      var l := lines[|lines| - 1];
      ItemsFor(stock, lines[..|lines| - 1])
      + (if l.product in stock then [SavedItem(l.product, l.price.GetOr(0.0), l.quantity)] else [])
  }

  /** The stock a product is expected to have after the loop, for a cart with one line per product. */
  function ExpectedStock(stock: map<nat, int>, lines: seq<Line>, p: nat): int
    requires p in stock
  {
    match Find(lines, p)
    case None => stock[p]
    case Some(k) => if stock[p] >= lines[k].quantity then stock[p] - lines[k].quantity else stock[p]
  }

  /**
   * The loop never removes or adds a product, never takes a stock below
   * zero, and each product loses exactly its line's quantity when its
   * stock covered it and nothing otherwise.
   */
  lemma StockAfterSpec(stock: map<nat, int>, lines: seq<Line>)
    requires UniqueProducts(lines)
    ensures StockAfter(stock, lines).Keys == stock.Keys
    ensures forall p :: p in stock ==> StockAfter(stock, lines)[p] == ExpectedStock(stock, lines, p)
    ensures forall p :: p in stock && stock[p] >= 0 ==> 0 <= StockAfter(stock, lines)[p] <= stock[p]
  {
    StockAfterExact(stock, lines);
  }

  lemma {:induction false} StockAfterExact(stock: map<nat, int>, lines: seq<Line>)
    requires UniqueProducts(lines)
    ensures StockAfter(stock, lines).Keys == stock.Keys
    ensures forall p :: p in stock ==> StockAfter(stock, lines)[p] == ExpectedStock(stock, lines, p)
    decreases |lines|
  {
    if lines != [] {
      var n := |lines| - 1;
      var front := lines[..n];
      assert UniqueProducts(front) by {
        forall i, j | 0 <= i < j < n ensures front[i].product != front[j].product {
          assert front[i] == lines[i] && front[j] == lines[j];
        }
      }
      StockAfterExact(stock, front);
      forall p | p in stock ensures StockAfter(stock, lines)[p] == ExpectedStock(stock, lines, p) {
        ExpectedSnoc(stock, lines, p);
      }
    }
  }

  /** How the expected stock of a product changes when the cart gets one more line. */
  lemma ExpectedSnoc(stock: map<nat, int>, lines: seq<Line>, p: nat)
    requires UniqueProducts(lines) && lines != [] && p in stock
    ensures var l := lines[|lines| - 1];
      if p == l.product then
        ExpectedStock(stock, lines[..|lines| - 1], p) == stock[p]
        && ExpectedStock(stock, lines, p) == (if stock[p] >= l.quantity then stock[p] - l.quantity else stock[p])
      else ExpectedStock(stock, lines, p) == ExpectedStock(stock, lines[..|lines| - 1], p)
  {
    var n := |lines| - 1;
    var front := lines[..n];
    if p == lines[n].product {
      assert !HasProduct(front, p) by {
        forall k | 0 <= k < n ensures front[k].product != p {
          assert front[k] == lines[k];
        }
      }
      FindUnique(lines, p, n);
    } else {
      match Find(front, p) {
        case None =>
          assert Find(lines, p).None? by {
            forall k | 0 <= k < |lines| ensures lines[k].product != p {
              if k < n {
                assert front[k] == lines[k];
              }
            }
          }
        case Some(k) =>
          assert front[k] == lines[k];
          FindUnique(lines, p, k);
      }
    }
  }

  /** One order line per cart line whose product exists, each at the line's price and quantity. */
  lemma {:induction false} ItemsForSpec(stock: map<nat, int>, lines: seq<Line>)
    ensures |ItemsFor(stock, lines)| <= |lines|
    ensures (forall k :: 0 <= k < |lines| ==> lines[k].product in stock) ==>
      |ItemsFor(stock, lines)| == |lines|
      && forall k :: 0 <= k < |lines| ==>
           ItemsFor(stock, lines)[k] == SavedItem(lines[k].product, lines[k].price.GetOr(0.0), lines[k].quantity)
    ensures forall i :: 0 <= i < |ItemsFor(stock, lines)| ==> ItemsFor(stock, lines)[i].product in stock
    decreases |lines|
  {
    if lines != [] {
      var n := |lines| - 1;
      ItemsForSpec(stock, lines[..n]);
      var front := ItemsFor(stock, lines[..n]);
      var l := lines[n];
      var r := ItemsFor(stock, lines);
      assert r == front + (if l.product in stock then [SavedItem(l.product, l.price.GetOr(0.0), l.quantity)] else []);
      if forall k :: 0 <= k < |lines| ==> lines[k].product in stock {
        assert forall k :: 0 <= k < n ==> lines[..n][k] == lines[k];
        assert l.product in stock;
        forall k | 0 <= k < |lines|
          ensures r[k] == SavedItem(lines[k].product, lines[k].price.GetOr(0.0), lines[k].quantity)
        {
          if k < n {
            assert r[k] == front[k] && lines[..n][k] == lines[k];
          }
        }
      }
      forall i | 0 <= i < |r| ensures r[i].product in stock {
        if i < |front| {
          assert r[i] == front[i];
        }
      }
    }
  }

  // ---------------------------------------------------------------------
  // OrderViewSet.create
  // ---------------------------------------------------------------------

  /** The request body; a missing or zero method id is `None` or `Some(0)`. */
  datatype OrderRequest = OrderRequest(
    valid: bool,
    firstName: string, lastName: string, email: string,
    paymentMethodId: Option<int>, shippingMethodId: Option<int>)

  datatype CreateResult = CartEmpty | Invalid | InvalidPayment | InvalidShipping | Created(emailSent: bool)

  /** The method a truthy id selects: `None` for no id or id 0, otherwise the active method with that id. */
  function Chosen<T>(id: Option<int>, found: Option<T>): bool {
    id.None? || id.value == 0 || found.Some?
  }

  function ActiveShipping(shippings: map<int, ShippingMethod>, id: Option<int>): Option<ShippingMethod> {
    if id.Some? && id.value != 0 && id.value in shippings && shippings[id.value].isActive then Some(shippings[id.value]) else None
  }

  function ActivePayment(payments: map<int, bool>, id: Option<int>): Option<int> {
    if id.Some? && id.value != 0 && id.value in payments && payments[id.value] then Some(id.value) else None
  }

  /** The guards of `create`, in order: empty cart, serializer, payment method, shipping method. */
  function Rejection(count: nat, req: OrderRequest, payments: map<int, bool>, shippings: map<int, ShippingMethod>): Option<CreateResult> {
    if count == 0 then Some(CartEmpty)
    else if !req.valid then Some(Invalid)
    else if !Chosen(req.paymentMethodId, ActivePayment(payments, req.paymentMethodId)) then Some(InvalidPayment)
    else if !Chosen(req.shippingMethodId, ActiveShipping(shippings, req.shippingMethodId)) then Some(InvalidShipping)
    else None
  }

  /**
   * An order is created only from a cart with a positive count, a valid
   * form and, for each method id given (non-zero), an active method with
   * that id; an empty cart is reported first.
   */
  lemma RejectionCases(count: nat, req: OrderRequest, payments: map<int, bool>, shippings: map<int, ShippingMethod>)
    ensures Rejection(count, req, payments, shippings).None? <==>
      count > 0 && req.valid
      && (req.paymentMethodId.Some? && req.paymentMethodId.value != 0 ==>
            req.paymentMethodId.value in payments && payments[req.paymentMethodId.value])
      && (req.shippingMethodId.Some? && req.shippingMethodId.value != 0 ==>
            req.shippingMethodId.value in shippings && shippings[req.shippingMethodId.value].isActive)
    ensures count == 0 ==> Rejection(count, req, payments, shippings) == Some(CartEmpty)
  {
  }

  /**
   * `OrderViewSet.create` for a signed-in user with e-mail `userEmail`;
   * `hex` is the uuid behind the order number, `delivered` whether the
   * confirmation went out and `now` the clock. A refused request changes
   * nothing.
   */
  method CreateOrder(shop: Shop, cart: Cart, req: OrderRequest, userEmail: string,
                     payments: map<int, bool>, shippings: map<int, ShippingMethod>,
                     hex: string, delivered: bool, now: int)
    returns (result: CreateResult, order: Order?)
    requires cart.Valid() && cart.current in cart.carts
    requires |hex| >= 8 && IsLowerHex(hex)
    modifies shop, cart
    ensures Rejection(ItemsCount(old(cart.Items())), req, payments, shippings).Some? ==>
      result == Rejection(ItemsCount(old(cart.Items())), req, payments, shippings).value && order == null
      && shop.stock == old(shop.stock) && cart.carts == old(cart.carts) && cart.session == old(cart.session)
      && cart.current == old(cart.current)
    ensures Rejection(ItemsCount(old(cart.Items())), req, payments, shippings).None? ==>
      result == Created(delivered) && order != null && fresh(order)
      && Totals(order.subtotal, order.shippingCost, order.tax, order.total)
         == Checkout(TotalCost(old(cart.Items())), ActiveShipping(shippings, req.shippingMethodId))
      && order.firstName == req.firstName && order.lastName == req.lastName
      && order.email == (if req.email == "" then userEmail else req.email)
      && order.orderNumber == OrderNumber(hex) && order.status == Pending
      && order.items == ItemsFor(old(shop.stock), old(cart.Items()))
      && order.emailSent == delivered
      && shop.stock == StockAfter(old(shop.stock), old(cart.Items()))
      && cart.Valid() && cart.current == old(cart.current) && cart.Items() == []
      && cart.carts == old(cart.carts)[cart.current := old(cart.carts)[cart.current].(lines := [])]
      && cart.session == Some(Summary(0, IntZero))
  {
    var count := cart.GetCount();
    var rejected := Rejection(count, req, payments, shippings);
    if rejected.Some? {
      return rejected.value, null;
    }
    var email := if req.email == "" then userEmail else req.email;
    var subtotal := cart.GetTotal();
    TotalIsCost(cart.Items());
    var t := Checkout(subtotal.Value(), ActiveShipping(shippings, req.shippingMethodId));
    order := new Order(req.firstName, req.lastName, email, t, hex);
    var lines := cart.Items();
    PlaceItems(shop, order, lines);
    cart.Clear();
    var sent := order.SendConfirmationEmail(delivered, now);
    result := Created(sent);
  }

  /** The item loop of `create`: an order line per existing product, stock taken when it suffices. */
  method PlaceItems(shop: Shop, order: Order, lines: seq<Line>)
    modifies shop`stock, order`items
    ensures shop.stock == StockAfter(old(shop.stock), lines)
    ensures order.items == old(order.items) + ItemsFor(old(shop.stock), lines)
  {
    ghost var stock0 := shop.stock;
    ghost var items0 := order.items;
    for i := 0 to |lines|
      invariant shop.stock == StockAfter(stock0, lines[..i])
      invariant shop.stock.Keys == stock0.Keys
      invariant order.items == items0 + ItemsFor(stock0, lines[..i])
    {
      assert lines[..i + 1][..i] == lines[..i];
      var l := lines[i];
      if l.product in shop.stock {
        order.items := order.items + [SavedItem(l.product, l.price.GetOr(0.0), l.quantity)];
        if shop.stock[l.product] >= l.quantity {
          shop.stock := shop.stock[l.product := shop.stock[l.product] - l.quantity];
        }
      }
    }
    assert lines[..|lines|] == lines;
  }
}
