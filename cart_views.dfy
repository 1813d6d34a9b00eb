/**
 * The cart endpoints: each validates its request (the serializer's
 * bounds), looks the product up, applies its stock guard and only then
 * changes the cart through `CartService`.
 */
module CartViews {
  import opened Wrappers
  import opened CartModels
  import opened CartService

  /** The product columns the endpoints read. */
  datatype ProductRow = ProductRow(price: real, stock: int, isAvailable: bool)

  /** The request body as submitted; a missing field is `None`. */
  datatype Request = Request(productId: Option<int>, quantity: Option<int>, override: Option<bool>)

  /** A request that passed every guard. */
  datatype Command = Command(productId: nat, price: real, quantity: nat, override: bool)

  /** The `total` of a cart response: the cart's sum, or a literal text. */
  datatype CartTotal = Summed(amount: Amount) | Literal(text: string)

  datatype Response =
    | BadRequest                                   // serializer errors, 400
    | NotFound                                     // `get_object_or_404`
    | Insufficient(available: int, requested: int) // 'Insufficient stock', 400
    | OnlyAvailable(stock: int)                    // 'Only {stock} items available', 400
    | CartBody(message: string, total: CartTotal, count: nat, items: seq<Line>)

  /** A product id `get_object_or_404` resolves. */
  predicate Exists(products: map<nat, ProductRow>, id: int) {
    id >= 0 && id as nat in products
  }

  /** `CartAddView.post`'s guards, in order: serializer, available product, stock. */
  function AddGuard(products: map<nat, ProductRow>, req: Request): Result<Command, Response> {
    if req.productId.None? || req.quantity.None? || !(1 <= req.quantity.value <= 100) then Err(BadRequest)
    else if !Exists(products, req.productId.value) || !products[req.productId.value as nat].isAvailable then Err(NotFound)
    else
      var p := products[req.productId.value as nat];
      if p.stock < req.quantity.value then Err(Insufficient(p.stock, req.quantity.value))
      else Ok(Command(req.productId.value as nat, p.price, req.quantity.value as nat, req.override.GetOr(false)))
  }

  /**
   * An add goes through exactly when the request is valid, the product
   * exists and is available, and its stock covers the requested quantity
   * (the quantity already in the cart is not looked at); the override flag
   * defaults to false. A stock refusal reports the stock and the request.
   */
  lemma AddGuardCases(products: map<nat, ProductRow>, req: Request)
    ensures AddGuard(products, req).Ok? <==>
      req.productId.Some? && req.quantity.Some? && 1 <= req.quantity.value <= 100
      && Exists(products, req.productId.value) && products[req.productId.value as nat].isAvailable
      && req.quantity.value <= products[req.productId.value as nat].stock
    ensures AddGuard(products, req).Ok? ==>
      AddGuard(products, req).value
      == Command(req.productId.value as nat, products[req.productId.value as nat].price, req.quantity.value as nat, req.override.GetOr(false))
    ensures AddGuard(products, req) == Err(BadRequest) <==>
      req.productId.None? || req.quantity.None? || !(1 <= req.quantity.value <= 100)
    ensures AddGuard(products, req).Err? && AddGuard(products, req).error.Insufficient? ==>
      Exists(products, req.productId.value)
      && AddGuard(products, req).error == Insufficient(products[req.productId.value as nat].stock, req.quantity.value)
      && products[req.productId.value as nat].stock < req.quantity.value
  {
  }

  /** `CartUpdateView.post`'s guards: serializer (0 to 100), existing product, stock for a positive quantity. */
  function UpdateGuard(products: map<nat, ProductRow>, req: Request): Result<Command, Response> {
    if req.productId.None? || req.quantity.None? || !(0 <= req.quantity.value <= 100) then Err(BadRequest)
    else if !Exists(products, req.productId.value) then Err(NotFound)
    else
      var p := products[req.productId.value as nat];
      if req.quantity.value > 0 && p.stock < req.quantity.value then Err(OnlyAvailable(p.stock))
      else Ok(Command(req.productId.value as nat, p.price, req.quantity.value as nat, false))
  }

  /**
   * An update goes through exactly when the request is valid, the product
   * exists (available or not) and the stock covers a positive quantity; a
   * quantity of 0 always passes and then removes the line.
   */
  lemma UpdateGuardCases(products: map<nat, ProductRow>, req: Request, lines: seq<Line>)
    ensures UpdateGuard(products, req).Ok? <==>
      req.productId.Some? && req.quantity.Some? && 0 <= req.quantity.value <= 100
      && Exists(products, req.productId.value)
      && (req.quantity.value > 0 ==> req.quantity.value <= products[req.productId.value as nat].stock)
    ensures UpdateGuard(products, req).Ok? && req.quantity.value == 0 ==>
      QuantitySet(lines, UpdateGuard(products, req).value.productId, 0) == Removed(lines, req.productId.value as nat)
    ensures UpdateGuard(products, req).Err? && UpdateGuard(products, req).error.OnlyAvailable? ==>
      req.quantity.value > 0 && UpdateGuard(products, req).error.stock == products[req.productId.value as nat].stock < req.quantity.value
  {
  }

  /** `CartRemoveView.post`'s guards: serializer, existing product. */
  function RemoveGuard(products: map<nat, ProductRow>, req: Request): (r: Result<nat, Response>)
    ensures r.Ok? <==> req.productId.Some? && Exists(products, req.productId.value)
    ensures r.Ok? ==> r.value == req.productId.value
    ensures r.Err? ==> r.error == (if req.productId.None? then BadRequest else NotFound)
  {
    if req.productId.None? then Err(BadRequest)
    else if !Exists(products, req.productId.value) then Err(NotFound)
    else Ok(req.productId.value as nat)
  }

  /** The lines after `add` runs the command at the product's price. */
  function AddedBy(lines: seq<Line>, c: Command): seq<Line> {
    Added(lines, c.productId, c.price, c.quantity, c.override)
  }

  /** The lines after `update_quantity` runs the command. */
  function QuantitySetBy(lines: seq<Line>, c: Command): seq<Line> {
    QuantitySet(lines, c.productId, c.quantity)
  }

  /** The `cart` part of a response: total, count and items read back from the cart. */
  method Respond(cart: Cart, message: string) returns (resp: Response)
    ensures resp == CartBody(message, Summed(Total(cart.Items())), ItemsCount(cart.Items()), cart.Items())
  {
    var total := cart.GetTotal();
    var count := cart.GetCount();
    resp := CartBody(message, Summed(total), count, cart.Items());
  }

  /** `CartAddView.post`: a refused request leaves the cart and the session as they were. */
  method AddView(cart: Cart, products: map<nat, ProductRow>, req: Request) returns (resp: Response)
    requires cart.Valid() && cart.current in cart.carts
    modifies cart
    ensures cart.Valid() && cart.current == old(cart.current) && cart.current in cart.carts
    ensures AddGuard(products, req).Err? ==>
      resp == AddGuard(products, req).error && cart.carts == old(cart.carts) && cart.session == old(cart.session)
    ensures AddGuard(products, req).Ok? ==>
      cart.carts == old(cart.carts)[cart.current := old(cart.carts)[cart.current].(lines := AddedBy(old(cart.Items()), AddGuard(products, req).value))]
      && cart.session == Some(SummaryOf(cart.Items()))
      && resp == CartBody("Product added to cart", Summed(Total(cart.Items())), ItemsCount(cart.Items()), cart.Items())
  {
    var g := AddGuard(products, req);
    if g.Err? {
      return g.error;
    }
    var c := g.value;
    var _ := cart.Add(c.productId, c.price, c.quantity, c.override);
    resp := Respond(cart, "Product added to cart");
  }

  /** `CartUpdateView.post`. */
  method UpdateView(cart: Cart, products: map<nat, ProductRow>, req: Request) returns (resp: Response)
    requires cart.Valid() && cart.current in cart.carts
    modifies cart
    ensures cart.Valid() && cart.current == old(cart.current) && cart.current in cart.carts
    ensures UpdateGuard(products, req).Err? ==>
      resp == UpdateGuard(products, req).error && cart.carts == old(cart.carts) && cart.session == old(cart.session)
    ensures UpdateGuard(products, req).Ok? ==>
      cart.carts == old(cart.carts)[cart.current := old(cart.carts)[cart.current].(lines := QuantitySetBy(old(cart.Items()), UpdateGuard(products, req).value))]
      && cart.session == Some(SummaryOf(cart.Items()))
      && resp == CartBody("Cart updated", Summed(Total(cart.Items())), ItemsCount(cart.Items()), cart.Items())
  {
    var g := UpdateGuard(products, req);
    if g.Err? {
      return g.error;
    }
    var c := g.value;
    cart.UpdateQuantity(c.productId, c.quantity);
    resp := Respond(cart, "Cart updated");
  }

  /** `CartRemoveView.post`. */
  method RemoveView(cart: Cart, products: map<nat, ProductRow>, req: Request) returns (resp: Response)
    requires cart.Valid() && cart.current in cart.carts
    modifies cart
    ensures cart.Valid() && cart.current == old(cart.current) && cart.current in cart.carts
    ensures RemoveGuard(products, req).Err? ==>
      resp == RemoveGuard(products, req).error && cart.carts == old(cart.carts) && cart.session == old(cart.session)
    ensures RemoveGuard(products, req).Ok? ==>
      cart.carts == old(cart.carts)[cart.current := old(cart.carts)[cart.current].(lines := Removed(old(cart.Items()), RemoveGuard(products, req).value))]
      && cart.session == Some(SummaryOf(cart.Items()))
      && resp == CartBody("Product removed", Summed(Total(cart.Items())), ItemsCount(cart.Items()), cart.Items())
  {
    var g := RemoveGuard(products, req);
    if g.Err? {
      return g.error;
    }
    cart.Remove(g.value);
    resp := Respond(cart, "Product removed");
  }

  /** `CartClearView.post`: the cart emptied; the answer is the fixed empty cart with the text total "0.00". */
  method ClearView(cart: Cart) returns (resp: Response)
    requires cart.Valid() && cart.current in cart.carts
    modifies cart
    ensures cart.Valid() && cart.current == old(cart.current) && cart.Items() == []
    ensures cart.carts == old(cart.carts)[cart.current := old(cart.carts)[cart.current].(lines := [])]
    ensures resp == CartBody("Cart cleared", Literal("0.00"), 0, [])
  {
    cart.Clear();
    resp := CartBody("Cart cleared", Literal("0.00"), 0, []);
  }

  /**
   * `CartMergeView.post`, as written. The endpoint requires a signed-in
   * user, so the service's cart already is that user's cart, and
   * `merge_with_user` finds it again as the user's cart: its lines are
   * merged into themselves and the cart is then deleted. The answer is an
   * empty cart and the user is left without one.
   */
  method MergeView(cart: Cart, user: nat, priceOf: nat -> real) returns (resp: Response)
    requires cart.Valid() && cart.current in cart.carts && cart.carts[cart.current].user == Some(user)
    modifies cart
    ensures cart.Valid()
    ensures cart.carts == old(cart.carts) - {old(cart.current)}
    ensures forall id :: id in cart.carts ==> cart.carts[id].user != Some(user)
    ensures resp == CartBody("Cart merged successfully", Summed(IntZero), 0, [])
  {
    cart.MergeWithUser(user, Some(cart.current), priceOf);
    resp := Respond(cart, "Cart merged successfully");
  }

  /**
   * The merge endpoint as evidently intended: the user's own cart is left
   * as it is, and a separate session cart is merged into the user's cart.
   */
  method MergeViewFixed(cart: Cart, user: nat, found: Option<nat>, priceOf: nat -> real) returns (resp: Response)
    requires cart.Valid() && cart.current in cart.carts
    requires found.Some? ==> found.value in cart.carts && cart.carts[found.value].user == Some(user)
    requires found.None? ==> forall id :: id in cart.carts ==> cart.carts[id].user != Some(user)
    modifies cart
    ensures cart.Valid() && cart.current in cart.carts && cart.carts[cart.current].user == Some(user)
    ensures cart.carts == MergedTablesFixed(old(cart.carts), old(cart.current), user, found, priceOf)
    ensures forall p ::
              QuantityOf(cart.Items(), p)
              == QuantityOf(old(cart.Items()), p) + (if found.Some? && found.value != old(cart.current) then QuantityOf(old(cart.carts)[found.value].lines, p) else 0)
    ensures resp == CartBody("Cart merged successfully", Summed(Total(cart.Items())), ItemsCount(cart.Items()), cart.Items())
  {
    MergeFixedKeepsEverything(cart.carts, cart.current, user, found, priceOf);
    if found != Some(cart.current) {
      cart.MergeWithUser(user, found, priceOf);
    }
    resp := Respond(cart, "Cart merged successfully");
  }
}
