/**
 * The client-side cart store: a copy of the last cart the server sent,
 * the flags of the request in flight and the last error. Requests are not
 * made here; each action receives the outcome of its request.
 */
module CartStore {
  import opened Wrappers

  /** An item as the cart endpoints send it (the fields the store reads). */
  datatype Item = Item(productId: int, quantity: int, stock: int)

  /** The `cart` object of a response. */
  datatype CartData = CartData(items: seq<Item>, total: string, count: int)

  /**
   * How a request ended: with a body (`None` when the body, or its `cart`,
   * is absent), or with an error whose `message` may be missing or empty.
   */
  datatype Outcome = Succeeded(data: Option<CartData>) | Failed(message: Option<string>)

  /** `err.message || fallback`: an absent or empty message gives the fallback. */
  function ErrorText(message: Option<string>, fallback: string): (r: string)
    ensures message.Some? && message.value != "" ==> r == message.value
    ensures message.None? || message.value == "" ==> r == fallback
  {
    if message.Some? && message.value != "" then message.value else fallback
  }

  /** The position of the first item for the product (`items.find`). */
  function FirstIndex(items: seq<Item>, productId: int): (r: Option<nat>)
    ensures r.Some? ==> r.value < |items| && items[r.value].productId == productId
                        && forall k :: 0 <= k < r.value ==> items[k].productId != productId
    ensures r.None? ==> forall k :: 0 <= k < |items| ==> items[k].productId != productId
  {
    if items == [] then None
    else if items[0].productId == productId then Some(0)
    else
      match FirstIndex(items[1..], productId)
      case None =>
        assert forall k :: 1 <= k < |items| ==> items[k] == items[1..][k - 1];
        None
      case Some(i) =>
        assert forall k :: 1 <= k < i + 1 ==> items[k] == items[1..][k - 1];
        Some(i + 1)
  }

  /** `quickAdd`'s local part: the first item for the product gains the quantity; nothing else changes. */
  function Bumped(items: seq<Item>, productId: int, quantity: int): seq<Item> {
    match FirstIndex(items, productId)
    case None => items
    case Some(i) => items[i := items[i].(quantity := items[i].quantity + quantity)]
  }

  class Store {
    var items: seq<Item>
    var total: string
    var count: int
    var isLoading: bool
    var isUpdating: bool
    var error: Option<string>

    /** The initial state. */
    constructor()
      ensures items == [] && total == "0.00" && count == 0
      ensures !isLoading && !isUpdating && error.None?
      ensures IsEmpty()
    {
      items := [];
      total := "0.00";
      count := 0;
      isLoading := false;
      isUpdating := false;
      error := None;
    }

    predicate IsEmpty()
      reads this
    {
      count == 0
    }

    predicate HasItem(productId: int)
      reads this
    {
      exists k :: 0 <= k < |items| && items[k].productId == productId
    }

    /** The quantity of the first item for the product, 0 without one. */
    function GetItemQuantity(productId: int): int
      reads this
    {
      match FirstIndex(items, productId)
      case None => 0
      case Some(i) => items[i].quantity
    }

    /** Whether the first item for the product is below its stock; false without one. */
    predicate CanIncreaseQuantity(productId: int)
      reads this
    {
      match FirstIndex(items, productId)
      case None => false
      case Some(i) => items[i].quantity < items[i].stock
    }

    /**
     * The getters agree with one another: a product without an item has
     * quantity 0 and cannot be increased; with items, the first one
     * decides both.
     */
    lemma GettersAgree(productId: int)
      ensures !HasItem(productId) ==> GetItemQuantity(productId) == 0 && !CanIncreaseQuantity(productId)
      ensures CanIncreaseQuantity(productId) ==> HasItem(productId)
      ensures forall k ::
                (0 <= k < |items| && items[k].productId == productId
                 && forall j :: 0 <= j < k ==> items[j].productId != productId)
                ==> GetItemQuantity(productId) == items[k].quantity
                    && (CanIncreaseQuantity(productId) <==> items[k].quantity < items[k].stock)
    {
    }

    /** A request's outcome applied: a body replaces the cart, an error is recorded with the fallback text. */
    method Settle(outcome: Outcome, fallback: string) returns (success: bool)
      modifies this`items, this`total, this`count, this`error
      ensures success <==> outcome.Succeeded?
      ensures outcome.Succeeded? && outcome.data.Some? ==>
        items == outcome.data.value.items && total == outcome.data.value.total && count == outcome.data.value.count
      ensures !(outcome.Succeeded? && outcome.data.Some?) ==>
        items == old(items) && total == old(total) && count == old(count)
      ensures error == (if outcome.Failed? then Some(ErrorText(outcome.message, fallback)) else None)
    {
      error := None;
      match outcome {
        case Succeeded(data) =>
          if data.Some? {
            items := data.value.items;
            total := data.value.total;
            count := data.value.count;
          }
          success := true;
        case Failed(message) =>
          error := Some(ErrorText(message, fallback));
          success := false;
      }
    }

    /** `fetchCart`: loading is over whatever the outcome. */
    method FetchCart(outcome: Outcome) returns (success: bool)
      modifies this
      ensures success <==> outcome.Succeeded?
      ensures outcome.Succeeded? && outcome.data.Some? ==>
        items == outcome.data.value.items && total == outcome.data.value.total && count == outcome.data.value.count
      ensures !(outcome.Succeeded? && outcome.data.Some?) ==>
        items == old(items) && total == old(total) && count == old(count)
      ensures error == (if outcome.Failed? then Some(ErrorText(outcome.message, "Failed to load cart")) else None)
      ensures !isLoading && isUpdating == old(isUpdating)
    {
      isLoading := true;
      success := Settle(outcome, "Failed to load cart");
      isLoading := false;
    }

    /** `addToCart`, `updateQuantity` and `removeFromCart`: the same update with their own fallback texts. */
    method Mutate(outcome: Outcome, fallback: string) returns (success: bool)
      modifies this
      ensures success <==> outcome.Succeeded?
      ensures outcome.Succeeded? && outcome.data.Some? ==>
        items == outcome.data.value.items && total == outcome.data.value.total && count == outcome.data.value.count
      ensures !(outcome.Succeeded? && outcome.data.Some?) ==>
        items == old(items) && total == old(total) && count == old(count)
      ensures error == (if outcome.Failed? then Some(ErrorText(outcome.message, fallback)) else None)
      ensures !isUpdating && isLoading == old(isLoading)
    {
      isUpdating := true;
      success := Settle(outcome, fallback);
      isUpdating := false;
    }

    method AddToCart(outcome: Outcome) returns (success: bool)
      modifies this
      ensures success <==> outcome.Succeeded?
      ensures outcome.Succeeded? && outcome.data.Some? ==> CartData(items, total, count) == outcome.data.value
      ensures !(outcome.Succeeded? && outcome.data.Some?) ==>
        items == old(items) && total == old(total) && count == old(count)
      ensures error == (if outcome.Failed? then Some(ErrorText(outcome.message, "Failed to add to cart")) else None)
      ensures !isUpdating && isLoading == old(isLoading)
    {
      success := Mutate(outcome, "Failed to add to cart");
    }

    method UpdateQuantity(outcome: Outcome) returns (success: bool)
      modifies this
      ensures success <==> outcome.Succeeded?
      ensures outcome.Succeeded? && outcome.data.Some? ==> CartData(items, total, count) == outcome.data.value
      ensures !(outcome.Succeeded? && outcome.data.Some?) ==>
        items == old(items) && total == old(total) && count == old(count)
      ensures error == (if outcome.Failed? then Some(ErrorText(outcome.message, "Failed to update cart")) else None)
      ensures !isUpdating && isLoading == old(isLoading)
    {
      success := Mutate(outcome, "Failed to update cart");
    }

    method RemoveFromCart(outcome: Outcome) returns (success: bool)
      modifies this
      ensures success <==> outcome.Succeeded?
      ensures outcome.Succeeded? && outcome.data.Some? ==> CartData(items, total, count) == outcome.data.value
      ensures !(outcome.Succeeded? && outcome.data.Some?) ==>
        items == old(items) && total == old(total) && count == old(count)
      ensures error == (if outcome.Failed? then Some(ErrorText(outcome.message, "Failed to remove from cart")) else None)
      ensures !isUpdating && isLoading == old(isLoading)
    {
      success := Mutate(outcome, "Failed to remove from cart");
    }

    /** `clearCart`: a successful request empties the local cart whatever the server answered. */
    method ClearCart(succeeded: bool, message: Option<string>) returns (success: bool)
      modifies this
      ensures success == succeeded
      ensures succeeded ==> items == [] && total == "0.00" && count == 0 && error.None? && IsEmpty()
      ensures !succeeded ==> items == old(items) && total == old(total) && count == old(count)
                             && error == Some(ErrorText(message, "Failed to clear cart"))
      ensures !isUpdating && isLoading == old(isLoading)
    {
      isUpdating := true;
      error := None;
      if succeeded {
        items := [];
        total := "0.00";
        count := 0;
      } else {
        error := Some(ErrorText(message, "Failed to clear cart"));
      }
      success := succeeded;
      isUpdating := false;
    }

    /**
     * `quickAdd`'s optimistic part: the first item for the product gains
     * the quantity, 1 when none is given; a product without an item is not added locally, and
     * the count is left to the background `addToCart`.
     */
    method QuickAdd(productId: int, quantity: Option<int>)
      modifies this`items
      ensures items == Bumped(old(items), productId, quantity.GetOr(1))
    {
      var amount := quantity.GetOr(1);
      var i := FirstIndex(items, productId);
      if i.Some? {
        items := items[i.value := items[i.value].(quantity := items[i.value].quantity + amount)];
      }
    }
  }

  /**
   * `quickAdd` keeps the set of products and the positions of the items:
   * only the first item for the product changes, by exactly the quantity,
   * and nothing changes without one.
   */
  lemma BumpedItems(items: seq<Item>, productId: int, quantity: int)
    ensures |Bumped(items, productId, quantity)| == |items|
    ensures forall k :: 0 <= k < |items| ==>
              Bumped(items, productId, quantity)[k].productId == items[k].productId
              && Bumped(items, productId, quantity)[k].stock == items[k].stock
    ensures FirstIndex(items, productId).None? ==> Bumped(items, productId, quantity) == items
    ensures FirstIndex(items, productId).Some? ==>
      var i := FirstIndex(items, productId).value;
      Bumped(items, productId, quantity)[i].quantity == items[i].quantity + quantity
      && forall k :: 0 <= k < |items| && k != i ==> Bumped(items, productId, quantity)[k] == items[k]
  {
  }

  /** After `quickAdd` the store reports the product's quantity raised by exactly the amount, when it had an item. */
  lemma BumpedQuantity(items: seq<Item>, productId: int, quantity: int)
    requires FirstIndex(items, productId).Some?
    ensures FirstIndex(Bumped(items, productId, quantity), productId) == FirstIndex(items, productId)
  {
    var i := FirstIndex(items, productId).value;
    var bumped := Bumped(items, productId, quantity);
    assert bumped[i].productId == productId;
    assert forall k :: 0 <= k < i ==> bumped[k] == items[k];
    FirstIndexIs(bumped, productId, i);
  }

  /** A position holding the product, with no earlier one, is the one `findIndex` finds. */
  lemma {:induction false} FirstIndexIs(items: seq<Item>, productId: int, i: nat)
    requires i < |items| && items[i].productId == productId
    requires forall k :: 0 <= k < i ==> items[k].productId != productId
    ensures FirstIndex(items, productId) == Some(i)
  {
    if i > 0 {
      assert forall k :: 0 <= k < i - 1 ==> items[1..][k] == items[k + 1];
      FirstIndexIs(items[1..], productId, i - 1);
    }
  }
}
