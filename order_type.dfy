/** The customer's checkout step (client/src/pages/OrderType.jsx): the guards of
    `handlePlaceOrder`, the order payload it sends, and when the confirm button
    is disabled. Navigation, the coupon fetch and the loading flag's updates
    are not modelled. */
module Checkout {
  import opened Wrappers
  import opened OrderModel
  import opened OrderController

  /** A cart line, as the client's cart holds it. */
  datatype CartItem = CartItem(id: string, name: string, quantity: int, price: int)

  /** The applied coupon. */
  datatype Coupon = Coupon(code: string, discountAmount: int)

  /** `handlePlaceOrder`'s two early returns: no order type chosen ("" stands
      for null), or Dine-in without a table number. */
  predicate CanPlaceOrder(orderType: string, tableNumber: string) {
    orderType != "" && !(orderType == DineIn && tableNumber == "")
  }

  /** The confirm button's `disabled`. */
  predicate ButtonDisabled(orderType: string, tableNumber: string, loading: bool) {
    orderType == "" || (orderType == DineIn && tableNumber == "") || loading
  }

  /** `Object.keys(addons).filter(k => addons[k])`: the add-on names whose value
      is truthy, in the object's key order. */
  function SelectedAddons(addons: seq<(string, bool)>): (r: seq<string>)
    ensures forall k :: k in r <==> exists i :: 0 <= i < |addons| && addons[i].0 == k && addons[i].1
    ensures |r| <= |addons|
  {
    if addons == [] then []
    else
      (if addons[0].1 then [addons[0].0] else []) + SelectedAddons(addons[1..])
  }

  /** The selection keeps the add-ons' order and multiplicity: it distributes
      over concatenation, and one add-on is kept exactly when its flag is set. */
  lemma {:induction false} SelectedAddonsAppend(a: seq<(string, bool)>, b: seq<(string, bool)>)
    ensures SelectedAddons(a + b) == SelectedAddons(a) + SelectedAddons(b)
    decreases |a|
  {
    if a == [] {
      assert a + b == b;
    } else {
      var head: seq<string> := if a[0].1 then [a[0].0] else [];
      assert (a + b)[0] == a[0];
      assert (a + b)[1..] == a[1..] + b;
      assert SelectedAddons(a + b) == head + SelectedAddons(a[1..] + b);
      SelectedAddonsAppend(a[1..], b);
      assert SelectedAddons(a) == head + SelectedAddons(a[1..]);
    }
  }

  /** One payload item: the cart line's id, name, quantity and price, and the
      selected add-ons (the same for every item). */
  function PayloadItem(c: CartItem, customizations: seq<string>): Item {
    Item(c.id, c.name, c.quantity, c.price, customizations, "")
  }

  /** `orderData` as the server receives it, or None when a guard returns
      early. The user's id is sent and the server stores the user it names;
      `tableNumber: undefined` is "". */
  function OrderData(user: User, cart: seq<CartItem>, addons: seq<(string, bool)>,
                     finalTotal: int, cartTotal: int, coupon: Option<Coupon>,
                     orderType: string, tableNumber: string): (r: Option<CreateRequest>)
    ensures r.None? <==> !CanPlaceOrder(orderType, tableNumber)
  {
    if !CanPlaceOrder(orderType, tableNumber) then None
    else
      var customizations := SelectedAddons(addons);
      Some(CreateRequest(
        Some(user),
        seq(|cart|, i requires 0 <= i < |cart| => PayloadItem(cart[i], customizations)),
        finalTotal,
        orderType,
        if orderType == DineIn then tableNumber else "",
        match coupon case Some(c) => Some(c.code) case None => None,
        match coupon case Some(c) => Some(c.discountAmount) case None => None,
        Some(cartTotal),
        "",
        false))
  }

  /** The payload's items are the cart's, one for one and in order, with the
      selected add-ons; the table is sent for Dine-in only; totals and coupon
      come from the cart. */
  lemma PayloadMatchesCart(user: User, cart: seq<CartItem>, addons: seq<(string, bool)>,
                           finalTotal: int, cartTotal: int, coupon: Option<Coupon>,
                           orderType: string, tableNumber: string)
    requires CanPlaceOrder(orderType, tableNumber)
    ensures var req := OrderData(user, cart, addons, finalTotal, cartTotal, coupon, orderType, tableNumber).value;
      && |req.items| == |cart|
      && (forall i :: 0 <= i < |cart| ==>
            && req.items[i].itemId == cart[i].id && req.items[i].name == cart[i].name
            && req.items[i].quantity == cart[i].quantity && req.items[i].price == cart[i].price
            && (forall k :: k in req.items[i].customizations <==>
                  exists j :: 0 <= j < |addons| && addons[j].0 == k && addons[j].1))
      && req.orderType == orderType
      && (req.tableNumber == tableNumber <==> orderType == DineIn || tableNumber == "")
      && (orderType != DineIn ==> req.tableNumber == "")
      && req.totalAmount == finalTotal && req.grossTotal == Some(cartTotal)
      && (coupon.Some? <==> req.couponCode.Some?)
      && (coupon.Some? ==> req.couponCode == Some(coupon.value.code) && req.discountAmount == Some(coupon.value.discountAmount))
  {
  }

  /** A Dine-in order always leaves the checkout with a table number. */
  lemma DineInCarriesTable(user: User, cart: seq<CartItem>, addons: seq<(string, bool)>,
                           finalTotal: int, cartTotal: int, coupon: Option<Coupon>,
                           orderType: string, tableNumber: string)
    requires OrderData(user, cart, addons, finalTotal, cartTotal, coupon, orderType, tableNumber).Some?
    ensures var req := OrderData(user, cart, addons, finalTotal, cartTotal, coupon, orderType, tableNumber).value;
      req.orderType == DineIn ==> req.tableNumber != ""
  {
  }

  /** The button is disabled exactly when `handlePlaceOrder` would return early
      or an order is already being placed. */
  lemma DisabledIffGuardFailsOrLoading(orderType: string, tableNumber: string, loading: bool)
    ensures ButtonDisabled(orderType, tableNumber, loading) <==> !CanPlaceOrder(orderType, tableNumber) || loading
  {
  }

  /** The checkout does not check for an empty cart: the server answers such a
      payload with "No order items". A non-empty payload with one of the two
      order types the page offers becomes a PLACED order holding exactly the
      payload's items; any other order type fails the schema's validation. */
  lemma ServerAcceptsNonEmptyCarts(user: User, cart: seq<CartItem>, addons: seq<(string, bool)>,
                                   finalTotal: int, cartTotal: int, coupon: Option<Coupon>,
                                   orderType: string, tableNumber: string,
                                   id: string, orderId: string, sessionId: string,
                                   prepTimes: seq<Option<int>>, now: int)
    requires CanPlaceOrder(orderType, tableNumber)
    ensures var req := OrderData(user, cart, addons, finalTotal, cartTotal, coupon, orderType, tableNumber).value;
      var r := CreateOrder(req, id, orderId, sessionId, prepTimes, now);
      && (cart == [] <==> r == Err(NoOrderItems))
      && (cart != [] && (orderType == DineIn || orderType == Takeaway) && sessionId != "" ==>
            r.Ok? && r.value.status == "PLACED" && r.value.items == req.items
            && r.value.tableNumber == req.tableNumber && r.value.userId == Some(user))
      && (cart != [] && orderType != DineIn && orderType != Takeaway ==> r == Err(SchemaRejected))
  {
  }
}
