/** The request handlers of server/controllers/orderController.js that change
    orders: `updateOrderStatus`, `updateOrder`, `createOrder` and
    `confirmPrintStatus`. Each rule is a function on order records; the
    collection of stored orders is the class `OrderStore`, whose methods apply
    those rules in place. */
module OrderController {
  import opened Wrappers
  import opened Text
  import opened OrderModel
  import opened StatusTransition

  /** The failure answers of the handlers: the 4xx answers, and the 500 of a
      new order that the schema's validation refuses (other store errors are
      not modelled). */
  datatype Failure =
    | NotFound                                                     // 404 'Order not found'
    | InvalidTransition(currentStatus: string, requestedStatus: string)  // 400, names both statuses
    | NotModifiable(currentStatus: string)                         // 400 'Cannot modify ... order'
    | NoOrderItems                                                 // 400 'No order items'
    | NoOrderIds                                                   // 400 'No order IDs provided'
    | SchemaRejected                                               // 500, `save()` fails validation

  datatype Result<T> = Ok(value: T) | Err(error: Failure)

  // ---------------------------------------------------------------------------
  // updateOrderStatus

  /** The effect of `updateOrderStatus` on the one order it finds: a non-empty
      requested status must pass the validator; then the status and the
      feedback status are set when supplied (an empty string is "not supplied"). */
  function StatusUpdate(o: Order, status: string, feedbackStatus: string): (r: Result<Order>)
    ensures r.Err? <==> status != "" && !ValidateStatusTransition(o.status, status)
    ensures r.Err? ==> r.error == InvalidTransition(o.status, status)
    ensures r.Ok? ==> r.value.(status := o.status, feedbackStatus := o.feedbackStatus) == o
    ensures r.Ok? ==> r.value.status == (if status != "" then status else o.status)
    ensures r.Ok? ==> r.value.feedbackStatus == (if feedbackStatus != "" then feedbackStatus else o.feedbackStatus)
  {
    if status != "" && !ValidateStatusTransition(o.status, status) then
      Err(InvalidTransition(o.status, status))
    else
      Ok(o.(status := if status != "" then status else o.status,
            feedbackStatus := if feedbackStatus != "" then feedbackStatus else o.feedbackStatus))
  }

  /** An accepted status change follows a pair of the transition table and
      lands on a known status other than PLACED and CHANGED. */
  lemma StatusUpdateFollowsTable(o: Order, status: string, feedbackStatus: string)
    requires status != "" && StatusUpdate(o, status, feedbackStatus).Ok?
    ensures (Canonical(o.status), Canonical(StatusUpdate(o, status, feedbackStatus).value.status)) in Transitions
    ensures Canonical(StatusUpdate(o, status, feedbackStatus).value.status) in Known - {"PLACED", "CHANGED"}
  {
    ValidateIsTable(o.status, status);
    AcceptedTargets(o.status, status);
  }

  /** A sequence of status requests against one order, each applied when it is
      accepted and ignored (answered with 400) when it is not. */
  function ApplyStatusRequests(o: Order, statuses: seq<string>): Order
    decreases |statuses|
  {
    if statuses == [] then o
    else
      var r := StatusUpdate(o, statuses[0], "");
      ApplyStatusRequests(if r.Ok? then r.value else o, statuses[1..])
  }

  /** Once an order is CANCELLED or COMPLETED (in any spelling) no sequence of
      status requests changes its status again. */
  lemma {:induction false} TerminalIsFinal(o: Order, statuses: seq<string>)
    decreases |statuses|
    requires Canonical(o.status) == "CANCELLED" || Canonical(o.status) == "COMPLETED"
    ensures ApplyStatusRequests(o, statuses).status == o.status
  {
    if statuses != [] {
      var r := StatusUpdate(o, statuses[0], "");
      if statuses[0] != "" {
        TerminalHasNoSuccessor(o.status, statuses[0]);
      }
      TerminalIsFinal(if r.Ok? then r.value else o, statuses[1..]);
    }
  }

  /** Status requests never touch anything but the status of the order. */
  lemma {:induction false} RequestsChangeOnlyStatus(o: Order, statuses: seq<string>)
    decreases |statuses|
    ensures ApplyStatusRequests(o, statuses).(status := o.status) == o
  {
    if statuses != [] {
      var r := StatusUpdate(o, statuses[0], "");
      var next := if r.Ok? then r.value else o;
      RequestsChangeOnlyStatus(next, statuses[1..]);
      assert next.(status := o.status) == o;
    }
  }

  // ---------------------------------------------------------------------------
  // updateOrder

  /** The fields an edit request may carry; `None` is a field left out of the
      request (`undefined`). */
  datatype OrderEdit = OrderEdit(
    items: Option<seq<Item>>,
    totalAmount: Option<int>,
    grossTotal: Option<int>,
    discountAmount: Option<int>,
    couponCode: Option<string>)

  /** The snapshot `updateOrder` stores before modifying, taken at time `now`. */
  function SnapshotOf(o: Order, now: int): Snapshot {
    Snapshot(o.items, o.totalAmount, o.grossTotal, o.discountAmount, o.couponCode, now, o.status)
  }

  /** `updateOrder` on the order it finds: CANCELLED and COMPLETED orders (exactly
      these spellings) are refused; otherwise the prior state is snapshotted, the
      supplied fields are overwritten and the status becomes CHANGED. */
  function EditOrder(o: Order, e: OrderEdit, now: int): (r: Result<Order>)
    ensures r.Err? <==> o.status == "CANCELLED" || o.status == "COMPLETED"
    ensures r.Err? ==> r.error == NotModifiable(o.status)
    ensures r.Ok? ==> r.value.status == "CHANGED" && r.value.previousOrderSnapshot == Some(SnapshotOf(o, now))
  {
    if o.status == "CANCELLED" || o.status == "COMPLETED" then Err(NotModifiable(o.status))
    else
      Ok(o.(previousOrderSnapshot := Some(SnapshotOf(o, now)),
            items := e.items.GetOr(o.items),
            totalAmount := e.totalAmount.GetOr(o.totalAmount),
            grossTotal := if e.grossTotal.Some? then e.grossTotal else o.grossTotal,
            discountAmount := if e.discountAmount.Some? then e.discountAmount else o.discountAmount,
            couponCode := if e.couponCode.Some? then e.couponCode else o.couponCode,
            status := "CHANGED"))
  }

  /** The fields an edit supplies take the supplied values, the others keep
      theirs, and nothing outside the edited fields, the snapshot and the
      status changes. */
  lemma EditAppliesSuppliedFields(o: Order, e: OrderEdit, now: int)
    requires EditOrder(o, e, now).Ok?
    ensures var n := EditOrder(o, e, now).value;
      && (e.items.Some? ==> n.items == e.items.value) && (e.items.None? ==> n.items == o.items)
      && (e.totalAmount.Some? ==> n.totalAmount == e.totalAmount.value)
      && (e.totalAmount.None? ==> n.totalAmount == o.totalAmount)
      && (e.grossTotal.Some? ==> n.grossTotal == e.grossTotal) && (e.grossTotal.None? ==> n.grossTotal == o.grossTotal)
      && (e.discountAmount.Some? ==> n.discountAmount == e.discountAmount)
      && (e.discountAmount.None? ==> n.discountAmount == o.discountAmount)
      && (e.couponCode.Some? ==> n.couponCode == e.couponCode) && (e.couponCode.None? ==> n.couponCode == o.couponCode)
      && n.(items := o.items, totalAmount := o.totalAmount, grossTotal := o.grossTotal,
            discountAmount := o.discountAmount, couponCode := o.couponCode,
            previousOrderSnapshot := o.previousOrderSnapshot, status := o.status) == o
  {
  }

  /** Putting the snapshot back: the order as it was before the edit. */
  function Restore(o: Order): Order
    requires o.previousOrderSnapshot.Some?
  {
    var s := o.previousOrderSnapshot.value;
    o.(items := s.items, totalAmount := s.totalAmount, grossTotal := s.grossTotal,
       discountAmount := s.discountAmount, couponCode := s.couponCode, status := s.previousStatus)
  }

  /** The snapshot holds everything an edit can change: restoring it after an
      edit gives back the original order (apart from the snapshot field itself). */
  lemma RestoreUndoesEdit(o: Order, e: OrderEdit, now: int)
    requires EditOrder(o, e, now).Ok?
    ensures EditOrder(o, e, now).value.previousOrderSnapshot.Some?
    ensures Restore(EditOrder(o, e, now).value).(previousOrderSnapshot := o.previousOrderSnapshot) == o
  {
  }

  /** An edited order must be accepted again: from CHANGED the validator allows
      exactly ACCEPTED and CANCELLED. */
  lemma EditNeedsReacceptance(o: Order, e: OrderEdit, now: int, next: string)
    requires EditOrder(o, e, now).Ok?
    ensures ValidateStatusTransition(EditOrder(o, e, now).value.status, next)
        <==> Canonical(next) == "ACCEPTED" || Canonical(next) == "CANCELLED"
  {
    CanonicalIsFixed();
  }

  /** The edit guard compares exact spellings while the validator does not: an
      order stored as "Completed" (which `updateOrderStatus` accepts as a target)
      has no successor, yet `updateOrder` edits it and reopens it as CHANGED. */
  lemma LegacyCompletedIsReopened(o: Order, e: OrderEdit, now: int, next: string)
    requires o.status == "Completed"
    ensures !ValidateStatusTransition(o.status, next)
    ensures EditOrder(o, e, now).Ok? && EditOrder(o, e, now).value.status == "CHANGED"
  {
    LegacyAliases();
    TerminalHasNoSuccessor(o.status, next);
  }

  // ---------------------------------------------------------------------------
  // createOrder

  /** The body of a create request; an absent `items` is the empty list. */
  datatype CreateRequest = CreateRequest(
    userId: Option<User>,
    items: seq<Item>,
    totalAmount: int,
    orderType: string,
    tableNumber: string,
    couponCode: Option<string>,
    discountAmount: Option<int>,
    grossTotal: Option<int>,
    deliveryAddress: string,
    isDelivery: bool)

  /** `item.preparationTime || 15`. */
  function PrepTimeOr15(p: Option<int>): int {
    if p.Some? && p.value != 0 then p.value else 15
  }

  /** The preparation time of an order: 15 when no catalogue item was found,
      otherwise the largest of the found items' times (each defaulting to 15). */
  function MaxPrepTime(prepTimes: seq<Option<int>>): (r: int)
    ensures prepTimes == [] ==> r == 15
    ensures forall i :: 0 <= i < |prepTimes| ==> PrepTimeOr15(prepTimes[i]) <= r
    ensures prepTimes != [] ==> exists i :: 0 <= i < |prepTimes| && r == PrepTimeOr15(prepTimes[i])
  {
    if |prepTimes| <= 1 then (if prepTimes == [] then 15 else PrepTimeOr15(prepTimes[0]))
    else
      var m := MaxPrepTime(prepTimes[..|prepTimes| - 1]);
      var p := PrepTimeOr15(prepTimes[|prepTimes| - 1]);
      if p > m then p else m
  }

  /** The schema's checks on a new order that a request can fail: a user, a
      session id and an order type of the enum are required. */
  predicate SchemaAccepts(req: CreateRequest, sessionId: string) {
    req.userId.Some? && sessionId != "" && (req.orderType == DineIn || req.orderType == Takeaway)
  }

  /** `createOrder`: an empty item list is refused with 400, and a request the
      schema's validation refuses fails when saved; otherwise the new order is
      PLACED, copies the request (a missing discount takes the schema's default
      of 0), and counts down 60 seconds per minute of the longest preparation
      time. The store id, the order id, the session id, the
      found items' preparation times and the clock are inputs. */
  function CreateOrder(req: CreateRequest, id: string, orderId: string, sessionId: string,
                       prepTimes: seq<Option<int>>, now: int): (r: Result<Order>)
    ensures r == Err(NoOrderItems) <==> req.items == []
    ensures r == Err(SchemaRejected) <==> req.items != [] && !SchemaAccepts(req, sessionId)
    ensures r.Ok? <==> req.items != [] && SchemaAccepts(req, sessionId)
    ensures r.Ok? ==> r.value.status == "PLACED" && r.value.countDownSeconds == 60 * MaxPrepTime(prepTimes)
    ensures r.Ok? ==> r.value.items == req.items && r.value.orderId == Some(orderId) && r.value.sessionId == sessionId
    ensures r.Ok? ==> !r.value.kotPrinted && r.value.kotHistory == [] && r.value.previousOrderSnapshot.None?
    ensures r.Ok? ==> r.value.id == id && r.value.userId == req.userId && r.value.totalAmount == req.totalAmount &&
                      r.value.grossTotal == req.grossTotal && r.value.couponCode == req.couponCode &&
                      r.value.orderType == req.orderType && r.value.tableNumber == req.tableNumber &&
                      r.value.deliveryAddress == req.deliveryAddress && r.value.isDelivery == req.isDelivery &&
                      r.value.feedbackStatus == "Pending"
    ensures r.Ok? ==> r.value.createdAt == now && r.value.updatedAt == now
    ensures r.Ok? && req.discountAmount.Some? ==> r.value.discountAmount == req.discountAmount
    ensures r.Ok? && req.discountAmount.None? ==> r.value.discountAmount == Some(0)
  {
    if req.items == [] then Err(NoOrderItems)
    else if !SchemaAccepts(req, sessionId) then Err(SchemaRejected)
    else
      Ok(Order(id, Some(orderId), req.userId, sessionId, req.items, req.totalAmount, req.grossTotal,
               req.couponCode, Some(req.discountAmount.GetOr(0)), req.orderType, req.tableNumber, "PLACED", None,
               req.deliveryAddress, req.isDelivery, "Pending", 60 * MaxPrepTime(prepTimes),
               false, [], now, now))
  }

  /** The countdown covers every found item's preparation time, and is 15
      minutes when none was found. */
  lemma CountdownCoversEveryItem(req: CreateRequest, id: string, orderId: string, sessionId: string,
                                 prepTimes: seq<Option<int>>, now: int)
    requires req.items != [] && SchemaAccepts(req, sessionId)
    ensures var o := CreateOrder(req, id, orderId, sessionId, prepTimes, now).value;
      && (forall i :: 0 <= i < |prepTimes| ==> 60 * PrepTimeOr15(prepTimes[i]) <= o.countDownSeconds)
      && (prepTimes == [] ==> o.countDownSeconds == 900)
  {
  }

  /** A new order can next be accepted or cancelled, and nothing else. */
  lemma CreatedOrderNextSteps(req: CreateRequest, id: string, orderId: string, sessionId: string,
                              prepTimes: seq<Option<int>>, now: int, next: string)
    requires req.items != [] && SchemaAccepts(req, sessionId)
    ensures ValidateStatusTransition(CreateOrder(req, id, orderId, sessionId, prepTimes, now).value.status, next)
        <==> Canonical(next) == "ACCEPTED" || Canonical(next) == "CANCELLED"
  {
    CanonicalIsFixed();
  }

  // ---------------------------------------------------------------------------
  // confirmPrintStatus

  /** The `kotHistory` entry pushed at time `now`; an absent print id becomes
      `P-<now>`. */
  function PrintEntry(printedItems: Option<seq<Item>>, printId: string, now: nat): (e: KotEntry)
    ensures e.printedAt == now && e.printerType == "BOTH"
    ensures printedItems.Some? ==> e.printedItems == printedItems.value
    ensures printedItems.None? ==> e.printedItems == []
    ensures printId != "" ==> e.printId == printId
    ensures printId == "" ==> |e.printId| > 2 && e.printId[..2] == "P-" && AllDigits(e.printId[2..])
                              && DigitsValue(e.printId[2..]) == now
  {
    DecimalRoundTrip(now);
    KotEntry(now, printedItems.GetOr([]), if printId != "" then printId else "P-" + NatToDecimal(now), "BOTH")
  }

  /** One order after the print confirmation. */
  function Printed(o: Order, e: KotEntry): Order {
    o.(kotPrinted := true, kotHistory := o.kotHistory + [e])
  }

  /** Printing marks the order and records exactly one more ticket, keeping the
      earlier ones, and changes nothing else (in particular not the status). */
  lemma PrintedRecordsOneTicket(o: Order, e: KotEntry)
    ensures Printed(o, e).kotPrinted
    ensures |Printed(o, e).kotHistory| == |o.kotHistory| + 1
    ensures Printed(o, e).kotHistory[..|o.kotHistory|] == o.kotHistory
    ensures Printed(o, e).kotHistory[|o.kotHistory|] == e
    ensures Printed(o, e).(kotPrinted := o.kotPrinted, kotHistory := o.kotHistory) == o
  {
  }

  /** The stored ids among the listed ones: the orders a print confirmation marks. */
  function PrintedIds(m: map<string, Order>, ids: seq<string>): (r: set<string>)
    ensures forall k :: k in r <==> k in ids && k in m
  {
    set k | k in ids && k in m
  }

  /** At most one order is marked per listed id. */
  lemma {:induction false} PrintedIdsBound(m: map<string, Order>, ids: seq<string>)
    ensures |PrintedIds(m, ids)| <= |ids|
  {
    if ids != [] {
      var init, last := ids[..|ids| - 1], ids[|ids| - 1];
      PrintedIdsBound(m, init);
      assert ids == init + [last];
      assert PrintedIds(m, ids) <= PrintedIds(m, init) + {last};
      SubsetSize(PrintedIds(m, ids), PrintedIds(m, init) + {last});
    }
  }

  lemma SubsetSize<T>(a: set<T>, b: set<T>)
    requires a <= b
    ensures |a| <= |b|
  {
    assert b == a + (b - a);
  }

  /** Listing an id again marks nothing more: an order is printed once however
      often its id is listed. */
  lemma RepeatedIdPrintsOnce(m: map<string, Order>, ids: seq<string>, k: string)
    requires k in ids
    ensures PrintedIds(m, ids + [k]) == PrintedIds(m, ids)
  {
  }

  /** Listing one more id adds it to the marked ones when it is stored and not
      yet marked, and otherwise changes nothing. */
  lemma PrintedIdsStep(m: map<string, Order>, ids: seq<string>, i: nat)
    requires i < |ids|
    ensures ids[i] in m && ids[i] !in PrintedIds(m, ids[..i]) ==>
              PrintedIds(m, ids[..i + 1]) == PrintedIds(m, ids[..i]) + {ids[i]}
    ensures !(ids[i] in m && ids[i] !in PrintedIds(m, ids[..i])) ==>
              PrintedIds(m, ids[..i + 1]) == PrintedIds(m, ids[..i])
  {
    assert ids[..i + 1] == ids[..i] + [ids[i]];
    assert forall k :: k in ids[..i + 1] <==> k in ids[..i] || k == ids[i];
  }


  /** The store with the orders whose ids are in `done` printed. */
  function PrintAll(m: map<string, Order>, done: set<string>, e: KotEntry): (r: map<string, Order>)
    ensures r.Keys == m.Keys
    ensures forall k :: k in m && k in done ==> r[k] == Printed(m[k], e)
    ensures forall k :: k in m && k !in done ==> r[k] == m[k]
  {
    map k | k in m :: if k in done then Printed(m[k], e) else m[k]
  }

  /** Printing one more order extends PrintAll by that order. */
  lemma PrintAllStep(m: map<string, Order>, done: set<string>, id: string, e: KotEntry)
    requires id in m && id !in done
    ensures PrintAll(m, done + {id}, e) == PrintAll(m, done, e)[id := Printed(m[id], e)]
  {
    var l, r := PrintAll(m, done + {id}, e), PrintAll(m, done, e)[id := Printed(m[id], e)];
    assert l.Keys == r.Keys;
    forall k | k in l ensures l[k] == r[k] {
      if k != id { assert k in done + {id} <==> k in done; }
    }
  }

  // ---------------------------------------------------------------------------
  // The store

  /** The stored orders, keyed by their store id. */
  class OrderStore {
    var orders: map<string, Order>

    constructor (initial: map<string, Order>)
      ensures orders == initial
    {
      orders := initial;
    }

    /** `updateOrderStatus`: 404 for an unknown id, 400 for a refused transition,
        otherwise only this one order is rewritten. */
    method UpdateOrderStatus(id: string, status: string, feedbackStatus: string) returns (r: Result<Order>)
      modifies this
      ensures id !in old(orders) ==> r == Err(NotFound)
      ensures id in old(orders) ==> r == StatusUpdate(old(orders)[id], status, feedbackStatus)
      ensures r.Ok? ==> orders == old(orders)[id := r.value]
      ensures r.Err? ==> orders == old(orders)
    {
      if id !in orders {
        return Err(NotFound);
      }
      var order := orders[id];
      if status != "" {
        var isValidTransition := ValidateStatusTransition(order.status, status);
        if !isValidTransition {
          return Err(InvalidTransition(order.status, status));
        }
      }
      var updated := order;
      if status != "" {
        updated := updated.(status := status);
      }
      if feedbackStatus != "" {
        updated := updated.(feedbackStatus := feedbackStatus);
      }
      orders := orders[id := updated];
      return Ok(updated);
    }

    /** `updateOrder`: 404 for an unknown id, 400 for a CANCELLED or COMPLETED
        order, otherwise the edited order replaces the stored one. */
    method UpdateOrder(id: string, e: OrderEdit, now: int) returns (r: Result<Order>)
      modifies this
      ensures id !in old(orders) ==> r == Err(NotFound)
      ensures id in old(orders) ==> r == EditOrder(old(orders)[id], e, now)
      ensures r.Ok? ==> orders == old(orders)[id := r.value]
      ensures r.Err? ==> orders == old(orders)
    {
      if id !in orders {
        return Err(NotFound);
      }
      var order := orders[id];
      if order.status == "CANCELLED" || order.status == "COMPLETED" {
        return Err(NotModifiable(order.status));
      }
      // the snapshot, each supplied field, then the CHANGED status
      order := order.(previousOrderSnapshot := Some(SnapshotOf(order, now)),
                      items := if e.items.Some? then e.items.value else order.items,
                      totalAmount := if e.totalAmount.Some? then e.totalAmount.value else order.totalAmount,
                      grossTotal := if e.grossTotal.Some? then e.grossTotal else order.grossTotal,
                      discountAmount := if e.discountAmount.Some? then e.discountAmount else order.discountAmount,
                      couponCode := if e.couponCode.Some? then e.couponCode else order.couponCode,
                      status := "CHANGED");
      orders := orders[id := order];
      return Ok(order);
    }

    /** `confirmPrintStatus`: 400 for an empty id list; otherwise every stored
        order whose id is listed (once, however often it is listed) is marked
        printed with one new ticket, and the answer is how many were. */
    method ConfirmPrintStatus(orderIds: seq<string>, printedItems: Option<seq<Item>>, printId: string, now: nat)
      returns (r: Result<nat>)
      modifies this
      ensures orderIds == [] ==> r == Err(NoOrderIds) && orders == old(orders)
      ensures orderIds != [] ==> r == Ok(|PrintedIds(old(orders), orderIds)|)
      ensures orderIds != [] ==>
                orders == PrintAll(old(orders), PrintedIds(old(orders), orderIds), PrintEntry(printedItems, printId, now))
    {
      if |orderIds| == 0 {
        return Err(NoOrderIds);
      }
      var entry := PrintEntry(printedItems, printId, now);
      var start := orders;
      var store := start;
      var modifiedCount := 0;
      var done: set<string> := {};
      var i := 0;
      assert orderIds[..0] == [];
      while i < |orderIds|
        invariant 0 <= i <= |orderIds|
        invariant done == PrintedIds(start, orderIds[..i])
        invariant modifiedCount == |done|
        invariant store == PrintAll(start, done, entry)
      {
        var id := orderIds[i];
        PrintedIdsStep(start, orderIds, i);
        assert id in store <==> id in start;
        if id in store && id !in done {
          PrintAllStep(start, done, id, entry);
          assert |done + {id}| == |done| + 1;
          store := store[id := Printed(store[id], entry)];
          modifiedCount := modifiedCount + 1;
          done := done + {id};
        }
        i := i + 1;
      }
      assert orderIds[..i] == orderIds;
      // the copy, with the one updateMany applied to each listed stored order, becomes the store
      orders := store;
      return Ok(modifiedCount);
    }
  }
}
