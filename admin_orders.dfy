/** The admin order list (AdminDashbord/src/pages/Orders.jsx): the session entry
    built from a socket push and upserted into the list, the status recomputed
    after a status change, and the status and search filter. The socket,
    printing, notifications and the PDF are not modelled; the bill's item merge
    is in module BillMerge. */
module AdminOrders {
  import opened Wrappers
  import opened Text
  import opened OrderModel

  /** A session entry of the admin list. Fields read from `orders[0]?.` hold ""
      (strings) or None when the session has no orders. */
  datatype SessionView = SessionView(
    sessionId: string,
    userId: Option<User>,
    orders: seq<Order>,
    totalAmount: int,
    grossTotal: int,
    discountAmount: int,
    status: string,
    orderType: string,
    tableNumber: string,
    createdAt: Option<int>,
    updatedAt: Option<int>)

  // ---------------------------------------------------------------------------
  // The worst status of a session

  /** The page's `statusPriority` table, every value doubled (Accepted is 3.5);
      None for a status the table does not list, PLACED among them. */
  function AdminPriority(s: string): Option<int> {
    if s == "Cancelled" then Some(12)
    else if s == "ChangeRequested" then Some(10)
    else if s == "Updated" || s == "Pending" then Some(8)
    else if s == "Accepted" then Some(7)
    else if s == "Preparing" then Some(6)
    else if s == "Ready" then Some(4)
    else if s == "Completed" then Some(2)
    else None
  }

  /** `orders.filter(o => o.status !== 'Cancelled')`. */
  function Active(os: seq<Order>): (r: seq<Order>)
    ensures forall o :: o in r <==> o in os && o.status != "Cancelled"
  {
    if os == [] then []
    else (if os[0].status != "Cancelled" then [os[0]] else []) + Active(os[1..])
  }

  /** The filter keeps the orders' order and multiplicity: it distributes over
      concatenation, and one order is kept exactly when it is not Cancelled. */
  lemma {:induction false} ActiveAppend(a: seq<Order>, b: seq<Order>)
    ensures Active(a + b) == Active(a) + Active(b)
    decreases |a|
  {
    if a == [] {
      assert a + b == b;
    } else {
      assert (a + b)[0] == a[0];
      assert (a + b)[1..] == a[1..] + b;
      ActiveAppend(a[1..], b);
    }
  }

  /** `ordersToConsider`: the active orders, or all of them when none is active. */
  function Considered(os: seq<Order>): seq<Order> {
    if Active(os) != [] then Active(os) else os
  }

  /** The socket handler's test `statusPriority[a] > statusPriority[b]`: a
      comparison involving an undefined priority is false. */
  predicate SocketOutranks(a: string, b: string) {
    AdminPriority(a).Some? && AdminPriority(b).Some? && AdminPriority(a).value > AdminPriority(b).value
  }

  /** The status-update handler's test, with an unlisted status counted as 0. */
  predicate ZeroOutranks(a: string, b: string) {
    AdminPriority(a).GetOr(0) > AdminPriority(b).GetOr(0)
  }

  /** The socket handler's `forEach`: starting from 'Completed', a status
      replaces the current one when it outranks it. */
  function SocketWorst(os: seq<Order>): string {
    if os == [] then "Completed"
    else
      var w := SocketWorst(os[..|os| - 1]);
      if SocketOutranks(os[|os| - 1].status, w) then os[|os| - 1].status else w
  }

  /** The status-update handler's `forEach`, with the `|| 0` comparison. */
  function ZeroWorst(os: seq<Order>): string {
    if os == [] then "Completed"
    else
      var w := ZeroWorst(os[..|os| - 1]);
      if ZeroOutranks(os[|os| - 1].status, w) then os[|os| - 1].status else w
  }

  /** The two handlers compute the same status: the running status is always a
      listed one, so the `|| 0` default never changes a comparison's outcome. */
  lemma {:induction false} WorstAgree(os: seq<Order>)
    ensures SocketWorst(os) == ZeroWorst(os)
    ensures AdminPriority(ZeroWorst(os)).Some?
  {
    if os != [] {
      WorstAgree(os[..|os| - 1]);
    }
  }

  /** The status chosen is listed in the table, outranks or ties every listed
      status of the orders, and is 'Completed' or the status of the first order
      that reaches that rank. */
  lemma {:induction false} WorstIsFirstMaximum(os: seq<Order>)
    ensures AdminPriority(ZeroWorst(os)).Some?
    ensures forall i :: 0 <= i < |os| ==>
              AdminPriority(os[i].status).GetOr(0) <= AdminPriority(ZeroWorst(os)).value
    ensures ZeroWorst(os) == "Completed" ||
            exists i :: 0 <= i < |os| && os[i].status == ZeroWorst(os) &&
              forall j :: 0 <= j < i ==> AdminPriority(os[j].status).GetOr(0) < AdminPriority(ZeroWorst(os)).value
  {
    WorstAgree(os);
    if os != [] {
      var init := os[..|os| - 1];
      WorstIsFirstMaximum(init);
      var w := ZeroWorst(init);
      var last := os[|os| - 1].status;
      if ZeroOutranks(last, w) {
        assert os[|os| - 1].status == ZeroWorst(os);
        forall j | 0 <= j < |os| - 1
          ensures AdminPriority(os[j].status).GetOr(0) < AdminPriority(ZeroWorst(os)).value
        {
          assert os[j] == init[j];
        }
      } else if w != "Completed" {
        var i :| 0 <= i < |init| && init[i].status == w &&
          forall j :: 0 <= j < i ==> AdminPriority(init[j].status).GetOr(0) < AdminPriority(w).value;
        assert os[i] == init[i];
        forall j | 0 <= j < i ensures AdminPriority(os[j].status).GetOr(0) < AdminPriority(w).value {
          assert os[j] == init[j];
        }
      }
      forall i | 0 <= i < |os| ensures AdminPriority(os[i].status).GetOr(0) <= AdminPriority(ZeroWorst(os)).value {
        if i < |os| - 1 {
          assert os[i] == init[i];
        }
      }
    }
  }

  /** A session whose orders all have unlisted statuses, such as PLACED, is shown
      as 'Completed'. */
  lemma {:induction false} UnlistedShowCompleted(os: seq<Order>)
    requires forall i :: 0 <= i < |os| ==> AdminPriority(os[i].status).None?
    ensures ZeroWorst(os) == "Completed"
  {
    if os != [] {
      UnlistedShowCompleted(os[..|os| - 1]);
    }
  }

  lemma {:induction false} AllCancelledIsCancelled(os: seq<Order>)
    requires os != [] && forall i :: 0 <= i < |os| ==> os[i].status == "Cancelled"
    ensures ZeroWorst(os) == "Cancelled"
  {
    var init := os[..|os| - 1];
    if init != [] {
      AllCancelledIsCancelled(init);
    }
  }

  /** A session's status is 'Cancelled' exactly when it has orders and all of
      them are cancelled: one active order keeps cancelled ones out of the count. */
  lemma CancelledOnlyWhenAllCancelled(os: seq<Order>)
    ensures ZeroWorst(Considered(os)) == "Cancelled" <==>
              os != [] && forall i :: 0 <= i < |os| ==> os[i].status == "Cancelled"
  {
    var cs := Considered(os);
    if os != [] && forall i :: 0 <= i < |os| ==> os[i].status == "Cancelled" {
      AllCancelledIsCancelled(os);
    }
    if ZeroWorst(cs) == "Cancelled" {
      WorstIsFirstMaximum(cs);
      var i :| 0 <= i < |cs| && cs[i].status == "Cancelled";
      forall j | 0 <= j < |os| ensures os[j].status == "Cancelled" {
        if os[j].status != "Cancelled" {
          assert false;
        }
      }
    }
  }

  /** The socket handler's loop over `ordersToConsider`. */
  method SocketWorstStatus(ordersToConsider: seq<Order>) returns (worstStatus: string)
    ensures worstStatus == SocketWorst(ordersToConsider)
  {
    worstStatus := "Completed";
    for i := 0 to |ordersToConsider|
      invariant worstStatus == SocketWorst(ordersToConsider[..i])
    {
      assert ordersToConsider[..i + 1][..i] == ordersToConsider[..i];
      var p := AdminPriority(ordersToConsider[i].status);
      var q := AdminPriority(worstStatus);
      if p.Some? && q.Some? && p.value > q.value {
        worstStatus := ordersToConsider[i].status;
      }
    }
    assert ordersToConsider[..|ordersToConsider|] == ordersToConsider;
  }

  /** The status-update handler's loop over `ordersToConsider`. */
  method RecomputeWorstStatus(ordersToConsider: seq<Order>) returns (worstStatus: string)
    ensures worstStatus == ZeroWorst(ordersToConsider)
  {
    worstStatus := "Completed";
    for i := 0 to |ordersToConsider|
      invariant worstStatus == ZeroWorst(ordersToConsider[..i])
    {
      assert ordersToConsider[..i + 1][..i] == ordersToConsider[..i];
      var currentPriority := AdminPriority(ordersToConsider[i].status).GetOr(0);
      var worstPriority := AdminPriority(worstStatus).GetOr(0);
      if currentPriority > worstPriority {
        worstStatus := ordersToConsider[i].status;
      }
    }
    assert ordersToConsider[..|ordersToConsider|] == ordersToConsider;
  }

  // ---------------------------------------------------------------------------
  // The socket push

  /** `orders.find(o => o.orderType === 'Dine-in')`, as an index. */
  function FirstDineIn(os: seq<Order>): (r: Option<nat>)
    ensures r.Some? ==> r.value < |os| && os[r.value].orderType == DineIn
    ensures r.Some? ==> forall j :: 0 <= j < r.value ==> os[j].orderType != DineIn
    ensures r.None? ==> forall j :: 0 <= j < |os| ==> os[j].orderType != DineIn
  {
    if os == [] then None
    else if os[0].orderType == DineIn then Some(0)
    else match FirstDineIn(os[1..])
      case None => None
      case Some(k) => Some(k + 1)
  }

  /** The session's type: Dine-in if any order is, else the first order's. */
  function SessionOrderType(os: seq<Order>): string {
    if FirstDineIn(os).Some? then DineIn else if os == [] then "" else os[0].orderType
  }

  /** The session's table: the first Dine-in order's, when it has one, else the
      first order's. */
  function SessionTable(os: seq<Order>): string {
    var fallback := if os == [] then "" else os[0].tableNumber;
    match FirstDineIn(os)
    case Some(k) => if os[k].tableNumber != "" then os[k].tableNumber else fallback
    case None => fallback
  }

  /** `groupedSession` as the socket handler assembles it. */
  function SocketSession(sessionId: string, orders: seq<Order>): SessionView {
    SessionView(
      sessionId,
      if orders == [] then None else orders[0].userId,
      orders,
      SumTotal(orders), SumGross(orders), SumDiscount(orders),
      SocketWorst(Considered(orders)),
      SessionOrderType(orders),
      SessionTable(orders),
      if orders == [] then None else Some(orders[0].createdAt),
      if orders == [] then None else Some(orders[|orders| - 1].updatedAt))
  }

  /** The pushed session is Dine-in exactly when one of its orders is, its table
      comes from the first Dine-in order when that order has a table, and
      otherwise from the first order. */
  lemma SocketTypeAndTable(os: seq<Order>)
    ensures SessionOrderType(os) == DineIn <==>
              exists i :: 0 <= i < |os| && os[i].orderType == DineIn
    ensures forall i ::
              (0 <= i < |os| && os[i].orderType == DineIn && os[i].tableNumber != "" &&
               forall j :: 0 <= j < i ==> os[j].orderType != DineIn)
              ==> SessionTable(os) == os[i].tableNumber
    ensures (forall i :: 0 <= i < |os| ==> os[i].orderType != DineIn) ==>
              SessionTable(os) == (if os == [] then "" else os[0].tableNumber)
  {
    forall i | 0 <= i < |os| && os[i].orderType == DineIn && os[i].tableNumber != "" &&
        (forall j :: 0 <= j < i ==> os[j].orderType != DineIn)
      ensures SessionTable(os) == os[i].tableNumber
    {
      var k := FirstDineIn(os).value;
      assert !(k < i) && !(i < k);
    }
  }

  /** Only the first Dine-in order counts: when it has no table, a later Dine-in
      order's table is ignored and the first order's table is shown. */
  lemma LaterTableIgnored(a: Order, b: Order)
    requires a.orderType == DineIn && a.tableNumber == ""
    requires b.orderType == DineIn && b.tableNumber == "5"
    ensures SessionTable([a, b]) == ""
    ensures SessionTable([b, a]) == "5"
  {
    assert FirstDineIn([a, b]) == Some(0);
    assert FirstDineIn([b, a]) == Some(0);
  }

  /** `findIndex(g => g.sessionId === sessionId)`. */
  function FindSession(list: seq<SessionView>, sessionId: string): (r: Option<nat>)
    ensures r.Some? ==> r.value < |list| && list[r.value].sessionId == sessionId
    ensures r.Some? ==> forall j :: 0 <= j < r.value ==> list[j].sessionId != sessionId
    ensures r.None? ==> forall j :: 0 <= j < |list| ==> list[j].sessionId != sessionId
  {
    if list == [] then None
    else if list[0].sessionId == sessionId then Some(0)
    else match FindSession(list[1..], sessionId)
      case None => None
      case Some(k) => Some(k + 1)
  }

  /** The state update of the socket handler: replace the session in place, or
      put a new one in front. */
  function Upsert(list: seq<SessionView>, g: SessionView): seq<SessionView> {
    match FindSession(list, g.sessionId)
    case Some(i) => list[i := g]
    case None => [g] + list
  }

  /** A known session is replaced at its index, every other entry is kept, and
      the list keeps its length; an unknown session is prepended. Either way a
      lookup of the session afterwards finds the pushed entry. */
  lemma UpsertPlacesSession(list: seq<SessionView>, g: SessionView)
    ensures var r := Upsert(list, g);
      && (FindSession(list, g.sessionId).Some? ==>
            var i := FindSession(list, g.sessionId).value;
            |r| == |list| && r[i] == g && forall j :: 0 <= j < |list| && j != i ==> r[j] == list[j])
      && (FindSession(list, g.sessionId).None? ==> |r| == |list| + 1 && r[0] == g && r[1..] == list)
      && FindSession(r, g.sessionId).Some? && r[FindSession(r, g.sessionId).value] == g
  {
    var r := Upsert(list, g);
    match FindSession(list, g.sessionId)
    case Some(i) =>
      assert r[i] == g;
      var k := FindSession(r, g.sessionId).value;
      assert !(k < i) && !(i < k);
    case None =>
      assert r[0] == g;
  }

  /** Pushing the same session twice is pushing it once. */
  lemma UpsertIdempotent(list: seq<SessionView>, g: SessionView)
    ensures Upsert(Upsert(list, g), g) == Upsert(list, g)
  {
    UpsertPlacesSession(list, g);
    var r := Upsert(list, g);
    var k := FindSession(r, g.sessionId).value;
    assert r[k := g] == r;
  }

  /** `handleSessionUpdate`: the session entry is computed from the pushed
      orders and upserted into the list. */
  method HandleSessionUpdate(groupedOrders: seq<SessionView>, sessionId: string, orders: seq<Order>)
    returns (next: seq<SessionView>)
    ensures next == Upsert(groupedOrders, SocketSession(sessionId, orders))
  {
    var activeOrders := Active(orders);
    var ordersToConsider := if |activeOrders| > 0 then activeOrders else orders;
    var worstStatus := SocketWorstStatus(ordersToConsider);
    var groupedSession := SessionView(
      sessionId,
      if |orders| == 0 then None else orders[0].userId,
      orders,
      SumTotal(orders), SumGross(orders), SumDiscount(orders),
      worstStatus,
      SessionOrderType(orders),
      SessionTable(orders),
      if |orders| == 0 then None else Some(orders[0].createdAt),
      if |orders| == 0 then None else Some(orders[|orders| - 1].updatedAt));
    var existingIndex := FindSession(groupedOrders, sessionId);
    if existingIndex.Some? {
      next := groupedOrders[existingIndex.value := groupedSession];
    } else {
      next := [groupedSession] + groupedOrders;
    }
  }

  // ---------------------------------------------------------------------------
  // After a status change

  /** `prev.map(...)` of the status-update handler: the sessions with the given
      id get the fresh orders and the recomputed status. */
  function ReplaceMatching(list: seq<SessionView>, sessionId: string, orders: seq<Order>, status: string)
    : (r: seq<SessionView>)
    ensures |r| == |list|
  {
    seq(|list|, i requires 0 <= i < |list| =>
      if list[i].sessionId == sessionId then list[i].(orders := orders, status := status) else list[i])
  }

  /** The list after `handleStatusUpdate` received `updatedOrders` from the
      server; an empty answer leaves the list as it is. */
  function StatusUpdated(list: seq<SessionView>, updatedOrders: seq<Order>): seq<SessionView> {
    if updatedOrders == [] then list
    else ReplaceMatching(list, updatedOrders[0].sessionId, updatedOrders, ZeroWorst(Considered(updatedOrders)))
  }

  /** Only the session of the updated orders changes, and in it only the orders
      and the status; its new status is the one the socket handler would compute
      for the same orders. */
  lemma StatusUpdateOnlyTouchesItsSession(list: seq<SessionView>, updatedOrders: seq<Order>)
    requires updatedOrders != []
    ensures var r := StatusUpdated(list, updatedOrders);
      var id := updatedOrders[0].sessionId;
      && |r| == |list|
      && (forall i :: 0 <= i < |list| && list[i].sessionId != id ==> r[i] == list[i])
      && (forall i :: 0 <= i < |list| && list[i].sessionId == id ==>
            && r[i].orders == updatedOrders
            && r[i].status == SocketSession(id, updatedOrders).status
            && r[i].(orders := list[i].orders, status := list[i].status) == list[i])
  {
    WorstAgree(Considered(updatedOrders));
  }

  /** Receiving the same answer twice changes nothing more. */
  lemma StatusUpdateIdempotent(list: seq<SessionView>, updatedOrders: seq<Order>)
    ensures StatusUpdated(StatusUpdated(list, updatedOrders), updatedOrders) == StatusUpdated(list, updatedOrders)
  {
  }

  /** `handleStatusUpdate` once the server has answered with the session's
      orders. */
  method HandleStatusUpdate(groupedOrders: seq<SessionView>, updatedOrders: seq<Order>)
    returns (next: seq<SessionView>)
    ensures next == StatusUpdated(groupedOrders, updatedOrders)
  {
    if |updatedOrders| == 0 {
      return groupedOrders;
    }
    var sessionId := updatedOrders[0].sessionId;
    var activeOrders := Active(updatedOrders);
    var ordersToConsider := if |activeOrders| > 0 then activeOrders else updatedOrders;
    var worstStatus := RecomputeWorstStatus(ordersToConsider);
    next := ReplaceMatching(groupedOrders, sessionId, updatedOrders, worstStatus);
  }

  // ---------------------------------------------------------------------------
  // The filter

  predicate StatusMatch(s: SessionView, filter: string) {
    filter == "All" || s.status == filter
  }

  /** The search: an empty query, or the customer's name or the session id
      containing it in any case, or the mobile number containing it as typed. */
  predicate SearchMatch(s: SessionView, query: string) {
    query == "" ||
    (s.userId.Some? && Contains(Lower(s.userId.value.name), Lower(query))) ||
    (s.userId.Some? && Contains(s.userId.value.mobile, query)) ||
    Contains(Lower(s.sessionId), Lower(query))
  }

  /** `filteredOrders`. */
  function FilteredOrders(list: seq<SessionView>, filter: string, query: string): (r: seq<SessionView>)
    ensures forall s :: s in r <==> s in list && StatusMatch(s, filter) && SearchMatch(s, query)
    ensures |r| <= |list|
  {
    if list == [] then []
    else
      (if StatusMatch(list[0], filter) && SearchMatch(list[0], query) then [list[0]] else [])
      + FilteredOrders(list[1..], filter, query)
  }

  /** With the filter at 'All' and no query every session is listed, in order. */
  lemma {:induction false} NoFilterKeepsAll(list: seq<SessionView>)
    ensures FilteredOrders(list, "All", "") == list
  {
    if list != [] {
      NoFilterKeepsAll(list[1..]);
    }
  }

  /** Name and session-id search ignore the case of the query. */
  lemma SearchIgnoresCase(s: SessionView, query: string)
    requires Contains(Lower(s.sessionId), Lower(query))
    ensures SearchMatch(s, Upper(query)) && SearchMatch(s, Lower(query))
  {
    LowerForgetsCase(query);
  }
}
