/** Session aggregation of `getGroupedOrders` (server/controllers/orderController.js):
    orders are grouped by `sessionId` into a dictionary while totals,
    order type, table, delivery and timestamps are accumulated; a second pass
    gives every session its "worst" status by a priority table. */
module SessionGrouping {
  import opened Wrappers
  import opened OrderModel

  /** One grouped session, as the dictionary entry the source builds. */
  datatype ServerSession = ServerSession(
    sessionId: string,
    userId: Option<User>,
    orders: seq<Order>,
    totalAmount: int,
    grossTotal: int,
    discountAmount: int,
    status: string,
    orderType: string,
    tableNumber: string,
    isDelivery: bool,
    deliveryAddress: string,
    createdAt: int,
    updatedAt: int)

  // ---------------------------------------------------------------------------
  // What a session is, stated over its member orders

  /** The member orders of session k, in input order. */
  function Members(os: seq<Order>, k: string): seq<Order> {
    if os == [] then []
    else Members(os[..|os| - 1], k) + (if os[|os| - 1].sessionId == k then [os[|os| - 1]] else [])
  }

  /** The session ids that occur in a list of orders. */
  function SessionIds(os: seq<Order>): set<string> {
    if os == [] then {} else SessionIds(os[..|os| - 1]) + {os[|os| - 1].sessionId}
  }

  /** The members of session k are exactly the orders carrying k. */
  lemma {:induction false} MembersAreTheSession(os: seq<Order>, k: string)
    ensures forall o :: o in Members(os, k) <==> o in os && o.sessionId == k
  {
    if os != [] {
      var init := os[..|os| - 1];
      MembersAreTheSession(init, k);
      assert os == init + [os[|os| - 1]];
    }
  }

  /** A session id occurs exactly when its session has members. */
  lemma {:induction false} SessionIdsHaveMembers(os: seq<Order>, k: string)
    ensures k in SessionIds(os) <==> Members(os, k) != []
  {
    if os != [] {
      SessionIdsHaveMembers(os[..|os| - 1], k);
    }
  }

  lemma SessionIdsAreOrderSessions(os: seq<Order>)
    ensures SessionIds(os) == set o | o in os :: o.sessionId
  {
    forall k ensures k in SessionIds(os) <==> exists o :: o in os && o.sessionId == k {
      SessionIdsHaveMembers(os, k);
      MembersAreTheSession(os, k);
      if Members(os, k) != [] {
        assert Members(os, k)[0] in Members(os, k);
      }
    }
  }

  predicate HasDineIn(ms: seq<Order>) {
    exists i :: 0 <= i < |ms| && ms[i].orderType == DineIn
  }

  predicate HasDelivery(ms: seq<Order>) {
    exists i :: 0 <= i < |ms| && ms[i].isDelivery
  }

  /** A Dine-in member with a (non-empty) table number. */
  predicate SeatedAtTable(o: Order) {
    o.orderType == DineIn && o.tableNumber != ""
  }

  /** The table of the last Dine-in member that has a table number. */
  function LastDineInTable(ms: seq<Order>): Option<string> {
    if ms == [] then None
    else
      var o := ms[|ms| - 1];
      if SeatedAtTable(o) then Some(o.tableNumber)
      else LastDineInTable(ms[..|ms| - 1])
  }

  /** No table is found exactly when no Dine-in member has one; a table found
      is that of a Dine-in member after which no Dine-in member has a table. */
  lemma {:induction false} LastDineInTableIsLast(ms: seq<Order>)
    ensures LastDineInTable(ms).None? ==> forall i :: 0 <= i < |ms| ==> !SeatedAtTable(ms[i])
    ensures LastDineInTable(ms).Some? ==>
              exists i :: 0 <= i < |ms| && SeatedAtTable(ms[i]) && ms[i].tableNumber == LastDineInTable(ms).value
                && forall j :: i < j < |ms| ==> !SeatedAtTable(ms[j])
  {
    if ms != [] {
      var init := ms[..|ms| - 1];
      var n := |ms| - 1;
      LastDineInTableIsLast(init);
      if SeatedAtTable(ms[n]) {
        assert ms[n].tableNumber == LastDineInTable(ms).value;
      } else {
        assert LastDineInTable(ms) == LastDineInTable(init);
        if LastDineInTable(init).Some? {
          var i :| 0 <= i < |init| && SeatedAtTable(init[i]) && init[i].tableNumber == LastDineInTable(init).value
                   && forall j :: i < j < |init| ==> !SeatedAtTable(init[j]);
          assert ms[i] == init[i];
          forall j | i < j < |ms| ensures !SeatedAtTable(ms[j]) {
            if j < n {
              assert ms[j] == init[j];
            }
          }
        } else {
          forall j | 0 <= j < |ms| ensures !SeatedAtTable(ms[j]) {
            if j < n {
              assert ms[j] == init[j];
            }
          }
        }
      }
    }
  }

  /** The address of the last member marked for delivery, or "" when none is. */
  function LastDeliveryAddress(ms: seq<Order>): string {
    if ms == [] then ""
    else if ms[|ms| - 1].isDelivery then ms[|ms| - 1].deliveryAddress
    else LastDeliveryAddress(ms[..|ms| - 1])
  }

  function EarliestCreated(ms: seq<Order>): int
    requires ms != []
  {
    if |ms| == 1 then ms[0].createdAt
    else
      var m := EarliestCreated(ms[..|ms| - 1]);
      if ms[|ms| - 1].createdAt < m then ms[|ms| - 1].createdAt else m
  }

  function LatestUpdated(ms: seq<Order>): int
    requires ms != []
  {
    if |ms| == 1 then ms[0].updatedAt
    else
      var m := LatestUpdated(ms[..|ms| - 1]);
      if ms[|ms| - 1].updatedAt > m then ms[|ms| - 1].updatedAt else m
  }

  lemma {:induction false} EarliestCreatedBounds(ms: seq<Order>)
    requires ms != []
    ensures forall i :: 0 <= i < |ms| ==> EarliestCreated(ms) <= ms[i].createdAt
    ensures exists i :: 0 <= i < |ms| && EarliestCreated(ms) == ms[i].createdAt
  {
    if |ms| > 1 {
      var init := ms[..|ms| - 1];
      EarliestCreatedBounds(init);
      var a :| 0 <= a < |init| && EarliestCreated(init) == init[a].createdAt;
      assert ms[a] == init[a];
      var n := |ms| - 1;
      if ms[n].createdAt < EarliestCreated(init) {
        assert EarliestCreated(ms) == ms[n].createdAt;
      } else {
        assert EarliestCreated(ms) == ms[a].createdAt;
      }
      forall i | 0 <= i < |ms| ensures EarliestCreated(ms) <= ms[i].createdAt {
        if i < |init| {
          assert ms[i] == init[i];
        }
      }
    } else {
      assert EarliestCreated(ms) == ms[0].createdAt;
    }
  }

  lemma {:induction false} LatestUpdatedBounds(ms: seq<Order>)
    requires ms != []
    ensures forall i :: 0 <= i < |ms| ==> ms[i].updatedAt <= LatestUpdated(ms)
    ensures exists i :: 0 <= i < |ms| && LatestUpdated(ms) == ms[i].updatedAt
  {
    if |ms| > 1 {
      var init := ms[..|ms| - 1];
      LatestUpdatedBounds(init);
      var b :| 0 <= b < |init| && LatestUpdated(init) == init[b].updatedAt;
      assert ms[b] == init[b];
      var n := |ms| - 1;
      if ms[n].updatedAt > LatestUpdated(init) {
        assert LatestUpdated(ms) == ms[n].updatedAt;
      } else {
        assert LatestUpdated(ms) == ms[b].updatedAt;
      }
      forall i | 0 <= i < |ms| ensures ms[i].updatedAt <= LatestUpdated(ms) {
        if i < |init| {
          assert ms[i] == init[i];
        }
      }
    } else {
      assert LatestUpdated(ms) == ms[0].updatedAt;
    }
  }

  /** The session's createdAt is the earliest of its members' and its updatedAt
      the latest, each attained by some member. */
  lemma TimestampBounds(ms: seq<Order>)
    requires ms != []
    ensures forall i :: 0 <= i < |ms| ==> EarliestCreated(ms) <= ms[i].createdAt && ms[i].updatedAt <= LatestUpdated(ms)
    ensures exists i :: 0 <= i < |ms| && EarliestCreated(ms) == ms[i].createdAt
    ensures exists i :: 0 <= i < |ms| && LatestUpdated(ms) == ms[i].updatedAt
  {
    EarliestCreatedBounds(ms);
    LatestUpdatedBounds(ms);
  }

  /** The session the grouping pass builds for session k from its members,
      before its status is computed (the placeholder status is "Pending"). */
  function Summarise(k: string, ms: seq<Order>): ServerSession
    requires ms != []
  {
    ServerSession(
      k, ms[0].userId, ms,
      SumTotal(ms), SumGross(ms), SumDiscount(ms),
      "Pending",
      if HasDineIn(ms) then DineIn else ms[0].orderType,
      LastDineInTable(ms).GetOr(ms[0].tableNumber),
      HasDelivery(ms),
      LastDeliveryAddress(ms),
      EarliestCreated(ms), LatestUpdated(ms))
  }

  /** What the fields of a session summary mean: the session is Dine-in when
      some member is; the table is that of a Dine-in member with a table after
      which no Dine-in member has one, or the first member's when no Dine-in
      member has a table; delivery is set when some member is for delivery;
      the timestamps are the earliest creation and the latest update. */
  lemma SummaryFields(k: string, ms: seq<Order>)
    requires ms != []
    ensures var g := Summarise(k, ms);
      && g.sessionId == k && g.orders == ms && g.userId == ms[0].userId
      && (g.orderType == DineIn <==> exists i :: 0 <= i < |ms| && ms[i].orderType == DineIn)
      && (!HasDineIn(ms) ==> g.orderType == ms[0].orderType)
      && ((forall i :: 0 <= i < |ms| ==> !SeatedAtTable(ms[i])) ==> g.tableNumber == ms[0].tableNumber)
      && ((exists i :: 0 <= i < |ms| && SeatedAtTable(ms[i])) ==>
            exists i :: 0 <= i < |ms| && SeatedAtTable(ms[i]) && g.tableNumber == ms[i].tableNumber
              && forall j :: i < j < |ms| ==> !SeatedAtTable(ms[j]))
      && (g.isDelivery <==> exists i :: 0 <= i < |ms| && ms[i].isDelivery)
      && (forall i :: 0 <= i < |ms| ==> g.createdAt <= ms[i].createdAt && ms[i].updatedAt <= g.updatedAt)
      && (exists i :: 0 <= i < |ms| && g.createdAt == ms[i].createdAt)
      && (exists i :: 0 <= i < |ms| && g.updatedAt == ms[i].updatedAt)
  {
    LastDineInTableIsLast(ms);
    TimestampBounds(ms);
    if !HasDineIn(ms) {
      assert ms[0].orderType != DineIn;
    }
  }

  /** A Takeaway order followed by a Dine-in order at table 5: the session is
      Dine-in at table 5. */
  lemma ExampleDineInOverride(k: string, a: Order, b: Order)
    requires a.orderType == "Takeaway" && b.orderType == DineIn && b.tableNumber == "5"
    ensures Summarise(k, [a, b]).orderType == DineIn
    ensures Summarise(k, [a, b]).tableNumber == "5"
  {
    assert [a, b][1] == b;
    assert HasDineIn([a, b]);
    assert SeatedAtTable(b);
    assert LastDineInTable([a, b]) == Some("5");
  }

  // ---------------------------------------------------------------------------
  // Status priority (doubled so that Preparing's 3.5 is an integer)

  /** `statusPriority[s] || 0`, every value doubled. */
  function ServerPriority(s: string): int {
    if s == "CHANGED" || s == "ChangeRequested" || s == "Updated" then 12
    else if s == "PLACED" || s == "Pending" then 10
    else if s == "ACCEPTED" || s == "Accepted" then 8
    else if s == "Preparing" then 7
    else if s == "CANCELLED" || s == "Cancelled" then 6
    else if s == "Ready" then 4
    else if s == "COMPLETED" then 2
    else 0
  }

  /** The filter for `activeOrders`: neither spelling of CANCELLED or COMPLETED. */
  predicate IsActive(s: string) {
    s != "CANCELLED" && s != "Cancelled" && s != "COMPLETED" && s != "Completed"
  }

  /** `activeOrders`: the active members, in order. */
  function ActiveOrders(ms: seq<Order>): seq<Order> {
    if ms == [] then []
    else ActiveOrders(ms[..|ms| - 1])
         + (if IsActive(ms[|ms| - 1].status) then [ms[|ms| - 1]] else [])
  }

  /** The active orders are exactly the members in an active status. */
  lemma {:induction false} ActiveOrdersAreActive(ms: seq<Order>)
    ensures forall o :: o in ActiveOrders(ms) <==> o in ms && IsActive(o.status)
  {
    if ms != [] {
      var init := ms[..|ms| - 1];
      ActiveOrdersAreActive(init);
      assert ms == init + [ms[|ms| - 1]];
    }
  }

  /** The filter keeps the members' order and multiplicity: it distributes
      over concatenation, and one member is kept exactly when it is active. */
  lemma {:induction false} ActiveOrdersAppend(a: seq<Order>, b: seq<Order>)
    ensures ActiveOrders(a + b) == ActiveOrders(a) + ActiveOrders(b)
    decreases |b|
  {
    if b == [] {
      assert a + b == a;
    } else {
      var init := b[..|b| - 1];
      assert (a + b)[..|a + b| - 1] == a + init;
      ActiveOrdersAppend(a, init);
    }
  }

  /** `ordersToConsider`: the active members, or all of them when none is active. */
  function Candidates(ms: seq<Order>): (r: seq<Order>)
    ensures (exists o :: o in ms && IsActive(o.status)) ==>
              forall o :: o in r <==> o in ms && IsActive(o.status)
    ensures (forall o :: o in ms ==> !IsActive(o.status)) ==> r == ms
  {
    var active := ActiveOrders(ms);
    ActiveOrdersAreActive(ms);
    if active != [] then
      assert active[0] in active;
      active
    else ms
  }

  /** The running value of the `worstStatus` loop after the given candidates:
      it starts at COMPLETED and is replaced only by a strictly higher priority. */
  function WorstStatus(cs: seq<Order>): string {
    if cs == [] then "COMPLETED"
    else
      var w := WorstStatus(cs[..|cs| - 1]);
      if ServerPriority(cs[|cs| - 1].status) > ServerPriority(w) then cs[|cs| - 1].status else w
  }

  /** The highest priority among the candidates, and at least COMPLETED's. */
  function MaxPriority(cs: seq<Order>): (r: int)
    ensures r >= 2
    ensures forall i :: 0 <= i < |cs| ==> ServerPriority(cs[i].status) <= r
    ensures r == 2 || exists i :: 0 <= i < |cs| && ServerPriority(cs[i].status) == r
  {
    if cs == [] then 2
    else
      var init := cs[..|cs| - 1];
      var m := MaxPriority(init);
      var p := ServerPriority(cs[|cs| - 1].status);
      assert forall i :: 0 <= i < |init| ==> init[i] == cs[i];
      if p > m then p else m
  }

  /** The status of a session whose members are ms. */
  function SessionStatus(ms: seq<Order>): string {
    WorstStatus(Candidates(ms))
  }

  /** The worst status has the highest priority among the candidates, and it is
      the status of the first candidate reaching it, or COMPLETED when no
      candidate outranks COMPLETED. */
  lemma {:induction false} WorstStatusIsFirstMaximum(cs: seq<Order>)
    ensures ServerPriority(WorstStatus(cs)) == MaxPriority(cs)
    ensures WorstStatus(cs) == "COMPLETED"
            || exists i :: 0 <= i < |cs| && cs[i].status == WorstStatus(cs)
                 && forall j :: 0 <= j < i ==> ServerPriority(cs[j].status) < ServerPriority(WorstStatus(cs))
  {
    if cs != [] {
      var init := cs[..|cs| - 1];
      WorstStatusIsFirstMaximum(init);
      var w := WorstStatus(init);
      if ServerPriority(cs[|cs| - 1].status) > ServerPriority(w) {
        var i := |cs| - 1;
        forall j | 0 <= j < i
          ensures ServerPriority(cs[j].status) < ServerPriority(WorstStatus(cs))
        {
          assert cs[j] == init[j];
        }
      } else if w != "COMPLETED" {
        var i :| 0 <= i < |init| && init[i].status == w
                 && forall j :: 0 <= j < i ==> ServerPriority(init[j].status) < ServerPriority(w);
        assert cs[i] == init[i];
        assert forall j :: 0 <= j < i ==> cs[j] == init[j];
      }
    }
  }

  /** A status missing from the priority table (for instance "Completed" or
      "PREPARING") is never chosen: the result always ranks at least COMPLETED. */
  lemma {:induction false} UnlistedNeverChosen(cs: seq<Order>)
    ensures ServerPriority(WorstStatus(cs)) >= 2
    ensures forall i :: 0 <= i < |cs| && ServerPriority(cs[i].status) == 0 ==> WorstStatus(cs) != cs[i].status
  {
    WorstStatusIsFirstMaximum(cs);
  }

  /** Statuses PLACED, ACCEPTED, CANCELLED give PLACED: CANCELLED is not a
      candidate and PLACED outranks ACCEPTED. */
  lemma ExamplePlacedWins(a: Order, b: Order, c: Order)
    requires a.status == "PLACED" && b.status == "ACCEPTED" && c.status == "CANCELLED"
    ensures SessionStatus([a, b, c]) == "PLACED"
  {
    assert [a, b, c][..2] == [a, b];
    assert [a, b][..1] == [a];
    assert [a][..0] == [];
    assert ActiveOrders([a]) == [a];
    assert ActiveOrders([a, b]) == [a, b];
    assert ActiveOrders([a, b, c]) == [a, b];
    assert WorstStatus([a]) == "PLACED";
    assert WorstStatus([a, b]) == "PLACED";
  }

  /** Statuses CANCELLED, COMPLETED: nothing is active, so all are candidates
      and CANCELLED outranks COMPLETED. */
  lemma ExampleAllTerminal(a: Order, b: Order)
    requires a.status == "CANCELLED" && b.status == "COMPLETED"
    ensures SessionStatus([a, b]) == "CANCELLED"
  {
    assert [a, b][..1] == [a];
    assert [a][..0] == [];
    assert ActiveOrders([a]) == [];
    assert ActiveOrders([a, b]) == [];
    assert WorstStatus([a]) == "CANCELLED";
    assert WorstStatus([a, b]) == "CANCELLED";
  }

  /** An active order in a status outside the table leaves the session COMPLETED. */
  lemma ExampleUnlistedActive(a: Order)
    requires a.status == "PREPARING"
    ensures SessionStatus([a]) == "COMPLETED"
  {
    assert [a][..0] == [];
    assert IsActive(a.status);
    assert ActiveOrders([a]) == [a];
    assert Candidates([a]) == [a];
    assert ServerPriority(a.status) == 0;
    assert WorstStatus([a][..0]) == "COMPLETED";
  }

  // ---------------------------------------------------------------------------
  // The two passes

  /** One step of the grouping pass extends the members of o's session by o. */
  lemma MembersStep(os: seq<Order>, o: Order, k: string)
    ensures Members(os + [o], k) == Members(os, k) + (if o.sessionId == k then [o] else [])
  {
    assert (os + [o])[..|os + [o]| - 1] == os;
  }

  /** The record the loop creates when it first meets session k, at order o. */
  function Start(k: string, o: Order): ServerSession {
    ServerSession(k, o.userId, [], 0, 0, 0, "Pending",
      o.orderType, o.tableNumber, false, "", o.createdAt, o.updatedAt)
  }

  /** The body of the grouping `forEach` for one order o of the session. */
  function Absorb(g: ServerSession, o: Order): ServerSession {
    g.(orders := g.orders + [o],
       totalAmount := g.totalAmount + o.totalAmount,
       grossTotal := g.grossTotal + GrossOrTotal(o),
       discountAmount := g.discountAmount + DiscountOrZero(o),
       orderType := if o.orderType == DineIn then DineIn else g.orderType,
       tableNumber := if o.orderType == DineIn && o.tableNumber != "" then o.tableNumber else g.tableNumber,
       isDelivery := if o.isDelivery then true else g.isDelivery,
       deliveryAddress := if o.isDelivery then o.deliveryAddress else g.deliveryAddress,
       createdAt := if o.createdAt < g.createdAt then o.createdAt else g.createdAt,
       updatedAt := if o.updatedAt > g.updatedAt then o.updatedAt else g.updatedAt)
  }

  lemma HasDineInStep(ms: seq<Order>, o: Order)
    ensures HasDineIn(ms + [o]) <==> HasDineIn(ms) || o.orderType == DineIn
  {
    var ms' := ms + [o];
    if HasDineIn(ms) {
      var i :| 0 <= i < |ms| && ms[i].orderType == DineIn;
      assert ms'[i] == ms[i];
    }
    if o.orderType == DineIn {
      assert ms'[|ms|] == o;
    }
    if HasDineIn(ms') {
      var i :| 0 <= i < |ms'| && ms'[i].orderType == DineIn;
      if i < |ms| { assert ms[i] == ms'[i]; }
    }
  }

  lemma HasDeliveryStep(ms: seq<Order>, o: Order)
    ensures HasDelivery(ms + [o]) <==> HasDelivery(ms) || o.isDelivery
  {
    var ms' := ms + [o];
    if HasDelivery(ms) {
      var i :| 0 <= i < |ms| && ms[i].isDelivery;
      assert ms'[i] == ms[i];
    }
    if o.isDelivery {
      assert ms'[|ms|] == o;
    }
    if HasDelivery(ms') {
      var i :| 0 <= i < |ms'| && ms'[i].isDelivery;
      if i < |ms| { assert ms[i] == ms'[i]; }
    }
  }

  lemma MembersOfOtherSession(os: seq<Order>, o: Order, k: string)
    requires o.sessionId != k
    ensures Members(os + [o], k) == Members(os, k)
  {
    MembersStep(os, o, k);
    assert Members(os, k) + [] == Members(os, k);
  }

  /** Absorbing one more member into a session summary gives the summary of the
      longer member list: the loop body keeps every accumulator exact. */
  lemma {:induction false} SummariseStep(k: string, ms: seq<Order>, o: Order)
    requires ms != []
    ensures Summarise(k, ms + [o]) == Absorb(Summarise(k, ms), o)
  {
    var ms' := ms + [o];
    assert ms'[..|ms'| - 1] == ms;
    assert ms'[|ms'| - 1] == o;
    assert ms'[0] == ms[0];
    HasDineInStep(ms, o);
    HasDeliveryStep(ms, o);
  }

  /** The first member of a session, absorbed into the fresh record, gives the
      summary of that one order. */
  lemma SummariseFirst(k: string, o: Order)
    ensures Summarise(k, [o]) == Absorb(Start(k, o), o)
  {
    assert [o][..0] == [];
    assert [] + [o] == [o];
    HasDineInStep([], o);
    HasDeliveryStep([], o);
    var g, g' := Summarise(k, [o]), Absorb(Start(k, o), o);
    assert g.orders == g'.orders;
    assert SumTotal([o]) == SumTotal([]) + o.totalAmount;
    assert SumGross([o]) == SumGross([]) + GrossOrTotal(o);
    assert SumDiscount([o]) == SumDiscount([]) + DiscountOrZero(o);
    assert LastDeliveryAddress([o]) == if o.isDelivery then o.deliveryAddress else LastDeliveryAddress([]);
    assert LastDineInTable([o]) == if o.orderType == DineIn && o.tableNumber != "" then Some(o.tableNumber) else LastDineInTable([]);
    assert g.totalAmount == g'.totalAmount;
    assert g.grossTotal == g'.grossTotal;
    assert g.discountAmount == g'.discountAmount;
    assert g.orderType == g'.orderType;
    assert g.tableNumber == g'.tableNumber;
    assert g.isDelivery == g'.isDelivery;
    assert g.deliveryAddress == g'.deliveryAddress;
    assert g.createdAt == g'.createdAt;
    assert g.updatedAt == g'.updatedAt;
  }

  /** One order entered into the dictionary: its session's entry, started
      from this order when absent, absorbs it. */
  function Enter(grouped: map<string, ServerSession>, o: Order): (r: map<string, ServerSession>)
    ensures r.Keys == grouped.Keys + {o.sessionId}
  {
    grouped[o.sessionId := Absorb(if o.sessionId in grouped then grouped[o.sessionId] else Start(o.sessionId, o), o)]
  }

  /** The grouping invariant: the dictionary has one entry per session id seen
      so far, summarising exactly the members seen so far. */
  ghost predicate GroupedUpTo(prefix: seq<Order>, grouped: map<string, ServerSession>) {
    && grouped.Keys == SessionIds(prefix)
    && forall k :: k in grouped ==>
         Members(prefix, k) != [] && grouped[k] == Summarise(k, Members(prefix, k))
  }

  lemma SessionIdsStep(prefix: seq<Order>, o: Order)
    ensures SessionIds(prefix + [o]) == SessionIds(prefix) + {o.sessionId}
  {
    assert (prefix + [o])[..|prefix|] == prefix;
  }

  /** The entry of o's own session after absorbing o. */
  lemma {:induction false} GroupedEntryStep(prefix: seq<Order>, o: Order, grouped: map<string, ServerSession>)
    requires GroupedUpTo(prefix, grouped)
    ensures var k := o.sessionId;
            var g := if k in grouped then grouped[k] else Start(k, o);
            Members(prefix + [o], k) != [] && Absorb(g, o) == Summarise(k, Members(prefix + [o], k))
  {
    var k := o.sessionId;
    MembersStep(prefix, o, k);
    if k in grouped {
      SummariseStep(k, Members(prefix, k), o);
    } else {
      SessionIdsHaveMembers(prefix, k);
      assert Members(prefix + [o], k) == [o];
      SummariseFirst(k, o);
    }
  }

  /** The entries of every other session are untouched and stay exact. */
  lemma GroupedOtherStep(prefix: seq<Order>, o: Order, grouped: map<string, ServerSession>, g: ServerSession, j: string)
    requires GroupedUpTo(prefix, grouped)
    requires j in grouped && j != o.sessionId
    ensures Members(prefix + [o], j) != []
    ensures grouped[o.sessionId := g][j] == Summarise(j, Members(prefix + [o], j))
  {
    MembersOfOtherSession(prefix, o, j);
  }

  /** All other entries after the update, stated for the whole dictionary. */
  lemma GroupedOthersStep(prefix: seq<Order>, o: Order,
                          grouped: map<string, ServerSession>, grouped': map<string, ServerSession>)
    requires GroupedUpTo(prefix, grouped)
    requires grouped' == Enter(grouped, o)
    ensures forall j | j in grouped' && j != o.sessionId ::
              Members(prefix + [o], j) != [] && grouped'[j] == Summarise(j, Members(prefix + [o], j))
  {
    var k := o.sessionId;
    var g := Absorb(if k in grouped then grouped[k] else Start(k, o), o);
    forall j | j in grouped' && j != k
      ensures Members(prefix + [o], j) != [] && grouped'[j] == Summarise(j, Members(prefix + [o], j))
    {
      GroupedOtherStep(prefix, o, grouped, g, j);
    }
  }

  /** The loop body keeps the grouping invariant. */
  lemma GroupedStep(prefix: seq<Order>, o: Order,
                    grouped: map<string, ServerSession>, grouped': map<string, ServerSession>)
    requires GroupedUpTo(prefix, grouped)
    requires grouped' == Enter(grouped, o)
    ensures GroupedUpTo(prefix + [o], grouped')
  {
    SessionIdsStep(prefix, o);
    GroupedEntryStep(prefix, o, grouped);
    GroupedOthersStep(prefix, o, grouped, grouped');
  }

  /** The dictionary the grouping pass has built after the given orders. */
  function Grouped(os: seq<Order>): map<string, ServerSession> {
    if os == [] then map[] else Enter(Grouped(os[..|os| - 1]), os[|os| - 1])
  }

  lemma GroupedSnoc(prefix: seq<Order>, o: Order)
    ensures Grouped(prefix + [o]) == Enter(Grouped(prefix), o)
  {
    assert (prefix + [o])[..|prefix|] == prefix;
  }

  /** The dictionary has one entry per session id, summarising exactly its members. */
  lemma {:induction false} GroupedIsSummary(os: seq<Order>)
    ensures GroupedUpTo(os, Grouped(os))
  {
    if os != [] {
      var init, o := os[..|os| - 1], os[|os| - 1];
      GroupedIsSummary(init);
      GroupedStep(init, o, Grouped(init), Grouped(os));
      LastSplit(os);
    }
  }

  /** The body of the grouping `forEach`: start the session's entry from this
      order when it is new, then absorb the order into it. */
  method EnterOrder(grouped: map<string, ServerSession>, order: Order) returns (next: map<string, ServerSession>)
    ensures next == Enter(grouped, order)
  {
    var sessionId := order.sessionId;
    next := grouped;
    if sessionId !in next {
      next := next[sessionId := Start(sessionId, order)];
    }
    next := next[sessionId := Absorb(next[sessionId], order)];
  }

  /** The grouping pass: the `forEach` that fills the `grouped` dictionary. Every
      session id that occurs gets one entry, summarising exactly its members. */
  method GroupBySession(orders: seq<Order>) returns (grouped: map<string, ServerSession>)
    ensures grouped.Keys == SessionIds(orders)
    ensures forall k :: k in grouped ==> Members(orders, k) != [] && grouped[k] == Summarise(k, Members(orders, k))
  {
    grouped := map[];
    var i := 0;
    while i < |orders|
      invariant 0 <= i <= |orders|
      invariant grouped == Grouped(orders[..i])
    {
      GroupedSnoc(orders[..i], orders[i]);
      TakeSnoc(orders, i);
      grouped := EnterOrder(grouped, orders[i]);
      i := i + 1;
    }
    assert orders[..i] == orders;
    GroupedIsSummary(orders);
  }

  /** The worst-status loop over one session's candidates. */
  method ComputeWorstStatus(ordersToConsider: seq<Order>) returns (worstStatus: string)
    ensures worstStatus == WorstStatus(ordersToConsider)
  {
    worstStatus := "COMPLETED";
    var i := 0;
    while i < |ordersToConsider|
      invariant 0 <= i <= |ordersToConsider|
      invariant worstStatus == WorstStatus(ordersToConsider[..i])
    {
      assert ordersToConsider[..i + 1][..i] == ordersToConsider[..i];
      var orderPriority := ServerPriority(ordersToConsider[i].status);
      var worstPriority := ServerPriority(worstStatus);
      if orderPriority > worstPriority {
        worstStatus := ordersToConsider[i].status;
      }
      i := i + 1;
    }
    assert ordersToConsider[..i] == ordersToConsider;
  }

  /** One session of the status pass: the active members, or all members when
      none is active, and the worst status among them. */
  method SessionWorstStatus(members: seq<Order>) returns (worstStatus: string)
    ensures worstStatus == SessionStatus(members)
  {
    var activeOrders := ActiveOrders(members);
    var ordersToConsider := if |activeOrders| > 0 then activeOrders else members;
    worstStatus := ComputeWorstStatus(ordersToConsider);
  }

  /** The status pass: every session gets the worst status of its candidates;
      nothing else in any session changes. */
  method AssignStatuses(grouped: map<string, ServerSession>) returns (result: map<string, ServerSession>)
    ensures result.Keys == grouped.Keys
    ensures forall k :: k in grouped ==>
              result[k] == grouped[k].(status := SessionStatus(grouped[k].orders))
  {
    result := grouped;
    var remaining := grouped.Keys;
    while remaining != {}
      invariant remaining <= grouped.Keys
      invariant result.Keys == grouped.Keys
      invariant forall k :: k in grouped && k !in remaining ==>
                  result[k] == grouped[k].(status := SessionStatus(grouped[k].orders))
      invariant forall k :: k in remaining ==> result[k] == grouped[k]
      decreases remaining
    {
      var sessionId :| sessionId in remaining;
      var worstStatus := SessionWorstStatus(result[sessionId].orders);
      result := result[sessionId := result[sessionId].(status := worstStatus)];
      remaining := remaining - {sessionId};
    }
  }

  /** `getGroupedOrders` on a list of orders: one session per session id, each
      summarising exactly its members and carrying the worst status of them. */
  method GetGroupedOrders(orders: seq<Order>) returns (sessions: map<string, ServerSession>)
    ensures sessions.Keys == SessionIds(orders)
    ensures forall k :: k in sessions ==>
              Members(orders, k) != [] &&
              sessions[k] == Summarise(k, Members(orders, k)).(status := SessionStatus(Members(orders, k)))
  {
    var grouped := GroupBySession(orders);
    sessions := AssignStatuses(grouped);
  }
}
