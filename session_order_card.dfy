/** The admin session card (AdminDashbord/src/components/SessionOrderCard.jsx):
    which orders of a session are shown, in which order, which status change
    each order's button requests, whether a ticket can be printed, and the
    footer total. */
module SessionOrderCard {
  import opened Wrappers
  import opened OrderModel
  import opened StatusTransition

  /** The filter for `visibleOrders`: cancelled and changed orders are hidden. */
  predicate IsVisible(status: string) {
    !(status == "CANCELLED" || status == "Cancelled") &&
    !(status == "CHANGED" || status == "ChangeRequested" || status == "Updated")
  }

  /** `visibleOrders`, in the session's order. */
  function VisibleOrders(os: seq<Order>): (r: seq<Order>)
    ensures forall o :: o in r <==> o in os && IsVisible(o.status)
    ensures forall i :: 0 <= i < |r| ==> IsVisible(r[i].status)
  {
    if os == [] then []
    else (if IsVisible(os[0].status) then [os[0]] else []) + VisibleOrders(os[1..])
  }

  // ---------------------------------------------------------------------------
  // The sort

  /** The thirteen spellings the card's priority table names. */
  const CardStatuses: set<string> :=
    {"PLACED", "Pending", "CHANGED", "ChangeRequested", "Updated", "ACCEPTED", "Accepted",
     "Preparing", "Ready", "CANCELLED", "Cancelled", "COMPLETED", "Completed"}

  /** A status's rank on the card: its entry in the priority table, 99 for any
      other spelling. */
  function CardPriority(s: string): (p: int)
    ensures s in CardStatuses ==> 1 <= p <= 7
    ensures p == 99 <==> s !in CardStatuses
  {
    if s == "PLACED" || s == "Pending" then 1
    else if s == "CHANGED" || s == "ChangeRequested" || s == "Updated" then 2
    else if s == "ACCEPTED" || s == "Accepted" then 3
    else if s == "Preparing" then 4
    else if s == "Ready" then 5
    else if s == "CANCELLED" || s == "Cancelled" then 6
    else if s == "COMPLETED" || s == "Completed" then 7
    else 99
  }

  /** The comparator's "a may come before b": lower priority first, and for
      equal priority the newer order first. */
  predicate ComesFirst(a: Order, b: Order) {
    CardPriority(a.status) < CardPriority(b.status) ||
    (CardPriority(a.status) == CardPriority(b.status) && a.createdAt >= b.createdAt)
  }

  predicate SortedForCard(s: seq<Order>) {
    forall i, j :: 0 <= i < j < |s| ==> ComesFirst(s[i], s[j])
  }

  /** Insert o in front of the first order it may come before. */
  function Insert(o: Order, s: seq<Order>): seq<Order> {
    if s == [] then [o]
    else if ComesFirst(o, s[0]) then [o] + s
    else [s[0]] + Insert(o, s[1..])
  }

  /** The stable sort of the card: each order is inserted ahead of the later
      orders it may precede, so equal orders keep their relative order. */
  function SortForCard(s: seq<Order>): seq<Order> {
    if s == [] then [] else Insert(s[0], SortForCard(s[1..]))
  }

  lemma {:induction false} InsertPermutes(o: Order, s: seq<Order>)
    ensures multiset(Insert(o, s)) == multiset(s) + multiset{o}
    decreases |s|
  {
    if s != [] && !ComesFirst(o, s[0]) {
      InsertPermutes(o, s[1..]);
      assert s == [s[0]] + s[1..];
    }
  }

  lemma {:induction false} InsertElements(o: Order, s: seq<Order>)
    ensures forall x :: x in Insert(o, s) <==> x == o || x in s
    ensures |Insert(o, s)| == |s| + 1
    decreases |s|
  {
    if s != [] && !ComesFirst(o, s[0]) {
      InsertElements(o, s[1..]);
      assert s == [s[0]] + s[1..];
    }
  }

  /** An order that may come before every order of a sorted list may go in front. */
  lemma SortedCons(x: Order, t: seq<Order>)
    requires SortedForCard(t)
    requires forall y :: y in t ==> ComesFirst(x, y)
    ensures SortedForCard([x] + t)
  {
    var r := [x] + t;
    forall i, j | 0 <= i < j < |r| ensures ComesFirst(r[i], r[j]) {
      assert r[j] == t[j - 1];
      if i > 0 { assert r[i] == t[i - 1]; }
    }
  }

  /** The head of a sorted list may come before the rest, which is sorted. */
  lemma SortedHead(s: seq<Order>)
    requires s != [] && SortedForCard(s)
    ensures SortedForCard(s[1..])
    ensures forall y :: y in s[1..] ==> ComesFirst(s[0], y)
  {
    forall y | y in s[1..] ensures ComesFirst(s[0], y) {
      var k :| 0 <= k < |s[1..]| && s[1..][k] == y;
      assert s[k + 1] == y;
    }
  }

  lemma {:induction false} InsertSorted(o: Order, s: seq<Order>)
    requires SortedForCard(s)
    ensures SortedForCard(Insert(o, s))
    decreases |s|
  {
    if s == [] {
      assert Insert(o, s) == [o];
    } else {
      SortedHead(s);
      if ComesFirst(o, s[0]) {
        assert s == [s[0]] + s[1..];
        SortedCons(o, s);
      } else {
        InsertSorted(o, s[1..]);
        InsertElements(o, s[1..]);
        SortedCons(s[0], Insert(o, s[1..]));
      }
    }
  }

  /** The card's sort returns a permutation of its input, ordered by the comparator. */
  lemma {:induction false} SortForCardCorrect(s: seq<Order>)
    ensures multiset(SortForCard(s)) == multiset(s)
    ensures SortedForCard(SortForCard(s))
  {
    if s != [] {
      SortForCardCorrect(s[1..]);
      InsertPermutes(s[0], SortForCard(s[1..]));
      InsertSorted(s[0], SortForCard(s[1..]));
      assert s == [s[0]] + s[1..];
    }
  }

  /** Sorting keeps the length and the elements of the list. */
  lemma {:induction false} SortKeepsElements(s: seq<Order>)
    ensures |SortForCard(s)| == |s|
    ensures forall x :: x in SortForCard(s) <==> x in s
  {
    if s != [] {
      SortKeepsElements(s[1..]);
      InsertElements(s[0], SortForCard(s[1..]));
      assert s == [s[0]] + s[1..];
    }
  }

  /** A prefix of a sorted list is sorted and drawn from it. */
  lemma SortedPrefix(t: seq<Order>, n: nat)
    requires SortedForCard(t) && n <= |t|
    ensures SortedForCard(t[..n])
    ensures forall o :: o in t[..n] ==> o in t
  {
  }

  /** What the card shows: nothing when no order is visible, otherwise the
      visible orders sorted (the first two while collapsed). */
  function CardOrders(os: seq<Order>, isExpanded: bool): (r: Option<seq<Order>>)
    ensures r.None? <==> VisibleOrders(os) == []
  {
    var visible := VisibleOrders(os);
    if visible == [] then None
    else
      var sorted := SortForCard(visible);
      Some(if isExpanded || |sorted| <= 2 then sorted else sorted[..2])
  }

  /** An expanded card shows exactly the visible orders, sorted; a collapsed one
      the first two of them, so every order it leaves out sorts after every order
      it shows. */
  lemma CardShowsVisibleSorted(os: seq<Order>, isExpanded: bool)
    requires VisibleOrders(os) != []
    ensures var shown := CardOrders(os, isExpanded).value;
      && SortedForCard(shown)
      && (isExpanded ==> multiset(shown) == multiset(VisibleOrders(os)))
      && (!isExpanded ==> |shown| == if |VisibleOrders(os)| < 2 then |VisibleOrders(os)| else 2)
      && (forall o :: o in shown ==> IsVisible(o.status))
      && shown == SortForCard(VisibleOrders(os))[..|shown|]
      && (forall i, j :: 0 <= i < |shown| <= j < |SortForCard(VisibleOrders(os))| ==>
            ComesFirst(shown[i], SortForCard(VisibleOrders(os))[j]))
  {
    var visible := VisibleOrders(os);
    var sorted := SortForCard(visible);
    SortForCardCorrect(visible);
    SortKeepsElements(visible);
    if !isExpanded && |sorted| > 2 {
      SortedPrefix(sorted, 2);
    }
  }

  /** A PLACED order is listed ahead of an accepted one, and of two orders of the
      same priority the newer one comes first. */
  lemma ComparatorExamples(a: Order, b: Order)
    ensures a.status == "PLACED" && b.status == "ACCEPTED" ==> ComesFirst(a, b) && !ComesFirst(b, a)
    ensures CardPriority(a.status) == CardPriority(b.status) && a.createdAt > b.createdAt ==>
              ComesFirst(a, b) && !ComesFirst(b, a)
    ensures CardPriority(a.status) == 99 && CardPriority(b.status) != 99 ==> ComesFirst(b, a) && !ComesFirst(a, b)
  {
  }

  // ---------------------------------------------------------------------------
  // Buttons

  /** What `renderOrderActions` shows for a status. */
  datatype Action =
    | Accept          // 'Accept Order'
    | ReAccept        // 'Re-Accept Order'
    | StartPreparing  // 'Start Preparing'
    | MarkReady       // 'Mark as Ready'
    | Complete        // 'Complete Order'
    | CancelledLabel  // 'Order Cancelled', no button
    | CompletedLabel  // 'Order Completed', no button
    | Nothing         // null

  function RenderOrderActions(status: string): Action {
    if status == "PLACED" || status == "Pending" then Accept
    else if status == "CHANGED" || status == "ChangeRequested" || status == "Updated" then ReAccept
    else if status == "ACCEPTED" || status == "Accepted" then StartPreparing
    else if status == "Preparing" then MarkReady
    else if status == "Ready" then Complete
    else if status == "CANCELLED" || status == "Cancelled" then CancelledLabel
    else if status == "COMPLETED" || status == "Completed" then CompletedLabel
    else Nothing
  }

  /** The status a button sends to `onStatusUpdate`, if the action is a button. */
  function Requested(a: Action): Option<string> {
    match a
    case Accept => Some("ACCEPTED")
    case ReAccept => Some("ACCEPTED")
    case StartPreparing => Some("Preparing")
    case MarkReady => Some("Ready")
    case Complete => Some("COMPLETED")
    case _ => None
  }

  /** The next status per current status, and no transition for the terminal
      statuses and those the card does not know. */
  lemma NextStatusTable(status: string)
    ensures status == "PLACED" || status == "Pending" || status == "CHANGED"
            || status == "ChangeRequested" || status == "Updated"
            ==> Requested(RenderOrderActions(status)) == Some("ACCEPTED")
    ensures status == "ACCEPTED" || status == "Accepted" ==> Requested(RenderOrderActions(status)) == Some("Preparing")
    ensures status == "Preparing" ==> Requested(RenderOrderActions(status)) == Some("Ready")
    ensures status == "Ready" ==> Requested(RenderOrderActions(status)) == Some("COMPLETED")
    ensures Requested(RenderOrderActions(status)).None? <==> CardPriority(status) >= 6
  {
  }

  /** Every status change a card button requests is one the server's validator
      accepts, so no button of the card is answered with 400. */
  lemma ButtonsPassValidator(status: string)
    requires Requested(RenderOrderActions(status)).Some?
    ensures ValidateStatusTransition(status, Requested(RenderOrderActions(status)).value)
  {
    CanonicalIsFixed();
    LegacyAliases();
    if status == "PLACED" || status == "Pending" {
      assert Requested(RenderOrderActions(status)).value == "ACCEPTED" && Canonical(status) == "PLACED";
    } else if status == "CHANGED" || status == "ChangeRequested" || status == "Updated" {
      assert Requested(RenderOrderActions(status)).value == "ACCEPTED" && Canonical(status) == "CHANGED";
    } else if status == "ACCEPTED" || status == "Accepted" {
      assert Requested(RenderOrderActions(status)).value == "Preparing" && Canonical(status) == "ACCEPTED";
    } else if status == "Preparing" {
      assert Requested(RenderOrderActions(status)).value == "Ready";
    } else {
      assert status == "Ready" && Requested(RenderOrderActions(status)).value == "COMPLETED";
    }
  }

  /** Following the buttons from PLACED walks the server's lifecycle to the end:
      ACCEPTED, Preparing, Ready, COMPLETED, after which no button is offered. */
  lemma ButtonsWalkTheLifecycle()
    ensures Requested(RenderOrderActions("PLACED")) == Some("ACCEPTED")
    ensures Requested(RenderOrderActions("ACCEPTED")) == Some("Preparing")
    ensures Requested(RenderOrderActions("Preparing")) == Some("Ready")
    ensures Requested(RenderOrderActions("Ready")) == Some("COMPLETED")
    ensures Requested(RenderOrderActions("COMPLETED")).None?
  {
  }

  /** `canGenerateKOT`. */
  predicate CanGenerateKOT(o: Order) {
    o.status == "ACCEPTED" || o.status == "Accepted"
  }

  /** The ticket button appears exactly on orders offering "Start Preparing". */
  lemma KotGoesWithStartPreparing(o: Order)
    ensures CanGenerateKOT(o) <==> RenderOrderActions(o.status) == StartPreparing
  {
  }

  // ---------------------------------------------------------------------------
  // Footer

  /** The footer's `reduce` over the visible orders. */
  function FooterTotal(os: seq<Order>): int {
    SumTotal(VisibleOrders(os))
  }

  /** The footer adds up the visible orders only: a hidden order does not
      change it, a visible one adds its amount. */
  lemma {:induction false} FooterCountsVisibleOnly(os: seq<Order>, o: Order)
    ensures FooterTotal(os + [o]) == FooterTotal(os) + (if IsVisible(o.status) then o.totalAmount else 0)
  {
    VisibleAppend(os, [o]);
    assert VisibleOrders([o]) == (if IsVisible(o.status) then [o] else []) + VisibleOrders([]);
    SumTotalAppend(VisibleOrders(os), VisibleOrders([o]));
    if IsVisible(o.status) {
      assert SumTotal([o]) == SumTotal([o][..0]) + o.totalAmount;
    }
  }

  lemma {:induction false} VisibleAppend(a: seq<Order>, b: seq<Order>)
    ensures VisibleOrders(a + b) == VisibleOrders(a) + VisibleOrders(b)
    decreases |a|
  {
    if a == [] {
      assert a + b == b;
    } else {
      assert (a + b)[0] == a[0];
      assert (a + b)[1..] == a[1..] + b;
      VisibleAppend(a[1..], b);
    }
  }
}
