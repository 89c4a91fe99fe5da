/** The records the order lifecycle works on, after the Order schema
    (server/models/Order.js). Amounts, quantities and timestamps are integers;
    a string field the code only tests for truthiness holds "" for both
    "absent" and "empty". */
module OrderModel {
  import opened Wrappers

  /** One line of an order: `items[]` in the schema; `category` is read by the
      dashboard only ("" when absent). The schema's item lines have no
      category, so a line read back from the store has "" there and the
      dashboard counts it as Other. */
  datatype Item = Item(
    itemId: string,
    name: string,
    quantity: int,
    price: int,
    customizations: seq<string>,
    category: string)

  /** One `kotHistory` entry: a kitchen order ticket that was printed. */
  datatype KotEntry = KotEntry(
    printedAt: int,
    printedItems: seq<Item>,
    printId: string,
    printerType: string)

  /** `previousOrderSnapshot`: the order as it was before an edit. */
  datatype Snapshot = Snapshot(
    items: seq<Item>,
    totalAmount: int,
    grossTotal: Option<int>,
    discountAmount: Option<int>,
    couponCode: Option<string>,
    modifiedAt: int,
    previousStatus: string)

  /** The populated `userId` (name and mobile). */
  datatype User = User(name: string, mobile: string)

  datatype Order = Order(
    id: string,                 // the store's own `_id`
    orderId: Option<string>,    // human-readable ORD-YYYYMMDD-NNNN
    userId: Option<User>,
    sessionId: string,
    items: seq<Item>,
    totalAmount: int,
    grossTotal: Option<int>,
    couponCode: Option<string>,
    discountAmount: Option<int>,
    orderType: string,
    tableNumber: string,
    status: string,
    previousOrderSnapshot: Option<Snapshot>,
    deliveryAddress: string,
    isDelivery: bool,
    feedbackStatus: string,
    countDownSeconds: int,
    kotPrinted: bool,
    kotHistory: seq<KotEntry>,
    createdAt: int,
    updatedAt: int)

  const DineIn := "Dine-in"
  const Takeaway := "Takeaway"

  /** `o.grossTotal || o.totalAmount`: a missing or zero gross total falls back to the total. */
  function GrossOrTotal(o: Order): int {
    if o.grossTotal.Some? && o.grossTotal.value != 0 then o.grossTotal.value else o.totalAmount
  }

  /** `o.discountAmount || 0`. */
  function DiscountOrZero(o: Order): int {
    o.discountAmount.GetOr(0)
  }

  /** The sum of `totalAmount` over a list of orders, as `reduce` adds them left to right. */
  function SumTotal(os: seq<Order>): int {
    if os == [] then 0 else SumTotal(os[..|os| - 1]) + os[|os| - 1].totalAmount
  }

  function SumGross(os: seq<Order>): int {
    if os == [] then 0 else SumGross(os[..|os| - 1]) + GrossOrTotal(os[|os| - 1])
  }

  function SumDiscount(os: seq<Order>): int {
    if os == [] then 0 else SumDiscount(os[..|os| - 1]) + DiscountOrZero(os[|os| - 1])
  }

  /** The items of all orders in order, as a nested `forEach` visits them. */
  function Flatten(os: seq<Order>): seq<Item> {
    if os == [] then [] else Flatten(os[..|os| - 1]) + os[|os| - 1].items
  }

  lemma {:induction false} SumTotalAppend(a: seq<Order>, b: seq<Order>)
    ensures SumTotal(a + b) == SumTotal(a) + SumTotal(b)
    decreases |b|
  {
    if b == [] {
      assert a + b == a;
    } else {
      assert (a + b)[..|a + b| - 1] == a + b[..|b| - 1];
      assert (a + b)[|a + b| - 1] == b[|b| - 1];
      SumTotalAppend(a, b[..|b| - 1]);
    }
  }

  /** Extending a visited prefix of `items` by one more element. */
  lemma PrefixSnoc<T>(seen: seq<T>, items: seq<T>, j: nat)
    requires j < |items|
    ensures seen + items[..j + 1] == (seen + items[..j]) + [items[j]]
  {
    assert items[..j + 1] == items[..j] + [items[j]];
  }

  /** A non-empty sequence is its prefix followed by its last element. */
  lemma LastSplit<T>(s: seq<T>)
    requires s != []
    ensures s == s[..|s| - 1] + [s[|s| - 1]]
  {
  }

  /** The first i + 1 elements are the first i, then element i. */
  lemma TakeSnoc<T>(s: seq<T>, i: nat)
    requires i < |s|
    ensures s[..i + 1] == s[..i] + [s[i]]
  {
  }
}
