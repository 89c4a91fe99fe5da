/** The statistics of the admin dashboard (AdminDashbord/src/pages/Dashboard.jsx):
    revenue, the status counts, revenue per category and the best-selling items,
    all derived from the list of orders. The seven-day trend, the random
    "growth" figure and the sample chart data are not modelled. */
module Dashboard {
  import opened OrderModel

  // ---------------------------------------------------------------------------
  // Revenue and counts

  /** `orders.reduce((sum, o) => sum + (o.totalAmount || 0), 0)`; the amount is
      a number in every order here, so the default changes nothing. */
  function TotalRevenue(os: seq<Order>): int {
    SumTotal(os)
  }

  /** Revenue adds up over any split of the order list. */
  lemma RevenueAddsUp(a: seq<Order>, b: seq<Order>)
    ensures TotalRevenue(a + b) == TotalRevenue(a) + TotalRevenue(b)
  {
    SumTotalAppend(a, b);
  }

  /** `orders.filter(o => o.status === s).length`. */
  function CountStatus(os: seq<Order>, s: string): nat {
    if os == [] then 0
    else CountStatus(os[..|os| - 1], s) + (if os[|os| - 1].status == s then 1 else 0)
  }

  function PendingOrders(os: seq<Order>): nat {
    CountStatus(os, "Pending")
  }

  function CompletedOrders(os: seq<Order>): nat {
    CountStatus(os, "Completed")
  }

  /** The count is the number of orders whose status is exactly the string. */
  lemma {:induction false} CountIsNumberOfMatches(os: seq<Order>, s: string)
    ensures CountStatus(os, s) == |set i | 0 <= i < |os| && os[i].status == s|
  {
    if os != [] {
      var n := |os| - 1;
      var init := os[..n];
      CountIsNumberOfMatches(init, s);
      var before := set i | 0 <= i < |init| && init[i].status == s;
      var now := set i | 0 <= i < |os| && os[i].status == s;
      var extra: set<int> := if os[n].status == s then {n} else {};
      forall i | i in now ensures i in before + extra {
        if i < n {
          assert init[i] == os[i];
        }
      }
      forall i | i in before + extra ensures i in now {
        if i in before {
          assert init[i] == os[i];
        }
      }
      assert now == before + extra;
      assert n !in before;
    }
  }

  /** Pending and completed are disjoint counts of the orders; the new lifecycle
      names and the other legacy ones are counted in neither. */
  lemma {:induction false} CountsAreExact(os: seq<Order>)
    ensures PendingOrders(os) + CompletedOrders(os) + CountStatus(os, "PLACED") + CountStatus(os, "COMPLETED") <= |os|
    ensures (forall i :: 0 <= i < |os| ==> os[i].status != "Pending" && os[i].status != "Completed") ==>
              PendingOrders(os) == 0 && CompletedOrders(os) == 0
  {
    if os != [] {
      CountsAreExact(os[..|os| - 1]);
      var init := os[..|os| - 1];
      assert forall i :: 0 <= i < |init| ==> init[i] == os[i];
    }
  }

  // ---------------------------------------------------------------------------
  // Revenue by category

  /** `item.category || 'Other'`. */
  function CategoryOf(it: Item): string {
    if it.category == "" then "Other" else it.category
  }

  /** `item.price * item.quantity`. */
  function LineRevenue(it: Item): int {
    it.price * it.quantity
  }

  /** `categoryMap` after visiting the items in order. */
  function CategoryMap(items: seq<Item>): map<string, int> {
    if items == [] then map[]
    else
      var m := CategoryMap(items[..|items| - 1]);
      var it := items[|items| - 1];
      var c := CategoryOf(it);
      m[c := (if c in m then m[c] else 0) + LineRevenue(it)]
  }

  /** The revenue of the items of category c. */
  function CategoryRevenue(items: seq<Item>, c: string): int {
    if items == [] then 0
    else
      var it := items[|items| - 1];
      CategoryRevenue(items[..|items| - 1], c) + (if CategoryOf(it) == c then LineRevenue(it) else 0)
  }

  /** The map has an entry for exactly the categories that occur, and each entry
      is the summed `price * quantity` of that category's items. */
  lemma {:induction false} CategoryMapIsPerCategorySum(items: seq<Item>)
    ensures forall c :: c in CategoryMap(items) <==> exists i :: 0 <= i < |items| && CategoryOf(items[i]) == c
    ensures forall c :: c in CategoryMap(items) ==> CategoryMap(items)[c] == CategoryRevenue(items, c)
  {
    if items != [] {
      var init := items[..|items| - 1];
      CategoryMapIsPerCategorySum(init);
      assert forall i :: 0 <= i < |init| ==> init[i] == items[i];
      forall c | c !in CategoryMap(init) ensures CategoryRevenue(init, c) == 0 {
        UnseenCategoryEarnsNothing(init, c);
      }
    }
  }

  lemma {:induction false} UnseenCategoryEarnsNothing(items: seq<Item>, c: string)
    requires forall i :: 0 <= i < |items| ==> CategoryOf(items[i]) != c
    ensures CategoryRevenue(items, c) == 0
  {
    if items != [] {
      UnseenCategoryEarnsNothing(items[..|items| - 1], c);
    }
  }

  /** Counting one more item continues the fold. */
  lemma CategoryMapSnoc(done: seq<Item>, it: Item)
    ensures var m := CategoryMap(done); var c := CategoryOf(it);
      CategoryMap(done + [it]) == m[c := (if c in m then m[c] else 0) + LineRevenue(it)]
  {
    assert (done + [it])[..|done|] == done;
  }

  /** The inner `forEach` of `categoryMap`: one order's items. */
  method AddCategories(categoryMap: map<string, int>, ghost seen: seq<Item>, items: seq<Item>)
    returns (next: map<string, int>)
    requires categoryMap == CategoryMap(seen)
    ensures next == CategoryMap(seen + items)
  {
    next := categoryMap;
    ghost var done := seen;
    assert seen + items[..0] == seen;
    for j := 0 to |items|
      invariant done == seen + items[..j]
      invariant next == CategoryMap(done)
    {
      var item := items[j];
      var cat := if item.category != "" then item.category else "Other";
      var current := if cat in next then next[cat] else 0;
      CategoryMapSnoc(done, item);
      next := next[cat := current + item.price * item.quantity];
      PrefixSnoc(seen, items, j);
      done := done + [item];
    }
    assert items[..|items|] == items;
  }

  /** The nested `forEach` that fills `categoryMap`. */
  method BuildCategoryMap(orders: seq<Order>) returns (categoryMap: map<string, int>)
    ensures categoryMap == CategoryMap(Flatten(orders))
  {
    categoryMap := map[];
    for i := 0 to |orders|
      invariant categoryMap == CategoryMap(Flatten(orders[..i]))
    {
      assert Flatten(orders[..i + 1]) == Flatten(orders[..i]) + orders[i].items by {
        assert orders[..i + 1][..i] == orders[..i];
      }
      categoryMap := AddCategories(categoryMap, Flatten(orders[..i]), orders[i].items);
    }
    assert orders[..|orders|] == orders;
  }

  /** The bar colour of a category: green for Veg, red for Non-Veg, gold for
      every other category. */
  function ChartColour(name: string): (colour: string)
    ensures colour == "#10B981" <==> name == "Veg"
    ensures colour == "#EF4444" <==> name == "Non-Veg"
    ensures colour == "#DC9D1D" <==> name != "Veg" && name != "Non-Veg"
  {
    if name == "Veg" then "#10B981" else if name == "Non-Veg" then "#EF4444" else "#DC9D1D"
  }

  /** The categories in `categoryMap` key order: insertion order, the order
      `Object.entries` lists them in. */
  function CategoryNames(items: seq<Item>): seq<string> {
    if items == [] then []
    else NoteName(CategoryNames(items[..|items| - 1]), CategoryOf(items[|items| - 1]))
  }

  /** The listed categories are the keys of the category map, each once. */
  lemma {:induction false} CategoryNamesAreKeys(items: seq<Item>)
    ensures forall c :: c in CategoryMap(items) <==> c in CategoryNames(items)
    ensures forall i, j :: 0 <= i < j < |CategoryNames(items)| ==> CategoryNames(items)[i] != CategoryNames(items)[j]
  {
    if items != [] {
      CategoryNamesAreKeys(items[..|items| - 1]);
    }
  }

  /** One bar of the revenue-by-category chart. */
  datatype ChartEntry = ChartEntry(name: string, revenue: int, colour: string)

  /** `Object.entries(m).map(...)` over the listed names: each name becomes a
      bar with its map value and its colour. */
  function Bars(names: seq<string>, m: map<string, int>): (r: seq<ChartEntry>)
    requires forall n :: n in names ==> n in m
    ensures |r| == |names|
    ensures forall k :: 0 <= k < |r| ==> r[k] == ChartEntry(names[k], m[names[k]], ChartColour(names[k]))
  {
    if names == [] then []
    else
      var n := names[|names| - 1];
      Bars(names[..|names| - 1], m) + [ChartEntry(n, m[n], ChartColour(n))]
  }

  /** `categoryChartData`: one bar per category with its revenue and colour. */
  function CategoryChartData(items: seq<Item>): seq<ChartEntry> {
    CategoryNamesAreKeys(items);
    Bars(CategoryNames(items), CategoryMap(items))
  }

  /** A category is listed exactly when some item falls in it. */
  lemma {:induction false} CategoryNamesOccur(items: seq<Item>)
    ensures forall i :: 0 <= i < |items| ==> CategoryOf(items[i]) in CategoryNames(items)
    ensures forall c :: c in CategoryNames(items) ==> exists i :: 0 <= i < |items| && CategoryOf(items[i]) == c
  {
    if items != [] {
      var init := items[..|items| - 1];
      CategoryNamesOccur(init);
      assert forall i :: 0 <= i < |init| ==> init[i] == items[i];
    }
  }

  /** Bar k is the k-th listed category, in its colour, with its revenue. */
  lemma ChartBarsAreSums(items: seq<Item>)
    ensures var r := CategoryChartData(items);
      forall k :: 0 <= k < |r| ==>
        && r[k].name == CategoryNames(items)[k]
        && r[k].revenue == CategoryRevenue(items, r[k].name)
        && r[k].colour == ChartColour(r[k].name)
  {
    CategoryNamesAreKeys(items);
    CategoryMapIsPerCategorySum(items);
  }

  /** Every category that occurs has a bar. */
  lemma ChartHasEveryCategory(items: seq<Item>)
    ensures var r := CategoryChartData(items);
      forall i :: 0 <= i < |items| ==> exists k :: 0 <= k < |r| && r[k].name == CategoryOf(items[i])
  {
    var r := CategoryChartData(items);
    var names := CategoryNames(items);
    ChartBarsAreSums(items);
    CategoryNamesOccur(items);
    forall i | 0 <= i < |items| ensures exists k :: 0 <= k < |r| && r[k].name == CategoryOf(items[i]) {
      var k :| 0 <= k < |names| && names[k] == CategoryOf(items[i]);
      assert r[k].name == names[k];
    }
  }

  /** Every bar is a category that occurs. */
  lemma ChartBarsOccur(items: seq<Item>)
    ensures var r := CategoryChartData(items);
      forall k :: 0 <= k < |r| ==> exists i :: 0 <= i < |items| && CategoryOf(items[i]) == r[k].name
  {
    var r := CategoryChartData(items);
    var names := CategoryNames(items);
    ChartBarsAreSums(items);
    CategoryNamesOccur(items);
    forall k | 0 <= k < |r| ensures exists i :: 0 <= i < |items| && CategoryOf(items[i]) == r[k].name {
      assert names[k] in names;
    }
  }

  /** The chart has a bar for exactly the categories that occur, none twice;
      each bar carries the summed revenue of its category and the colour the
      category is drawn in. */
  lemma ChartDataIsPerCategory(items: seq<Item>)
    ensures var r := CategoryChartData(items);
      && (forall k :: 0 <= k < |r| ==>
            r[k].revenue == CategoryRevenue(items, r[k].name) && r[k].colour == ChartColour(r[k].name))
      && (forall k, l :: 0 <= k < l < |r| ==> r[k].name != r[l].name)
      && (forall k :: 0 <= k < |r| ==> exists i :: 0 <= i < |items| && CategoryOf(items[i]) == r[k].name)
      && (forall i :: 0 <= i < |items| ==> exists k :: 0 <= k < |r| && r[k].name == CategoryOf(items[i]))
  {
    ChartBarsAreSums(items);
    CategoryNamesAreKeys(items);
    ChartBarsOccur(items);
    ChartHasEveryCategory(items);
  }

  // ---------------------------------------------------------------------------
  // Popular items

  /** An entry of `itemMap`. */
  datatype ItemStat = ItemStat(name: string, sales: int, revenue: int)

  /** `itemMap` after visiting the items in order. */
  function ItemMap(items: seq<Item>): map<string, ItemStat> {
    if items == [] then map[] else Tally(ItemMap(items[..|items| - 1]), items[|items| - 1])
  }

  /** One item counted into `itemMap`: its entry, created at zero when absent,
      gains the quantity as sales and the line total as revenue. */
  function Tally(m: map<string, ItemStat>, it: Item): (r: map<string, ItemStat>)
    ensures r.Keys == m.Keys + {it.name}
  {
    var e := if it.name in m then m[it.name] else ItemStat(it.name, 0, 0);
    m[it.name := e.(sales := e.sales + it.quantity, revenue := e.revenue + LineRevenue(it))]
  }

  /** Names in `itemMap` order with one more name seen. */
  function NoteName(ns: seq<string>, n: string): seq<string> {
    if n in ns then ns else ns + [n]
  }

  /** The keys of `itemMap` in insertion order, the order `Object.values` lists
      them in. */
  function Names(items: seq<Item>): seq<string> {
    if items == [] then []
    else
      NoteName(Names(items[..|items| - 1]), items[|items| - 1].name)
  }

  function SalesOf(items: seq<Item>, n: string): int {
    if items == [] then 0
    else
      var it := items[|items| - 1];
      SalesOf(items[..|items| - 1], n) + (if it.name == n then it.quantity else 0)
  }

  function RevenueOf(items: seq<Item>, n: string): int {
    if items == [] then 0
    else
      var it := items[|items| - 1];
      RevenueOf(items[..|items| - 1], n) + (if it.name == n then LineRevenue(it) else 0)
  }

  lemma {:induction false} UnseenNameSellsNothing(items: seq<Item>, n: string)
    requires forall i :: 0 <= i < |items| ==> items[i].name != n
    ensures SalesOf(items, n) == 0 && RevenueOf(items, n) == 0
  {
    if items != [] {
      UnseenNameSellsNothing(items[..|items| - 1], n);
    }
  }

  /** A name is listed exactly when some item carries it. */
  lemma {:induction false} NamesOccur(items: seq<Item>)
    ensures forall n :: n in Names(items) <==> exists i :: 0 <= i < |items| && items[i].name == n
  {
    if items != [] {
      var init := items[..|items| - 1];
      NamesOccur(init);
      assert forall i :: 0 <= i < |init| ==> init[i] == items[i];
    }
  }

  /** No name is listed twice. */
  lemma {:induction false} NamesDistinct(items: seq<Item>)
    ensures forall i, j :: 0 <= i < j < |Names(items)| ==> Names(items)[i] != Names(items)[j]
  {
    if items != [] {
      NamesDistinct(items[..|items| - 1]);
    }
  }

  /** Each entry sums the quantities and line totals of the items of its name. */
  lemma {:induction false} EntriesAreSums(items: seq<Item>)
    ensures forall n :: n in ItemMap(items) ==>
              ItemMap(items)[n] == ItemStat(n, SalesOf(items, n), RevenueOf(items, n))
  {
    if items != [] {
      var init := items[..|items| - 1];
      EntriesAreSums(init);
      var n := items[|items| - 1].name;
      if n !in ItemMap(init) {
        KeysAreNames(init);
        NamesOccur(init);
        UnseenNameSellsNothing(init, n);
      }
    }
  }

  /** Each item name has one entry, listed once in insertion order; its `sales`
      is the summed quantity and its `revenue` the summed `price * quantity`
      of the items of that name. */
  lemma ItemMapIsPerNameSum(items: seq<Item>)
    ensures forall n :: n in ItemMap(items) <==> n in Names(items)
    ensures forall n :: n in Names(items) <==> exists i :: 0 <= i < |items| && items[i].name == n
    ensures forall i, j :: 0 <= i < j < |Names(items)| ==> Names(items)[i] != Names(items)[j]
    ensures forall n :: n in ItemMap(items) ==>
              ItemMap(items)[n] == ItemStat(n, SalesOf(items, n), RevenueOf(items, n))
  {
    KeysAreNames(items);
    NamesOccur(items);
    NamesDistinct(items);
    EntriesAreSums(items);
  }

  /** Counting one more item continues both folds. */
  lemma ItemMapSnoc(done: seq<Item>, it: Item)
    ensures ItemMap(done + [it]) == Tally(ItemMap(done), it)
    ensures Names(done + [it]) == NoteName(Names(done), it.name)
  {
    assert (done + [it])[..|done|] == done;
  }

  /** The keys of `itemMap` are the names listed. */
  lemma {:induction false} KeysAreNames(items: seq<Item>)
    ensures forall n :: n in ItemMap(items) <==> n in Names(items)
  {
    if items != [] {
      KeysAreNames(items[..|items| - 1]);
    }
  }

  /** The body of the inner `forEach` of `itemMap`: create the entry at zero
      when the name is new, then add the quantity and the line total. */
  method CountItem(itemMap: map<string, ItemStat>, names: seq<string>, item: Item)
    returns (nextMap: map<string, ItemStat>, nextNames: seq<string>)
    requires item.name in itemMap <==> item.name in names
    ensures nextMap == Tally(itemMap, item) && nextNames == NoteName(names, item.name)
  {
    nextMap, nextNames := itemMap, names;
    if item.name !in nextMap {
      nextMap := nextMap[item.name := ItemStat(item.name, 0, 0)];
      nextNames := nextNames + [item.name];
    }
    var e := nextMap[item.name];
    nextMap := nextMap[item.name := e.(sales := e.sales + item.quantity, revenue := e.revenue + item.price * item.quantity)];
  }

  /** The inner `forEach` of `itemMap`: one order's items. `names` follows the
      order in which keys enter the map. */
  method AddItems(itemMap: map<string, ItemStat>, names: seq<string>, ghost seen: seq<Item>, items: seq<Item>)
    returns (nextMap: map<string, ItemStat>, nextNames: seq<string>)
    requires itemMap == ItemMap(seen) && names == Names(seen)
    ensures nextMap == ItemMap(seen + items) && nextNames == Names(seen + items)
  {
    nextMap, nextNames := itemMap, names;
    ghost var done := seen;
    assert seen + items[..0] == seen;
    for j := 0 to |items|
      invariant done == seen + items[..j]
      invariant nextMap == ItemMap(done) && nextNames == Names(done)
    {
      KeysAreNames(done);
      ItemMapSnoc(done, items[j]);
      nextMap, nextNames := CountItem(nextMap, nextNames, items[j]);
      PrefixSnoc(seen, items, j);
      done := done + [items[j]];
    }
    assert items[..|items|] == items;
  }

  /** The nested `forEach` that fills `itemMap`. */
  method BuildItemMap(orders: seq<Order>) returns (itemMap: map<string, ItemStat>, names: seq<string>)
    ensures itemMap == ItemMap(Flatten(orders)) && names == Names(Flatten(orders))
  {
    itemMap, names := map[], [];
    for i := 0 to |orders|
      invariant itemMap == ItemMap(Flatten(orders[..i])) && names == Names(Flatten(orders[..i]))
    {
      assert Flatten(orders[..i + 1]) == Flatten(orders[..i]) + orders[i].items by {
        assert orders[..i + 1][..i] == orders[..i];
      }
      itemMap, names := AddItems(itemMap, names, Flatten(orders[..i]), orders[i].items);
    }
    assert orders[..|orders|] == orders;
  }

  /** `Object.values(itemMap)`. */
  function Values(items: seq<Item>): (vs: seq<ItemStat>)
    ensures |vs| == |Names(items)|
    ensures forall i :: 0 <= i < |vs| ==>
              vs[i] == ItemStat(Names(items)[i], SalesOf(items, Names(items)[i]), RevenueOf(items, Names(items)[i]))
  {
    ItemMapIsPerNameSum(items);
    seq(|Names(items)|, i requires 0 <= i < |Names(items)| => ItemMap(items)[Names(items)[i]])
  }

  /** Stable insertion by `b.sales - a.sales`: in front of the first entry that
      sells no more. */
  function InsertBySales(v: ItemStat, s: seq<ItemStat>): seq<ItemStat> {
    if s == [] then [v]
    else if v.sales >= s[0].sales then [v] + s
    else [s[0]] + InsertBySales(v, s[1..])
  }

  function SortBySales(s: seq<ItemStat>): seq<ItemStat> {
    if s == [] then [] else InsertBySales(s[0], SortBySales(s[1..]))
  }

  predicate NonIncreasingSales(s: seq<ItemStat>) {
    forall i, j :: 0 <= i < j < |s| ==> s[i].sales >= s[j].sales
  }

  lemma {:induction false} InsertBySalesElements(v: ItemStat, s: seq<ItemStat>)
    ensures forall x :: x in InsertBySales(v, s) <==> x == v || x in s
    decreases |s|
  {
    if s != [] && v.sales < s[0].sales {
      InsertBySalesElements(v, s[1..]);
      assert s == [s[0]] + s[1..];
    }
  }

  lemma {:induction false} InsertBySalesPermutes(v: ItemStat, s: seq<ItemStat>)
    ensures multiset(InsertBySales(v, s)) == multiset(s) + multiset{v}
    decreases |s|
  {
    if s != [] && v.sales < s[0].sales {
      InsertBySalesPermutes(v, s[1..]);
      assert s == [s[0]] + s[1..];
    }
  }

  /** An entry selling at least as much as every entry of a sorted list may go in front. */
  lemma SalesCons(x: ItemStat, t: seq<ItemStat>)
    requires NonIncreasingSales(t)
    requires forall y :: y in t ==> x.sales >= y.sales
    ensures NonIncreasingSales([x] + t)
  {
    var r := [x] + t;
    forall i, j | 0 <= i < j < |r| ensures r[i].sales >= r[j].sales {
      assert r[j] == t[j - 1];
      if i > 0 { assert r[i] == t[i - 1]; }
    }
  }

  /** The head of a sorted list sells at least as much as the rest, which is sorted. */
  lemma SalesHead(s: seq<ItemStat>)
    requires s != [] && NonIncreasingSales(s)
    ensures NonIncreasingSales(s[1..])
    ensures forall y :: y in s[1..] ==> s[0].sales >= y.sales
  {
    forall y | y in s[1..] ensures s[0].sales >= y.sales {
      var k :| 0 <= k < |s[1..]| && s[1..][k] == y;
      assert s[k + 1] == y;
    }
  }

  lemma {:induction false} InsertBySalesSorted(v: ItemStat, s: seq<ItemStat>)
    requires NonIncreasingSales(s)
    ensures NonIncreasingSales(InsertBySales(v, s))
    decreases |s|
  {
    if s == [] {
      assert InsertBySales(v, s) == [v];
    } else {
      SalesHead(s);
      if v.sales >= s[0].sales {
        assert s == [s[0]] + s[1..];
        SalesCons(v, s);
      } else {
        InsertBySalesSorted(v, s[1..]);
        InsertBySalesElements(v, s[1..]);
        SalesCons(s[0], InsertBySales(v, s[1..]));
      }
    }
  }

  lemma InsertBySalesCorrect(v: ItemStat, s: seq<ItemStat>)
    requires NonIncreasingSales(s)
    ensures multiset(InsertBySales(v, s)) == multiset(s) + multiset{v}
    ensures NonIncreasingSales(InsertBySales(v, s))
  {
    InsertBySalesPermutes(v, s);
    InsertBySalesSorted(v, s);
  }

  lemma {:induction false} SortBySalesCorrect(s: seq<ItemStat>)
    ensures multiset(SortBySales(s)) == multiset(s)
    ensures NonIncreasingSales(SortBySales(s))
  {
    if s != [] {
      SortBySalesCorrect(s[1..]);
      InsertBySalesCorrect(s[0], SortBySales(s[1..]));
      assert s == [s[0]] + s[1..];
    }
  }

  /** `popularItems` before the random growth figure is attached. */
  function PopularItems(values: seq<ItemStat>): seq<ItemStat> {
    var sorted := SortBySales(values);
    if |sorted| <= 5 then sorted else sorted[..5]
  }

  /** A prefix of a list in non-increasing order holds the largest elements:
      whatever is left out sells no more than anything kept. */
  lemma PrefixHoldsBest(sorted: seq<ItemStat>, n: nat)
    requires NonIncreasingSales(sorted) && n <= |sorted|
    ensures forall v, t :: v in multiset(sorted) - multiset(sorted[..n]) && t in sorted[..n] ==> v.sales <= t.sales
  {
    MultisetAfterPrefix(sorted, n);
    PrefixDominates(sorted, n);
  }

  /** What a prefix leaves of a list's multiset is the multiset of the rest. */
  lemma MultisetAfterPrefix(s: seq<ItemStat>, n: nat)
    requires n <= |s|
    ensures multiset(s) - multiset(s[..n]) == multiset(s[n..])
    ensures multiset(s[..n]) <= multiset(s)
  {
    assert s == s[..n] + s[n..];
  }

  /** In a list in non-increasing order, every entry of a prefix sells at least
      as much as every entry after it. */
  lemma PrefixDominates(sorted: seq<ItemStat>, n: nat)
    requires NonIncreasingSales(sorted) && n <= |sorted|
    ensures forall v, t :: v in sorted[n..] && t in sorted[..n] ==> v.sales <= t.sales
  {
    forall v, t | v in sorted[n..] && t in sorted[..n] ensures v.sales <= t.sales {
      var k :| 0 <= k < |sorted[n..]| && sorted[n..][k] == v;
      var i :| 0 <= i < |sorted[..n]| && sorted[..n][i] == t;
      assert sorted[i] == t && sorted[n + k] == v;
    }
  }

  /** The first n entries of a sorted permutation of the values. */
  lemma TopOfSorted(values: seq<ItemStat>, sorted: seq<ItemStat>, n: nat)
    requires multiset(sorted) == multiset(values) && NonIncreasingSales(sorted) && n <= |sorted|
    ensures NonIncreasingSales(sorted[..n])
    ensures multiset(sorted[..n]) <= multiset(values)
    ensures forall v, t :: v in multiset(values) - multiset(sorted[..n]) && t in sorted[..n] ==> v.sales <= t.sales
  {
    PrefixHoldsBest(sorted, n);
    MultisetAfterPrefix(sorted, n);
  }

  /** At most five items, the best sellers, in non-increasing order of sales:
      every item left out sold no more than any item shown. */
  lemma TopFive(values: seq<ItemStat>)
    ensures var top := PopularItems(values);
      && |top| == (if |values| < 5 then |values| else 5)
      && NonIncreasingSales(top)
      && multiset(top) <= multiset(values)
      && forall v, t :: v in multiset(values) - multiset(top) && t in top ==> v.sales <= t.sales
  {
    var sorted := SortBySales(values);
    SortBySalesCorrect(values);
    assert |sorted| == |values| by {
      assert |sorted| == |multiset(sorted)|;
    }
    var n := if |sorted| <= 5 then |sorted| else 5;
    TopOfSorted(values, sorted, n);
    assert PopularItems(values) == sorted[..n];
  }

}
