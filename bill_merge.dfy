/** The item list of the session bill (`generateSessionPdf` in
    AdminDashbord/src/pages/Orders.jsx): the items of all orders of a session,
    with lines of equal name and equal customizations merged into one whose
    quantity is the sum. The PDF layout is not modelled. */
module BillMerge {
  import opened Wrappers
  import opened OrderModel

  /** What makes two lines the same bill line: the name and the customizations
      (compared through `JSON.stringify`, which on lists of strings is list
      equality). */
  type Key = (string, seq<string>)

  function KeyOf(it: Item): Key {
    (it.name, it.customizations)
  }

  /** The keys occurring in a list of lines. */
  function Keys(s: seq<Item>): set<Key> {
    set i | 0 <= i < |s| :: KeyOf(s[i])
  }

  /** `allItems.find(...)`: the first line with the key, as an index. */
  function Find(acc: seq<Item>, k: Key): (r: Option<nat>)
    ensures r.Some? ==> r.value < |acc| && KeyOf(acc[r.value]) == k
    ensures r.Some? ==> forall j :: 0 <= j < r.value ==> KeyOf(acc[j]) != k
    ensures r.None? ==> k !in Keys(acc)
  {
    if acc == [] then None
    else if KeyOf(acc[0]) == k then Some(0)
    else match Find(acc[1..], k)
      case None => (assert forall j :: 1 <= j < |acc| ==> acc[j] == acc[1..][j - 1]; None)
      case Some(j) => Some(j + 1)
  }

  /** One step of the merge: add the quantity to the existing line, or append a
      copy of the item. */
  function Merge(acc: seq<Item>, it: Item): seq<Item> {
    match Find(acc, KeyOf(it))
    case Some(j) => acc[j := acc[j].(quantity := acc[j].quantity + it.quantity)]
    case None => acc + [it]
  }

  /** The merged lines of a list of items, folding from the first item. */
  function Merged(items: seq<Item>): seq<Item> {
    if items == [] then [] else Merge(Merged(items[..|items| - 1]), items[|items| - 1])
  }

  /** The summed quantity of the items with key k. */
  function QuantityOf(items: seq<Item>, k: Key): int {
    if items == [] then 0
    else QuantityOf(items[..|items| - 1], k) + (if KeyOf(items[|items| - 1]) == k then items[|items| - 1].quantity else 0)
  }

  function TotalQuantity(items: seq<Item>): int {
    if items == [] then 0 else TotalQuantity(items[..|items| - 1]) + items[|items| - 1].quantity
  }

  /** The index of the first item with key k. */
  function FirstIndex(items: seq<Item>, k: Key): (r: nat)
    requires k in Keys(items)
    ensures r < |items|
  {
    var init := items[..|items| - 1];
    if k in Keys(init) then FirstIndex(init, k) else |items| - 1
  }

  /** An item with its quantity blanked: the fields the merge copies from the
      first occurrence (item id, price, category). */
  function Base(it: Item): Item {
    it.(quantity := 0)
  }

  /** No two lines share a key. */
  ghost predicate DistinctKeys(m: seq<Item>) {
    forall i, j :: 0 <= i < j < |m| ==> KeyOf(m[i]) != KeyOf(m[j])
  }

  /** Each line's quantity is the sum over the items with its key. */
  ghost predicate QuantitiesSummed(items: seq<Item>, m: seq<Item>) {
    forall i :: 0 <= i < |m| ==> m[i].quantity == QuantityOf(items, KeyOf(m[i]))
  }

  /** Each line is, but for its quantity, the first item with its key. */
  ghost predicate FirstFieldsKept(items: seq<Item>, m: seq<Item>) {
    forall i :: 0 <= i < |m| ==>
      (KeyOf(m[i]) in Keys(items) && Base(m[i]) == Base(items[FirstIndex(items, KeyOf(m[i]))]))
  }

  /** The lines are in the order of the first occurrences of their keys. */
  ghost predicate FirstOccurrenceOrder(items: seq<Item>, m: seq<Item>) {
    forall i, j :: 0 <= i < j < |m| ==> AppearsBefore(items, m[i], m[j])
  }

  /** Both lines' keys occur in the items, a's first. */
  ghost predicate AppearsBefore(items: seq<Item>, a: Item, b: Item) {
    KeyOf(a) in Keys(items) && KeyOf(b) in Keys(items) &&
    FirstIndex(items, KeyOf(a)) < FirstIndex(items, KeyOf(b))
  }

  /** What the merged list promises about the items it came from. */
  ghost predicate MergedFrom(items: seq<Item>, m: seq<Item>) {
    && DistinctKeys(m)
    && Keys(m) == Keys(items)
    && QuantitiesSummed(items, m)
    && FirstFieldsKept(items, m)
    && FirstOccurrenceOrder(items, m)
  }

  lemma KeyIn(s: seq<Item>, i: nat)
    requires i < |s|
    ensures KeyOf(s[i]) in Keys(s)
  {
  }

  lemma KeysAppend(s: seq<Item>, it: Item)
    ensures Keys(s + [it]) == Keys(s) + {KeyOf(it)}
  {
    assert forall i :: 0 <= i < |s| ==> (s + [it])[i] == s[i];
    assert (s + [it])[|s|] == it;
  }

  lemma KeysUpdate(s: seq<Item>, j: nat, q: int)
    requires j < |s|
    ensures Keys(s[j := s[j].(quantity := q)]) == Keys(s)
  {
    var t := s[j := s[j].(quantity := q)];
    assert forall i :: 0 <= i < |s| ==> KeyOf(t[i]) == KeyOf(s[i]);
  }

  lemma {:induction false} QuantityOfUnseen(items: seq<Item>, k: Key)
    requires k !in Keys(items)
    ensures QuantityOf(items, k) == 0
  {
    if items != [] {
      var init := items[..|items| - 1];
      assert items == init + [items[|items| - 1]];
      KeysAppend(init, items[|items| - 1]);
      QuantityOfUnseen(init, k);
    }
  }

  /** Appending an item leaves the first occurrence of every earlier key. */
  lemma FirstIndexAppend(items: seq<Item>, it: Item, k: Key)
    requires k in Keys(items + [it])
    ensures k in Keys(items) ==> FirstIndex(items + [it], k) == FirstIndex(items, k)
    ensures k !in Keys(items) ==> FirstIndex(items + [it], k) == |items|
  {
    assert (items + [it])[..|items + [it]| - 1] == items;
  }

  lemma StepDistinctKeys(m: seq<Item>, it: Item)
    requires DistinctKeys(m)
    ensures DistinctKeys(Merge(m, it))
  {
    match Find(m, KeyOf(it))
    case Some(j) =>
      var m' := Merge(m, it);
      assert forall i :: 0 <= i < |m| ==> KeyOf(m'[i]) == KeyOf(m[i]);
    case None =>
      var m' := m + [it];
      forall i, j | 0 <= i < j < |m'| ensures KeyOf(m'[i]) != KeyOf(m'[j]) {
        if j == |m| {
          KeyIn(m, i);
        }
      }
  }

  lemma StepKeys(items: seq<Item>, m: seq<Item>, it: Item)
    requires Keys(m) == Keys(items)
    ensures Keys(Merge(m, it)) == Keys(items + [it])
  {
    KeysAppend(items, it);
    match Find(m, KeyOf(it))
    case Some(j) =>
      KeysUpdate(m, j, m[j].quantity + it.quantity);
      KeyIn(m, j);
    case None =>
      KeysAppend(m, it);
  }

  lemma StepQuantities(items: seq<Item>, m: seq<Item>, it: Item)
    requires DistinctKeys(m) && Keys(m) == Keys(items) && QuantitiesSummed(items, m)
    ensures QuantitiesSummed(items + [it], Merge(m, it))
  {
    var all := items + [it];
    assert all[..|all| - 1] == items && all[|all| - 1] == it;
    var m' := Merge(m, it);
    match Find(m, KeyOf(it))
    case Some(j) =>
      forall i | 0 <= i < |m'| ensures m'[i].quantity == QuantityOf(all, KeyOf(m'[i])) {
        if i != j {
          assert KeyOf(m[i]) != KeyOf(m[j]);
        }
      }
    case None =>
      forall i | 0 <= i < |m'| ensures m'[i].quantity == QuantityOf(all, KeyOf(m'[i])) {
        if i == |m| {
          QuantityOfUnseen(items, KeyOf(it));
        } else {
          assert m'[i] == m[i];
          KeyIn(m, i);
        }
      }
  }

  lemma StepFirstFields(items: seq<Item>, m: seq<Item>, it: Item)
    requires Keys(m) == Keys(items) && FirstFieldsKept(items, m)
    ensures FirstFieldsKept(items + [it], Merge(m, it))
  {
    var all := items + [it];
    KeysAppend(items, it);
    var m' := Merge(m, it);
    forall i | 0 <= i < |m'|
      ensures KeyOf(m'[i]) in Keys(all) && Base(m'[i]) == Base(all[FirstIndex(all, KeyOf(m'[i]))])
    {
      if i < |m| && (m'[i] == m[i] || (KeyOf(m'[i]) == KeyOf(m[i]) && Base(m'[i]) == Base(m[i]))) {
        var k := KeyOf(m[i]);
        FirstIndexAppend(items, it, k);
        assert all[FirstIndex(items, k)] == items[FirstIndex(items, k)];
      } else {
        assert Find(m, KeyOf(it)).None? && i == |m| && m'[i] == it;
        FirstIndexAppend(items, it, KeyOf(it));
        assert all[|items|] == it;
      }
    }
  }

  /** Two lines of the merged list after one more item are still in order of
      their keys' first appearance. */
  lemma StepOrderedPair(items: seq<Item>, m: seq<Item>, it: Item, i: nat, j: nat)
    requires Keys(m) == Keys(items) && FirstOccurrenceOrder(items, m)
    requires i < j < |Merge(m, it)|
    ensures AppearsBefore(items + [it], Merge(m, it)[i], Merge(m, it)[j])
  {
    var m' := Merge(m, it);
    MergeCases(m, it);
    KeysAppend(items, it);
    KeyIn(m, i);
    FirstIndexAppend(items, it, KeyOf(m[i]));
    assert KeyOf(m'[i]) == KeyOf(m[i]);
    if j < |m| {
      KeyIn(m, j);
      FirstIndexAppend(items, it, KeyOf(m[j]));
      assert KeyOf(m'[j]) == KeyOf(m[j]);
    } else {
      FirstIndexAppend(items, it, KeyOf(it));
    }
  }

  lemma StepFirstOccurrenceOrder(items: seq<Item>, m: seq<Item>, it: Item)
    requires Keys(m) == Keys(items) && FirstOccurrenceOrder(items, m)
    ensures FirstOccurrenceOrder(items + [it], Merge(m, it))
  {
    forall i, j | 0 <= i < j < |Merge(m, it)|
      ensures AppearsBefore(items + [it], Merge(m, it)[i], Merge(m, it)[j])
    {
      StepOrderedPair(items, m, it, i, j);
    }
  }

  /** The merged bill lines are exactly the distinct lines of the items: one per
      key, in order of first appearance, carrying the first item's price and
      the summed quantity. */
  lemma {:induction false} MergedIsCorrect(items: seq<Item>)
    ensures MergedFrom(items, Merged(items))
  {
    if items != [] {
      var init := items[..|items| - 1];
      var it := items[|items| - 1];
      assert init + [it] == items;
      MergedIsCorrect(init);
      var m := Merged(init);
      StepDistinctKeys(m, it);
      StepKeys(init, m, it);
      StepQuantities(init, m, it);
      StepFirstFields(init, m, it);
      StepFirstOccurrenceOrder(init, m, it);
    }
  }

  lemma {:induction false} TotalQuantityUpdate(s: seq<Item>, j: nat, q: int)
    requires j < |s|
    ensures TotalQuantity(s[j := s[j].(quantity := q)]) == TotalQuantity(s) - s[j].quantity + q
  {
    var t := s[j := s[j].(quantity := q)];
    if j < |s| - 1 {
      assert t[..|t| - 1] == s[..|s| - 1][j := s[j].(quantity := q)];
      TotalQuantityUpdate(s[..|s| - 1], j, q);
    } else {
      assert t[..|t| - 1] == s[..|s| - 1];
    }
  }

  /** Merging never loses or invents quantity. */
  lemma {:induction false} MergedKeepsQuantity(items: seq<Item>)
    ensures TotalQuantity(Merged(items)) == TotalQuantity(items)
  {
    if items != [] {
      var init := items[..|items| - 1];
      var it := items[|items| - 1];
      MergedKeepsQuantity(init);
      StepKeepsQuantity(Merged(init), it);
    }
  }

  /** One merge step adds exactly the item's quantity. */
  lemma StepKeepsQuantity(m: seq<Item>, it: Item)
    ensures TotalQuantity(Merge(m, it)) == TotalQuantity(m) + it.quantity
  {
    MergeCases(m, it);
    match Find(m, KeyOf(it))
    case Some(j) =>
      TotalQuantityUpdate(m, j, m[j].quantity + it.quantity);
    case None =>
      TotalQuantitySnoc(m, it);
  }

  lemma TotalQuantitySnoc(s: seq<Item>, it: Item)
    ensures TotalQuantity(s + [it]) == TotalQuantity(s) + it.quantity
  {
    assert (s + [it])[..|s|] == s;
  }

  /** Merging one more item continues the fold. */
  lemma MergedSnoc(done: seq<Item>, it: Item)
    ensures Merged(done + [it]) == Merge(Merged(done), it)
  {
    assert (done + [it])[..|done|] == done;
  }

  /** The two ways a step of the merge goes: the line found is updated, or the item appended. */
  lemma MergeCases(acc: seq<Item>, it: Item)
    ensures Find(acc, KeyOf(it)).Some? ==>
      var e := Find(acc, KeyOf(it)).value;
      Merge(acc, it) == acc[e := acc[e].(quantity := acc[e].quantity + it.quantity)]
    ensures Find(acc, KeyOf(it)).None? ==> Merge(acc, it) == acc + [it]
  {
  }

  /** The body of the inner `forEach`: find the line with the item's name and
      customizations and add the quantity to it, or push a copy of the item. */
  method MergeInto(allItems: seq<Item>, item: Item) returns (merged: seq<Item>)
    ensures merged == Merge(allItems, item)
  {
    MergeCases(allItems, item);
    var existing := Find(allItems, KeyOf(item));
    if existing.Some? {
      var e := existing.value;
      merged := allItems[e := allItems[e].(quantity := allItems[e].quantity + item.quantity)];
    } else {
      merged := allItems + [item];
    }
  }

  /** The inner `forEach` of the bill's collection loop: one order's items
      merged into the lines collected so far. */
  method MergeItems(allItems: seq<Item>, ghost seen: seq<Item>, items: seq<Item>) returns (merged: seq<Item>)
    requires allItems == Merged(seen)
    ensures merged == Merged(seen + items)
  {
    merged := allItems;
    ghost var done := seen;
    assert seen + items[..0] == seen;
    for j := 0 to |items|
      invariant done == seen + items[..j]
      invariant merged == Merged(done)
    {
      MergedSnoc(done, items[j]);
      merged := MergeInto(merged, items[j]);
      PrefixSnoc(seen, items, j);
      done := done + [items[j]];
    }
    assert items[..|items|] == items;
  }

  /** The bill's collection loop: over the orders, over their items, merging
      each item into `allItems`. */
  method CollectBillItems(orders: seq<Order>) returns (allItems: seq<Item>)
    ensures allItems == Merged(Flatten(orders))
  {
    allItems := [];
    for i := 0 to |orders|
      invariant allItems == Merged(Flatten(orders[..i]))
    {
      assert Flatten(orders[..i + 1]) == Flatten(orders[..i]) + orders[i].items by {
        assert orders[..i + 1][..i] == orders[..i];
      }
      allItems := MergeItems(allItems, Flatten(orders[..i]), orders[i].items);
    }
    assert orders[..|orders|] == orders;
  }

  /** The bill lists each distinct item of the session once, in the order of first
      appearance, with the first item's price and the summed quantity, and the
      bill's total quantity is the session's. */
  lemma BillOfSession(orders: seq<Order>)
    ensures MergedFrom(Flatten(orders), Merged(Flatten(orders)))
    ensures TotalQuantity(Merged(Flatten(orders))) == TotalQuantity(Flatten(orders))
  {
    MergedIsCorrect(Flatten(orders));
    MergedKeepsQuantity(Flatten(orders));
  }
}
