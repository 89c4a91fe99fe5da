/** The one-off status migration of server/scripts/migrateOrderStatus.js: legacy
    status spellings are mapped onto the new lifecycle names and orders that
    have no `orderId` get one. The store query, the id generator's answers and
    whether each save succeeds are inputs. */
module MigrateStatus {
  import opened Wrappers
  import opened OrderModel

  /** `STATUS_MAP[s] || s`. */
  function MapStatus(s: string): string {
    if s == "Pending" then "PLACED"
    else if s == "Accepted" || s == "Preparing" || s == "Ready" then "ACCEPTED"
    else if s == "ChangeRequested" || s == "Updated" then "CHANGED"
    else if s == "Cancelled" then "CANCELLED"
    else if s == "Completed" then "COMPLETED"
    else s
  }

  /** The keys of `STATUS_MAP`. */
  const LegacyStatuses: set<string> :=
    {"Pending", "Accepted", "Preparing", "Ready", "ChangeRequested", "Updated", "Cancelled", "Completed"}

  /** The new lifecycle statuses of the schema enum. */
  const NewStatuses: set<string> := {"PLACED", "ACCEPTED", "CHANGED", "CANCELLED", "COMPLETED"}

  /** Every status the schema allows, new and legacy. */
  const SchemaStatuses: set<string> :=
    NewStatuses + {"Pending", "Accepted", "Preparing", "Ready", "ChangeRequested", "Updated"}

  /** Legacy statuses map into the new statuses; the kitchen states Preparing
      and Ready both become ACCEPTED; anything else passes through unchanged. */
  lemma MapStatusCases(s: string)
    ensures s in LegacyStatuses ==> MapStatus(s) in NewStatuses
    ensures s == "Preparing" || s == "Ready" ==> MapStatus(s) == "ACCEPTED"
    ensures s !in LegacyStatuses ==> MapStatus(s) == s
    ensures MapStatus(s) != s <==> s in LegacyStatuses
  {
  }

  /** Every status the schema allows ends up as a new status. */
  lemma SchemaStatusesEndNew(s: string)
    requires s in SchemaStatuses
    ensures MapStatus(s) in NewStatuses
  {
  }

  /** The new statuses are not keys, so mapping twice is mapping once. */
  lemma MapStatusIdempotent(s: string)
    ensures MapStatus(MapStatus(s)) == MapStatus(s)
  {
  }

  /** The selection of the script's query: the orders without an `orderId`. */
  function NeedsMigration(os: seq<Order>): (r: seq<Order>)
    ensures forall o :: o in r <==> o in os && o.orderId.None?
  {
    if os == [] then []
    else (if os[0].orderId.None? then [os[0]] else []) + NeedsMigration(os[1..])
  }

  /** One order as the loop body rewrites it before saving: an id when it has
      none, and the mapped status. */
  function MigrateOne(o: Order, newId: string): (m: Order)
    ensures m.orderId.Some?
    ensures o.orderId.Some? ==> m.orderId == o.orderId
    ensures o.orderId.None? ==> m.orderId == Some(newId)
    ensures m.status == MapStatus(o.status)
    ensures m.(orderId := o.orderId, status := o.status) == o
  {
    o.(orderId := if o.orderId.None? then Some(newId) else o.orderId,
       status := MapStatus(o.status))
  }

  /** The orders whose save succeeded, as the loop rewrote them, in order. */
  function Saved(os: seq<Order>, newIds: seq<string>, saves: seq<bool>): seq<Order>
    requires |os| == |newIds| == |saves|
  {
    if os == [] then []
    else
      var rest := Saved(os[..|os| - 1], newIds[..|os| - 1], saves[..|os| - 1]);
      if saves[|os| - 1] then rest + [MigrateOne(os[|os| - 1], newIds[|os| - 1])] else rest
  }

  /** The number of successful saves. */
  function Successes(saves: seq<bool>): nat {
    if saves == [] then 0 else Successes(saves[..|saves| - 1]) + (if saves[|saves| - 1] then 1 else 0)
  }

  lemma {:induction false} SavedCount(os: seq<Order>, newIds: seq<string>, saves: seq<bool>)
    requires |os| == |newIds| == |saves|
    ensures |Saved(os, newIds, saves)| == Successes(saves) <= |saves|
  {
    if os != [] {
      SavedCount(os[..|os| - 1], newIds[..|os| - 1], saves[..|os| - 1]);
    }
  }

  /** After a migration every saved order has an id and a status the migration
      would leave alone, so a second run neither selects nor changes it. */
  lemma {:induction false} MigrationIsFinal(os: seq<Order>, newIds: seq<string>, saves: seq<bool>)
    requires |os| == |newIds| == |saves|
    ensures NeedsMigration(Saved(os, newIds, saves)) == []
    ensures forall m :: m in Saved(os, newIds, saves) ==> MapStatus(m.status) == m.status
  {
    var r := Saved(os, newIds, saves);
    SavedAreMigrated(os, newIds, saves);
    if NeedsMigration(r) != [] {
      assert NeedsMigration(r)[0] in NeedsMigration(r);
      assert false;
    }
  }

  lemma {:induction false} SavedAreMigrated(os: seq<Order>, newIds: seq<string>, saves: seq<bool>)
    requires |os| == |newIds| == |saves|
    ensures forall m :: m in Saved(os, newIds, saves) ==> m.orderId.Some? && MapStatus(m.status) == m.status
  {
    if os != [] {
      var n := |os| - 1;
      SavedAreMigrated(os[..n], newIds[..n], saves[..n]);
      MapStatusIdempotent(os[n].status);
    }
  }

  /** The loop of `migrateOrders` over the selected orders: each order gets an id
      if it lacks one and its mapped status, and counts as migrated when its save
      succeeds and as an error otherwise. */
  method MigrateOrders(ordersToMigrate: seq<Order>, newIds: seq<string>, saves: seq<bool>)
    returns (saved: seq<Order>, migratedCount: nat, errorCount: nat)
    requires |ordersToMigrate| == |newIds| == |saves|
    ensures saved == Saved(ordersToMigrate, newIds, saves)
    ensures migratedCount == Successes(saves) && migratedCount + errorCount == |ordersToMigrate|
  {
    saved := [];
    migratedCount := 0;
    errorCount := 0;
    if |ordersToMigrate| == 0 {
      return;
    }
    for i := 0 to |ordersToMigrate|
      invariant saved == Saved(ordersToMigrate[..i], newIds[..i], saves[..i])
      invariant migratedCount == Successes(saves[..i])
      invariant migratedCount + errorCount == i
    {
      var order := ordersToMigrate[i];
      if order.orderId.None? {
        order := order.(orderId := Some(newIds[i]));
      }
      var oldStatus := order.status;
      var newStatus := MapStatus(oldStatus);
      if oldStatus != newStatus {
        order := order.(status := newStatus);
      }
      assert ordersToMigrate[..i + 1][..i] == ordersToMigrate[..i];
      assert newIds[..i + 1][..i] == newIds[..i];
      assert saves[..i + 1][..i] == saves[..i];
      if saves[i] {
        saved := saved + [order];
        migratedCount := migratedCount + 1;
      } else {
        errorCount := errorCount + 1;
      }
    }
    assert ordersToMigrate[..|ordersToMigrate|] == ordersToMigrate;
    assert newIds[..|ordersToMigrate|] == newIds;
    assert saves[..|ordersToMigrate|] == saves;
  }
}
