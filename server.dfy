/** The in-memory state of backend/server.js and its request handlers: the
    `orders` Map (kept as a map plus the Map's key insertion order, which is
    the order `orders.values()` yields) and `orderCounter`. Each handler
    method changes the fields exactly as the matching function of module
    Orders decides; a notification is returned as a value and never feeds
    back into the state. */
module Server {
  import opened Base
  import opened Orders
  import Listing
  import Csv

  /** The e-mails the handlers send to the admin address. */
  datatype Notice =
    | NewOrderAdmin(order: Order)
    | PaymentConfirmed(order: Order)
    | StatusUpdate(order: Order, oldStatus: string)

  predicate Distinct(keys: seq<string>) {
    forall i, j :: 0 <= i < j < |keys| ==> keys[i] != keys[j]
  }

  /** `Array.from(orders.values())`: the records in key insertion order. */
  function Values(keys: seq<string>, orders: map<string, Order>): (vs: seq<Order>)
    requires forall k :: k in keys ==> k in orders
    ensures |vs| == |keys|
    ensures forall i :: 0 <= i < |keys| ==> vs[i] == orders[keys[i]]
  {
    seq(|keys|, i requires 0 <= i < |keys| => orders[keys[i]])
  }

  /** The key order after `orders.delete(k)`. */
  function RemoveKey(keys: seq<string>, k: string): (r: seq<string>)
    ensures forall x :: x in r <==> x in keys && x != k
    ensures Distinct(keys) ==> Distinct(r)
    ensures k !in keys ==> r == keys
  {
    if keys == [] then []
    else
      assert Distinct(keys) ==> keys[0] !in keys[1..] && Distinct(keys[1..]) by {
        if Distinct(keys) {
          DistinctTail(keys);
        }
      }
      var rest := RemoveKey(keys[1..], k);
      if keys[0] == k then rest
      else
        assert k !in keys ==> [keys[0]] + keys[1..] == keys;
        [keys[0]] + rest
  }

  lemma DistinctTail(keys: seq<string>)
    requires keys != [] && Distinct(keys)
    ensures keys[0] !in keys[1..] && Distinct(keys[1..])
  {
    forall j | 0 <= j < |keys[1..]| ensures keys[1..][j] != keys[0] {
      assert keys[1..][j] == keys[j + 1];
    }
  }

  /** Deleting works piece by piece. */
  lemma {:induction false} RemoveKeyAppend(a: seq<string>, b: seq<string>, k: string)
    ensures RemoveKey(a + b, k) == RemoveKey(a, k) + RemoveKey(b, k)
  {
    if a == [] {
      assert a + b == b;
    } else {
      assert (a + b)[1..] == a[1..] + b;
      RemoveKeyAppend(a[1..], b, k);
    }
  }

  /** Deleting the key at position `p` leaves the other keys in the order
      they had, as `Map.prototype.delete` does. */
  lemma RemoveKeyAt(keys: seq<string>, p: nat)
    requires Distinct(keys) && p < |keys|
    ensures RemoveKey(keys, keys[p]) == keys[..p] + keys[p + 1..]
  {
    DistinctAt(keys, p);
    RemoveKeySplice(keys[..p], keys[p], keys[p + 1..]);
  }

  lemma DistinctAt(keys: seq<string>, p: nat)
    requires Distinct(keys) && p < |keys|
    ensures keys == keys[..p] + [keys[p]] + keys[p + 1..]
    ensures keys[p] !in keys[..p] && keys[p] !in keys[p + 1..]
  {
    var k, before, after := keys[p], keys[..p], keys[p + 1..];
    assert keys == before + [k] + after;
    forall i | 0 <= i < |before| ensures before[i] != k {
      assert before[i] == keys[i];
    }
    forall i | 0 <= i < |after| ensures after[i] != k {
      assert after[i] == keys[p + 1 + i];
    }
  }

  lemma RemoveKeySplice(before: seq<string>, k: string, after: seq<string>)
    requires k !in before && k !in after
    ensures RemoveKey(before + [k] + after, k) == before + after
  {
    var front := before + [k];
    RemoveKeyAppend(front, after, k);
    RemoveKeyAppend(before, [k], k);
    assert RemoveKey([k], k) == [];
    assert RemoveKey(front, k) == before;
    assert RemoveKey(after, k) == after;
  }

  /** The map `loadOrders` builds by calling `orders.set(key, value)` for
      each stored entry in turn. */
  function EntriesMap(entries: seq<(string, Order)>): (m: map<string, Order>)
    ensures forall k :: k in m <==> exists i :: 0 <= i < |entries| && entries[i].0 == k
  {
    if entries == [] then map[]
    else
      var last := entries[|entries| - 1];
      EntriesMap(entries[..|entries| - 1])[last.0 := last.1]
  }

  /** The key insertion order those `set` calls leave: a key already present
      keeps its first position. */
  function EntryKeys(entries: seq<(string, Order)>): (keys: seq<string>)
    ensures Distinct(keys)
    ensures forall k :: k in keys <==> k in EntriesMap(entries)
  {
    if entries == [] then []
    else
      var ks := EntryKeys(entries[..|entries| - 1]);
      var k := entries[|entries| - 1].0;
      if k in ks then ks else ks + [k]
  }

  /** `Object.fromEntries(orders)`: what the save and backup paths write. */
  function SnapshotEntries(keys: seq<string>, orders: map<string, Order>): (es: seq<(string, Order)>)
    requires forall k :: k in keys ==> k in orders
    ensures |es| == |keys|
    ensures forall i :: 0 <= i < |keys| ==> es[i] == (keys[i], orders[keys[i]])
  {
    seq(|keys|, i requires 0 <= i < |keys| => (keys[i], orders[keys[i]]))
  }

  lemma {:induction false} SnapshotReloadsPrefix(keys: seq<string>, orders: map<string, Order>)
    requires Distinct(keys) && forall k :: k in keys ==> k in orders
    ensures EntriesMap(SnapshotEntries(keys, orders)) == map k | k in keys :: orders[k]
    ensures EntryKeys(SnapshotEntries(keys, orders)) == keys
  {
    if keys != [] {
      var n := |keys|;
      var init, last := keys[..n - 1], keys[n - 1];
      var es := SnapshotEntries(keys, orders);
      assert es[..n - 1] == SnapshotEntries(init, orders);
      assert es[n - 1] == (last, orders[last]);
      SnapshotReloadsPrefix(init, orders);
      assert last !in init;
      assert keys == init + [last];
      assert EntryKeys(es) == EntryKeys(es[..n - 1]) + [last];
      LastKeyExtendsMap(init, last, orders);
    }
  }

  lemma LastKeyExtendsMap(init: seq<string>, last: string, orders: map<string, Order>)
    requires (forall k :: k in init ==> k in orders) && last in orders
    ensures (map k | k in init :: orders[k])[last := orders[last]] == map k | k in init + [last] :: orders[k]
  {
  }

  /** Saving the state and loading it again restores the same map, the
      same key order and the same counter. */
  lemma SnapshotRoundTrip(keys: seq<string>, orders: map<string, Order>, counter: nat)
    requires Distinct(keys) && (forall k :: k in keys <==> k in orders) && counter >= 1
    ensures EntriesMap(SnapshotEntries(keys, orders)) == orders
    ensures EntryKeys(SnapshotEntries(keys, orders)) == keys
    ensures CounterOnLoad(Some(counter)) == counter
  {
    SnapshotReloadsPrefix(keys, orders);
    assert (map k | k in keys :: orders[k]) == orders;
  }

  class OrderBook {
    var orders: map<string, Order>
    var keys: seq<string>
    var orderCounter: nat
    /** The counter values handed out since the process started. */
    ghost var issued: seq<nat>

    ghost predicate Valid()
      reads this
    {
      && orderCounter >= 1
      && Distinct(keys)
      && (forall k :: k in keys <==> k in orders)
      && (forall i, j :: 0 <= i < j < |issued| ==> issued[i] < issued[j])
      && (forall i :: 0 <= i < |issued| ==> issued[i] < orderCounter)
    }

    /** startServer: loadOrders replays the stored entries into an empty
        Map and loadCounter applies the counter default. A missing or
        unreadable orders file is an empty `entries`. */
    constructor Load(entries: seq<(string, Order)>, storedCounter: Option<nat>)
      ensures Valid()
      ensures orders == EntriesMap(entries) && keys == EntryKeys(entries)
      ensures orderCounter == CounterOnLoad(storedCounter) && issued == []
    {
      var m: map<string, Order> := map[];
      var ks: seq<string> := [];
      var i := 0;
      while i < |entries|
        invariant 0 <= i <= |entries|
        invariant m == EntriesMap(entries[..i]) && ks == EntryKeys(entries[..i])
      {
        assert entries[..i + 1][..i] == entries[..i];
        var (key, value) := entries[i];
        if key !in m {
          ks := ks + [key];
        }
        m := m[key := value];
        i := i + 1;
      }
      assert entries[..i] == entries;
      orders := m;
      keys := ks;
      orderCounter := CounterOnLoad(storedCounter);
      issued := [];
    }

    /** POST /api/create-order. */
    method CreateOrder(input: CreateInput, now: nat, businessNumber: Option<string>)
      returns (r: Result<Order, Error>, notice: Option<Notice>)
      requires Valid()
      modifies this
      ensures Valid()
      ensures r == Create(old(orderCounter), input, now, businessNumber)
      ensures r.Failure? ==>
        && orders == old(orders) && keys == old(keys) && orderCounter == old(orderCounter)
        && issued == old(issued) && notice == None
      ensures r.Success? ==>
        && orderCounter == old(orderCounter) + 1
        && issued == old(issued) + [old(orderCounter)]
        && orders == old(orders)[r.value.id := r.value]
        && keys == (if r.value.id in old(orders) then old(keys) else old(keys) + [r.value.id])
        && notice == Some(NewOrderAdmin(r.value))
    {
      r := Create(orderCounter, input, now, businessNumber);
      if r.Failure? {
        return r, None;
      }
      Store(r.value);
      notice := Some(NewOrderAdmin(r.value));
    }

    /** The `orderCounter++` and `orders.set(orderId, order)` of
        create-order. */
    method Store(order: Order)
      requires Valid()
      modifies this
      ensures Valid()
      ensures orderCounter == old(orderCounter) + 1 && issued == old(issued) + [old(orderCounter)]
      ensures orders == old(orders)[order.id := order]
      ensures keys == if order.id in old(orders) then old(keys) else old(keys) + [order.id]
    {
      NewKeyKeepsKeysValid(keys, orders, order.id, order);
      IssueNext(issued, orderCounter);
      keys := if order.id in orders then keys else keys + [order.id];
      orders := orders[order.id := order];
      issued := issued + [orderCounter];
      orderCounter := orderCounter + 1;
    }

    /** POST /api/confirm-payment/:orderId; `code` is "" when the body has
        no M-Pesa code. */
    method ConfirmPayment(id: string, code: string, now: nat)
      returns (r: Result<Order, Error>, notice: Option<Notice>)
      requires Valid()
      modifies this
      ensures Valid()
      ensures r == Confirm(old(orders), id, code, now)
      ensures orders == if r.Success? then old(orders)[id := r.value] else old(orders)
      ensures keys == old(keys) && orderCounter == old(orderCounter) && issued == old(issued)
      ensures notice == if r.Success? then Some(PaymentConfirmed(r.value)) else None
    {
      if id !in orders {
        return Failure(NotFound), None;
      }
      var order := orders[id];
      if order.status == Paid {
        return Failure(AlreadyPaid), None;
      }
      order := order.(status := Paid);
      order := order.(paidAt := Some(now));
      order := order.(updatedAt := now);
      if code != "" {
        order := order.(mpesaCode := Some(code));
      }
      orders := orders[id := order];
      r, notice := Success(order), Some(PaymentConfirmed(order));
    }

    /** GET /api/order/:orderId. */
    method GetOrder(id: string) returns (r: Result<Order, Error>)
      ensures r == Lookup(orders, id)
    {
      if id in orders {
        r := Success(orders[id]);
      } else {
        r := Failure(NotFound);
      }
    }

    /** GET /api/orders: every order newest first, and its summary. */
    method ListOrders() returns (list: seq<Order>, summary: Listing.Summary)
      requires Valid()
      ensures list == Listing.SortNewestFirst(Values(keys, orders))
      ensures summary == Listing.Summarize(list)
      ensures summary == Listing.Summarize(Values(keys, orders))
    {
      var all := Values(keys, orders);
      list := Listing.SortNewestFirst(all);
      summary := Listing.Summarize(list);
      Listing.SummaryIgnoresOrder(all);
    }

    /** PUT /api/order/:orderId/status. */
    method UpdateStatus(id: string, status: string, adminNotes: string, notifyCustomer: bool, now: nat)
      returns (r: Result<Order, Error>, notice: Option<Notice>)
      requires Valid()
      modifies this
      ensures Valid()
      ensures r == ChangeStatus(old(orders), id, status, adminNotes, now)
      ensures orders == if r.Success? then old(orders)[id := r.value] else old(orders)
      ensures keys == old(keys) && orderCounter == old(orderCounter) && issued == old(issued)
      ensures notice.Some? <==> r.Success? && NotifiesOnUpdate(old(orders)[id].status, status, notifyCustomer)
      ensures notice.Some? ==> notice == Some(StatusUpdate(r.value, old(orders)[id].status))
    {
      if id !in orders {
        return Failure(NotFound), None;
      }
      if status !in AllowedStatuses {
        return Failure(InvalidStatus), None;
      }
      var order := orders[id];
      var oldStatus := order.status;
      order := order.(status := status);
      if adminNotes != "" {
        order := order.(adminNotes := adminNotes);
      }
      order := order.(updatedAt := now);
      if status == Paid && oldStatus != Paid {
        order := order.(paidAt := Some(now));
      }
      orders := orders[id := order];
      r := Success(order);
      if notifyCustomer && oldStatus != status {
        notice := Some(StatusUpdate(order, oldStatus));
      } else {
        notice := None;
      }
    }

    /** DELETE /api/order/:orderId. */
    method DeleteOrder(id: string) returns (r: Result<(), Error>)
      requires Valid()
      modifies this
      ensures Valid()
      ensures r.Success? <==> id in old(orders)
      ensures r.Failure? ==> r.error == NotFound
      ensures orders == if r.Success? then Remove(old(orders), id).value else old(orders)
      ensures keys == if r.Success? then RemoveKey(old(keys), id) else old(keys)
      ensures orderCounter == old(orderCounter) && issued == old(issued)
    {
      if id in orders {
        orders := orders - {id};
        keys := RemoveKey(keys, id);
        r := Success(());
      } else {
        r := Failure(NotFound);
      }
    }

    /** The `orders_summary` of GET /api/health. */
    method Health() returns (counts: Listing.StatusCounts)
      requires Valid()
      ensures counts == Listing.Counts(Values(keys, orders))
      ensures counts.total == |orders|
    {
      counts := Listing.Counts(Values(keys, orders));
      KeysCoverOrders();
    }

    /** GET /api/export/csv; `iso` renders a timestamp as toISOString does. */
    method ExportCsv(iso: nat -> string) returns (document: string)
      requires Valid()
      ensures document == Csv.Document(Listing.SortNewestFirst(Values(keys, orders)), iso)
    {
      document := Csv.Document(Listing.SortNewestFirst(Values(keys, orders)), iso);
    }

    /** What autoSave writes and GET /api/backup returns: the counter and
        the orders as entries in Map order. */
    method Snapshot() returns (counter: nat, entries: seq<(string, Order)>)
      requires Valid()
      ensures counter == orderCounter
      ensures entries == SnapshotEntries(keys, orders)
      ensures EntriesMap(entries) == orders && EntryKeys(entries) == keys
      ensures CounterOnLoad(Some(counter)) == counter
    {
      counter := orderCounter;
      entries := SnapshotEntries(keys, orders);
      SnapshotRoundTrip(keys, orders, counter);
    }

    lemma KeysCoverOrders()
      requires Valid()
      ensures |keys| == |orders|
    {
      DistinctCardinality(keys, orders);
    }
  }

  lemma NewKeyKeepsKeysValid(keys: seq<string>, orders: map<string, Order>, id: string, o: Order)
    requires Distinct(keys) && forall k :: k in keys <==> k in orders
    ensures var ks := if id in orders then keys else keys + [id];
      Distinct(ks) && forall k :: k in ks <==> k in orders[id := o]
  {
  }

  lemma IssueNext(issued: seq<nat>, counter: nat)
    requires forall i, j :: 0 <= i < j < |issued| ==> issued[i] < issued[j]
    requires forall i :: 0 <= i < |issued| ==> issued[i] < counter
    ensures var xs := issued + [counter];
      && (forall i, j :: 0 <= i < j < |xs| ==> xs[i] < xs[j])
      && (forall i :: 0 <= i < |xs| ==> xs[i] < counter + 1)
  {
  }

  lemma {:induction false} DistinctCardinality(keys: seq<string>, orders: map<string, Order>)
    requires Distinct(keys) && forall k :: k in keys <==> k in orders
    ensures |keys| == |orders|
    decreases |keys|
  {
    if keys == [] {
      assert orders.Keys == {};
    } else {
      var k := keys[0];
      assert forall x :: x in keys[1..] <==> x in orders - {k} by {
        forall x ensures x in keys[1..] <==> x in orders - {k} {
          if x in keys[1..] {
            var j :| 0 <= j < |keys[1..]| && keys[1..][j] == x;
            assert keys[j + 1] == x;
          }
          if x in orders - {k} {
            assert x in keys;
            var j :| 0 <= j < |keys| && keys[j] == x;
            assert j != 0;
            assert keys[1..][j - 1] == x;
          }
        }
      }
      DistinctCardinality(keys[1..], orders - {k});
    }
  }

  /** Identifiers handed out during one run are pairwise different, because
      each create uses a strictly larger counter value. */
  lemma IssuedIdsDistinct(issued: seq<nat>)
    requires forall i, j :: 0 <= i < j < |issued| ==> issued[i] < issued[j]
    ensures forall i, j :: 0 <= i < j < |issued| ==> OrderId(issued[i]) != OrderId(issued[j])
  {
    forall i, j | 0 <= i < j < |issued| ensures OrderId(issued[i]) != OrderId(issued[j]) {
      OrderIdInjective(issued[i], issued[j]);
    }
  }

  /** create-order stores with a plain `set`: when the counter's identifier
      is already taken (a counter reset after its file was lost), the old
      order is replaced and the number of orders stays the same. */
  lemma CreateOverwritesTakenId(orders: map<string, Order>, counter: nat, input: CreateInput, now: nat, bn: Option<string>)
    requires !MissingRequired(input) && OrderId(counter) in orders
    ensures var o := Create(counter, input, now, bn).value;
      |orders[o.id := o]| == |orders| && orders[o.id := o][OrderId(counter)] == o
  {
  }
}
