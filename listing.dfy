/** The read side of backend/server.js: GET /api/orders sorts every order
    newest first and summarises the list (counts per status group and two
    revenue sums); GET /api/health reports the same counts without sorting.
    The counted groups are sets of status strings. */
module Listing {
  import opened Base
  import opened Orders

  predicate NewestFirst(xs: seq<Order>) {
    forall i, j :: 0 <= i < j < |xs| ==> xs[i].createdAt >= xs[j].createdAt
  }

  /** Places `x` before the first order that is not newer than it, so an
      order whose createdAt ties with later ones stays ahead of them. */
  function InsertNewestFirst(x: Order, ys: seq<Order>): (r: seq<Order>)
    ensures |r| == |ys| + 1
    ensures multiset(r) == multiset(ys) + multiset{x}
  {
    if ys == [] then [x]
    else if ys[0].createdAt <= x.createdAt then [x] + ys
    else
      assert ys == [ys[0]] + ys[1..];
      [ys[0]] + InsertNewestFirst(x, ys[1..])
  }

  lemma {:induction false} InsertKeepsNewestFirst(x: Order, ys: seq<Order>)
    requires NewestFirst(ys)
    ensures NewestFirst(InsertNewestFirst(x, ys))
  {
    if ys == [] {
    } else if ys[0].createdAt <= x.createdAt {
      forall o | o in ys ensures o.createdAt <= x.createdAt {
        if o != ys[0] {
          assert o in ys[1..];
          HeadIsNewest(ys, o);
        }
      }
      NewestFirstCons(x, ys);
    } else {
      var rest := InsertNewestFirst(x, ys[1..]);
      NewestFirstTail(ys);
      InsertKeepsNewestFirst(x, ys[1..]);
      forall o | o in rest ensures o.createdAt <= ys[0].createdAt {
        assert o in multiset(rest);
        if o != x {
          assert o in multiset(ys[1..]);
          HeadIsNewest(ys, o);
        }
      }
      NewestFirstCons(ys[0], rest);
    }
  }

  lemma NewestFirstTail(xs: seq<Order>)
    requires xs != [] && NewestFirst(xs)
    ensures NewestFirst(xs[1..])
  {
    forall i, j | 0 <= i < j < |xs[1..]| ensures xs[1..][i].createdAt >= xs[1..][j].createdAt {
      assert xs[1..][i] == xs[i + 1] && xs[1..][j] == xs[j + 1];
    }
  }

  lemma HeadIsNewest(xs: seq<Order>, o: Order)
    requires xs != [] && NewestFirst(xs) && o in xs[1..]
    ensures o.createdAt <= xs[0].createdAt
  {
    var k :| 0 <= k < |xs[1..]| && xs[1..][k] == o;
    assert xs[k + 1] == o;
  }

  lemma NewestFirstCons(x: Order, rest: seq<Order>)
    requires NewestFirst(rest) && forall o :: o in rest ==> o.createdAt <= x.createdAt
    ensures NewestFirst([x] + rest)
  {
    var r := [x] + rest;
    forall i, j | 0 <= i < j < |r| ensures r[i].createdAt >= r[j].createdAt {
      assert r[j] == rest[j - 1];
      assert r[j] in rest;
      if i > 0 {
        assert r[i] == rest[i - 1];
      }
    }
  }

  /** `.sort((a, b) => b.createdAt - a.createdAt)`: the orders newest first. */
  function SortNewestFirst(xs: seq<Order>): (r: seq<Order>)
    ensures |r| == |xs|
    ensures multiset(r) == multiset(xs)
  {
    if xs == [] then []
    else
      assert xs == [xs[0]] + xs[1..];
      InsertNewestFirst(xs[0], SortNewestFirst(xs[1..]))
  }

  /** The sorted list is newest first and a permutation of its input. */
  lemma {:induction false} SortIsNewestFirst(xs: seq<Order>)
    ensures NewestFirst(SortNewestFirst(xs))
    ensures multiset(SortNewestFirst(xs)) == multiset(xs)
  {
    if xs != [] {
      SortIsNewestFirst(xs[1..]);
      InsertKeepsNewestFirst(xs[0], SortNewestFirst(xs[1..]));
    }
  }

  /** How many of `xs` have a status in `ss` (`filter(...).length`). */
  function CountWhere(xs: seq<Order>, ss: set<string>): (n: nat)
    ensures n <= |xs|
  {
    if xs == [] then 0 else (if xs[0].status in ss then 1 else 0) + CountWhere(xs[1..], ss)
  }

  /** When every order's status is in the group, the group counts them all. */
  lemma {:induction false} CountAllSelected(xs: seq<Order>, ss: set<string>)
    requires forall i :: 0 <= i < |xs| ==> xs[i].status in ss
    ensures CountWhere(xs, ss) == |xs|
  {
    if xs != [] {
      assert forall i :: 0 <= i < |xs[1..]| ==> xs[1..][i] == xs[i + 1];
      CountAllSelected(xs[1..], ss);
    }
  }

  /** The sum of the prices of the orders of `xs` whose status is in `ss`
      (`filter(...).reduce((sum, o) => sum + o.price, 0)`). */
  function SumPricesWhere(xs: seq<Order>, ss: set<string>): int
  {
    if xs == [] then 0 else (if xs[0].status in ss then xs[0].price else 0) + SumPricesWhere(xs[1..], ss)
  }

  const PendingGroup: set<string> := {PendingPayment}
  const PaidGroup: set<string> := {Paid}
  /** The server's in-progress group; `ready_for_delivery` is not in it. */
  const InProgressGroup: set<string> := {PickupScheduled, PickedUp, InProgress}
  const CompletedGroup: set<string> := {Delivered}
  const RevenueGroup: set<string> := {Paid, Delivered}
  const AllStatuses: set<string> :=
    {PendingPayment, Paid, PickupScheduled, PickedUp, InProgress, ReadyForDelivery, Delivered}

  lemma AllStatusesAreAllowed(s: string)
    ensures s in AllStatuses <==> IsAllowedStatus(s)
  {
  }

  datatype StatusCounts = StatusCounts(total: nat, pending: nat, paid: nat, inProgress: nat, completed: nat)
  datatype Summary = Summary(counts: StatusCounts, totalRevenue: int, pendingRevenue: int)

  /** The counts shared by the list summary and the health summary. */
  function Counts(xs: seq<Order>): StatusCounts {
    StatusCounts(|xs|, CountWhere(xs, PendingGroup), CountWhere(xs, PaidGroup),
                 CountWhere(xs, InProgressGroup), CountWhere(xs, CompletedGroup))
  }

  /** The `summary` object of GET /api/orders. */
  function Summarize(xs: seq<Order>): Summary {
    Summary(Counts(xs), SumPricesWhere(xs, RevenueGroup), SumPricesWhere(xs, PendingGroup))
  }

  lemma {:induction false} CountUnion(xs: seq<Order>, a: set<string>, b: set<string>)
    requires a !! b
    ensures CountWhere(xs, a + b) == CountWhere(xs, a) + CountWhere(xs, b)
  {
    if xs != [] {
      CountUnion(xs[1..], a, b);
    }
  }

  lemma {:induction false} SumUnion(xs: seq<Order>, a: set<string>, b: set<string>)
    requires a !! b
    ensures SumPricesWhere(xs, a + b) == SumPricesWhere(xs, a) + SumPricesWhere(xs, b)
  {
    if xs != [] {
      SumUnion(xs[1..], a, b);
    }
  }

  /** totalRevenue is the price sum of the paid orders plus that of the
      delivered orders; no other status contributes. */
  lemma RevenueOfPaidAndDelivered(xs: seq<Order>)
    ensures Summarize(xs).totalRevenue == SumPricesWhere(xs, PaidGroup) + SumPricesWhere(xs, CompletedGroup)
  {
    SumUnion(xs, PaidGroup, CompletedGroup);
    assert PaidGroup + CompletedGroup == RevenueGroup;
  }

  /** The four summary groups are disjoint and leave out
      `ready_for_delivery`: together with it they count exactly the orders
      whose status is one of the seven, so they never exceed the total. */
  lemma CountsWithinTotal(xs: seq<Order>)
    ensures var c := Counts(xs);
      && c.pending + c.paid + c.inProgress + c.completed + CountWhere(xs, {ReadyForDelivery})
         == CountWhere(xs, AllStatuses)
      && c.pending + c.paid + c.inProgress + c.completed + CountWhere(xs, {ReadyForDelivery}) <= c.total
  {
    CountUnion(xs, PendingGroup, PaidGroup);
    CountUnion(xs, PendingGroup + PaidGroup, InProgressGroup);
    CountUnion(xs, PendingGroup + PaidGroup + InProgressGroup, CompletedGroup);
    CountUnion(xs, PendingGroup + PaidGroup + InProgressGroup + CompletedGroup, {ReadyForDelivery});
    assert PendingGroup + PaidGroup + InProgressGroup + CompletedGroup + {ReadyForDelivery} == AllStatuses;
  }

  lemma {:induction false} CountOfInsert(x: Order, ys: seq<Order>, ss: set<string>)
    ensures CountWhere(InsertNewestFirst(x, ys), ss) == CountWhere([x], ss) + CountWhere(ys, ss)
    ensures SumPricesWhere(InsertNewestFirst(x, ys), ss) == SumPricesWhere([x], ss) + SumPricesWhere(ys, ss)
  {
    if ys != [] && ys[0].createdAt > x.createdAt {
      CountOfInsert(x, ys[1..], ss);
      var r := InsertNewestFirst(x, ys);
      assert r[1..] == InsertNewestFirst(x, ys[1..]);
    } else if ys != [] {
      var r := InsertNewestFirst(x, ys);
      assert r[1..] == ys;
    }
  }

  lemma {:induction false} CountOfSorted(xs: seq<Order>, ss: set<string>)
    ensures CountWhere(SortNewestFirst(xs), ss) == CountWhere(xs, ss)
    ensures SumPricesWhere(SortNewestFirst(xs), ss) == SumPricesWhere(xs, ss)
  {
    if xs != [] {
      CountOfSorted(xs[1..], ss);
      CountOfInsert(xs[0], SortNewestFirst(xs[1..]), ss);
    }
  }

  /** The summary does not depend on the order of the list: the list
      endpoint's summary of the sorted orders equals the summary of the
      orders in map order, and its counts equal the health endpoint's. */
  lemma SummaryIgnoresOrder(xs: seq<Order>)
    ensures Summarize(SortNewestFirst(xs)) == Summarize(xs)
    ensures Summarize(SortNewestFirst(xs)).counts == Counts(xs)
  {
    CountOfSorted(xs, PendingGroup);
    CountOfSorted(xs, PaidGroup);
    CountOfSorted(xs, InProgressGroup);
    CountOfSorted(xs, CompletedGroup);
    CountOfSorted(xs, RevenueGroup);
  }

  function Weight(o: Order, ss: set<string>): int {
    if o.status in ss then o.price else 0
  }

  function Indicator(o: Order, ss: set<string>): nat {
    if o.status in ss then 1 else 0
  }

  /** Replacing one order changes a count and a price sum by that order's
      contribution only. */
  lemma {:induction false} ReplaceOne(xs: seq<Order>, i: nat, y: Order, ss: set<string>)
    requires i < |xs|
    ensures CountWhere(xs[i := y], ss) == CountWhere(xs, ss) - Indicator(xs[i], ss) + Indicator(y, ss)
    ensures SumPricesWhere(xs[i := y], ss) == SumPricesWhere(xs, ss) - Weight(xs[i], ss) + Weight(y, ss)
  {
    if i > 0 {
      ReplaceOne(xs[1..], i - 1, y, ss);
      assert xs[i := y][1..] == xs[1..][i - 1 := y];
    } else {
      assert xs[i := y][1..] == xs[1..];
    }
  }

  /** Confirming the payment of a pending order of price p moves it from
      the pending group to the paid group and moves p from pendingRevenue
      to totalRevenue. */
  lemma ConfirmMovesRevenue(xs: seq<Order>, i: nat, y: Order)
    requires i < |xs| && xs[i].status == PendingPayment
    requires y.status == Paid && y.price == xs[i].price
    ensures var before, after := Summarize(xs), Summarize(xs[i := y]);
      && after.counts.pending == before.counts.pending - 1
      && after.counts.paid == before.counts.paid + 1
      && after.counts.inProgress == before.counts.inProgress
      && after.counts.completed == before.counts.completed
      && after.totalRevenue == before.totalRevenue + xs[i].price
      && after.pendingRevenue == before.pendingRevenue - xs[i].price
  {
    ReplaceOne(xs, i, y, PendingGroup);
    ReplaceOne(xs, i, y, PaidGroup);
    ReplaceOne(xs, i, y, InProgressGroup);
    ReplaceOne(xs, i, y, CompletedGroup);
    ReplaceOne(xs, i, y, RevenueGroup);
  }

  /** Confirming a delivered order turns it back into `paid` but leaves
      totalRevenue as it was, because both statuses count as revenue. */
  lemma ConfirmDeliveredKeepsRevenue(xs: seq<Order>, i: nat, y: Order)
    requires i < |xs| && xs[i].status == Delivered
    requires y.status == Paid && y.price == xs[i].price
    ensures Summarize(xs[i := y]).totalRevenue == Summarize(xs).totalRevenue
    ensures Summarize(xs[i := y]).counts.completed == Summarize(xs).counts.completed - 1
  {
    ReplaceOne(xs, i, y, RevenueGroup);
    ReplaceOne(xs, i, y, CompletedGroup);
  }
}
