/** The admin dashboard of backend/admin/admin.js: how it classifies and
    labels statuses, which orders each tab shows, which buttons an order
    row offers, what it checks before confirming a payment and what it
    sends when updating an order, and the `AdminDashboard` object whose
    fields `orders`, `summary` and `currentTab` the loading and tab
    switching change. */
module Admin {
  import opened Base
  import opened Text
  import opened Orders
  import Listing

  /** `getStatusClass`: the CSS class of a status badge. */
  function StatusClass(status: string): (c: string)
    ensures c == "default" <==> !IsAllowedStatus(status)
    ensures c == "pending" <==> status == PendingPayment
    ensures c == "success" <==> status == Paid || status == Delivered
    ensures c == "info" <==> status == PickupScheduled || status == PickedUp
    ensures c == "warning" <==> status == InProgress
    ensures c == "primary" <==> status == ReadyForDelivery
  {
    if status == PendingPayment then "pending"
    else if status == Paid then "success"
    else if status == PickupScheduled then "info"
    else if status == PickedUp then "info"
    else if status == InProgress then "warning"
    else if status == ReadyForDelivery then "primary"
    else if status == Delivered then "success"
    else "default"
  }

  /** The characters `\w` matches in a regular expression without the
      `u` flag. */
  predicate IsWordChar(c: char) {
    ('a' <= c <= 'z') || ('A' <= c <= 'Z') || ('0' <= c <= '9') || c == '_'
  }

  /** `replace(/_/g, ' ')`. */
  function Spaced(s: string): (t: string)
    ensures |t| == |s| && '_' !in t
    ensures forall i :: 0 <= i < |s| && s[i] != '_' ==> t[i] == s[i]
  {
    seq(|s|, i requires 0 <= i < |s| => if s[i] == '_' then ' ' else s[i])
  }

  /** Position `i` of `t` is where `\b\w` matches: a word character with
      no word character before it. */
  predicate WordStart(t: string, i: nat)
    requires i < |t|
  {
    IsWordChar(t[i]) && (i == 0 || !IsWordChar(t[i - 1]))
  }

  /** `replace(/\b\w/g, l => l.toUpperCase())`; every character `\w`
      matches is ASCII, so upper-casing it is the ASCII rule. */
  function CapitalizeWords(t: string): (r: string)
    ensures |r| == |t|
  {
    seq(|t|, i requires 0 <= i < |t| => if WordStart(t, i) then UpperAsciiChar(t[i]) else t[i])
  }

  /** `formatStatus`: underscores become spaces and the first letter of
      each word is upper-cased; nothing else changes. */
  function FormatStatus(status: string): (r: string)
    ensures |r| == |status| && '_' !in r
    ensures forall i :: 0 <= i < |status| && status[i] == '_' ==> r[i] == ' '
    ensures forall i :: 0 <= i < |r| && WordStart(r, i) ==> !('a' <= r[i] <= 'z')
    ensures forall i :: 0 <= i < |r| && WordStart(r, i) ==> r[i] == UpperAsciiChar(status[i])
    ensures forall i :: 0 <= i < |r| && status[i] != '_' && !WordStart(r, i) ==> r[i] == status[i]
  {
    var t := Spaced(status);
    var r := CapitalizeWords(t);
    forall i | 0 <= i < |t| ensures (IsWordChar(t[i]) <==> IsWordChar(r[i])) {
      UpperKeepsWordChars(t[i]);
    }
    assert forall i :: 0 <= i < |t| ==> (WordStart(t, i) <==> WordStart(r, i));
    assert '_' !in r by {
      forall i | 0 <= i < |r| ensures r[i] != '_' {
        assert t[i] != '_';
      }
    }
    r
  }

  lemma UpperKeepsWordChars(c: char)
    ensures IsWordChar(UpperAsciiChar(c)) <==> IsWordChar(c)
    ensures UpperAsciiChar(UpperAsciiChar(c)) == UpperAsciiChar(c)
  {
  }

  /** Formatting a formatted status changes nothing. */
  lemma FormatStatusIdempotent(status: string)
    ensures FormatStatus(FormatStatus(status)) == FormatStatus(status)
  {
    var r := FormatStatus(status);
    var t := Spaced(status);
    assert Spaced(r) == r;
    forall i | 0 <= i < |r| ensures (IsWordChar(r[i]) <==> IsWordChar(t[i])) {
      UpperKeepsWordChars(t[i]);
    }
    forall i | 0 <= i < |r| ensures WordStart(r, i) <==> WordStart(t, i) {
    }
    forall i | 0 <= i < |r| ensures CapitalizeWords(r)[i] == r[i] {
      UpperKeepsWordChars(t[i]);
    }
  }

  /** The label of the status that goes out for delivery. */
  lemma ReadyForDeliveryLabel()
    ensures FormatStatus(ReadyForDelivery) == "Ready For Delivery"
  {
    assert Spaced(ReadyForDelivery) == "ready for delivery";
    CapitalizeThreeWords();
  }

  lemma CapitalizeThreeWords()
    ensures CapitalizeWords("ready for delivery") == "Ready For Delivery"
  {
    var t := "ready for delivery";
    var r := CapitalizeWords(t);
    forall i | 0 <= i < |t| ensures r[i] == "Ready For Delivery"[i] {
      if i == 0 || i == 6 || i == 10 {
        assert WordStart(t, i);
      } else {
        assert !WordStart(t, i);
      }
    }
  }

  /** The statuses each admin tab shows; `in_progress` includes
      `ready_for_delivery`, which the server's summary leaves out. */
  const PendingTab: set<string> := {PendingPayment}
  const PaidTab: set<string> := {Paid}
  const InProgressTab: set<string> := {PickupScheduled, PickedUp, InProgress, ReadyForDelivery}
  const CompletedTab: set<string> := {Delivered}

  /** The status filter of `renderOrdersByTab`; any other tab name shows
      every order. */
  function TabStatuses(tab: string): (r: Option<set<string>>)
    ensures r.None? <==> tab !in {"pending", "paid", "in_progress", "completed"}
    ensures r.Some? ==> r.value <= Listing.AllStatuses
    ensures tab == "pending" ==> r == Some({PendingPayment})
    ensures tab == "paid" ==> r == Some({Paid})
    ensures tab == "in_progress" ==> r == Some({PickupScheduled, PickedUp, InProgress, ReadyForDelivery})
    ensures tab == "completed" ==> r == Some({Delivered})
  {
    if tab == "pending" then Some(PendingTab)
    else if tab == "paid" then Some(PaidTab)
    else if tab == "in_progress" then Some(InProgressTab)
    else if tab == "completed" then Some(CompletedTab)
    else None
  }

  /** `orders.filter(o => ss.includes(o.status))`. */
  function Filter(xs: seq<Order>, ss: set<string>): (r: seq<Order>)
    ensures |r| == Listing.CountWhere(xs, ss)
    ensures forall o :: o in r <==> o in xs && o.status in ss
  {
    if xs == [] then []
    else
      var rest := Filter(xs[1..], ss);
      assert forall o :: o in xs <==> o == xs[0] || o in xs[1..];
      if xs[0].status in ss then [xs[0]] + rest else rest
  }

  /** Filtering works piece by piece, so the kept orders stay in the
      order of the input, as `Array.prototype.filter` keeps them. */
  lemma {:induction false} FilterAppend(xs: seq<Order>, ys: seq<Order>, ss: set<string>)
    ensures Filter(xs + ys, ss) == Filter(xs, ss) + Filter(ys, ss)
  {
    if xs == [] {
      assert xs + ys == ys;
    } else {
      assert (xs + ys)[1..] == xs[1..] + ys;
      FilterAppend(xs[1..], ys, ss);
    }
  }

  /** One order is kept exactly when its status is selected. */
  lemma FilterOne(o: Order, ss: set<string>)
    ensures Filter([o], ss) == if o.status in ss then [o] else []
  {
    assert [o][1..] == [];
  }

  /** A newest-first list stays newest first after filtering. */
  lemma {:induction false} FilterKeepsNewestFirst(xs: seq<Order>, ss: set<string>)
    requires Listing.NewestFirst(xs)
    ensures Listing.NewestFirst(Filter(xs, ss))
  {
    if xs != [] {
      var rest := Filter(xs[1..], ss);
      Listing.NewestFirstTail(xs);
      FilterKeepsNewestFirst(xs[1..], ss);
      if xs[0].status in ss {
        forall o | o in rest ensures o.createdAt <= xs[0].createdAt {
          Listing.HeadIsNewest(xs, o);
        }
        Listing.NewestFirstCons(xs[0], rest);
      }
    }
  }

  /** The orders listed under a tab. */
  function TabOrders(xs: seq<Order>, tab: string): (r: seq<Order>)
    ensures TabStatuses(tab).None? ==> r == xs
    ensures TabStatuses(tab).Some? ==>
      |r| == Listing.CountWhere(xs, TabStatuses(tab).value)
      && forall o :: o in r <==> o in xs && o.status in TabStatuses(tab).value
  {
    match TabStatuses(tab)
    case None => xs
    case Some(ss) => Filter(xs, ss)
  }

  /** How many of the four tabs list an order of status `s`. */
  function TabsHolding(s: string): nat {
    (if s in PendingTab then 1 else 0) + (if s in PaidTab then 1 else 0)
    + (if s in InProgressTab then 1 else 0) + (if s in CompletedTab then 1 else 0)
  }

  /** Each of the seven statuses belongs to exactly one tab, and no other
      string belongs to any. */
  lemma TabsPartitionStatuses(s: string)
    ensures TabsHolding(s) == 1 <==> IsAllowedStatus(s)
    ensures TabsHolding(s) == 0 <==> !IsAllowedStatus(s)
  {
  }

  /** `updateTabCounts`: the four tab counts add up to the number of
      orders whose status is one of the seven. */
  lemma TabCountsSum(xs: seq<Order>)
    ensures Listing.CountWhere(xs, PendingTab) + Listing.CountWhere(xs, PaidTab)
            + Listing.CountWhere(xs, InProgressTab) + Listing.CountWhere(xs, CompletedTab)
            == Listing.CountWhere(xs, Listing.AllStatuses)
  {
    Listing.CountUnion(xs, PendingTab, PaidTab);
    Listing.CountUnion(xs, PendingTab + PaidTab, InProgressTab);
    Listing.CountUnion(xs, PendingTab + PaidTab + InProgressTab, CompletedTab);
    assert PendingTab + PaidTab + InProgressTab + CompletedTab == Listing.AllStatuses;
  }

  /** Every status the server writes is one of the seven, so on a list
      the server sends the four tab counts add up to the number of
      orders. */
  lemma TabCountsCoverAll(xs: seq<Order>)
    requires forall i :: 0 <= i < |xs| ==> IsAllowedStatus(xs[i].status)
    ensures Listing.CountWhere(xs, PendingTab) + Listing.CountWhere(xs, PaidTab)
            + Listing.CountWhere(xs, InProgressTab) + Listing.CountWhere(xs, CompletedTab) == |xs|
  {
    TabCountsSum(xs);
    forall i | 0 <= i < |xs| ensures xs[i].status in Listing.AllStatuses {
      Listing.AllStatusesAreAllowed(xs[i].status);
    }
    Listing.CountAllSelected(xs, Listing.AllStatuses);
  }

  /** The dashboard's in-progress count exceeds the server summary's
      in-progress count by the number of `ready_for_delivery` orders; the
      other three tab counts equal the summary's. */
  lemma TabCountsAgainstSummary(xs: seq<Order>)
    ensures Listing.CountWhere(xs, InProgressTab)
            == Listing.Summarize(xs).counts.inProgress + Listing.CountWhere(xs, {ReadyForDelivery})
    ensures Listing.CountWhere(xs, PendingTab) == Listing.Summarize(xs).counts.pending
    ensures Listing.CountWhere(xs, PaidTab) == Listing.Summarize(xs).counts.paid
    ensures Listing.CountWhere(xs, CompletedTab) == Listing.Summarize(xs).counts.completed
  {
    Listing.CountUnion(xs, Listing.InProgressGroup, {ReadyForDelivery});
    assert Listing.InProgressGroup + {ReadyForDelivery} == InProgressTab;
  }

  /** The number of rows the completed tab shows. */
  const CompletedLimit: nat := 20

  /** What the orders area of a tab shows: the empty-state message of a
      tab (an unknown tab uses the pending tab's message), or a table of
      rows with or without the "Showing latest 20" footer. */
  datatype Panel =
    | EmptyState(messageKey: string)
    | Table(rows: seq<Order>, footer: bool)

  /** `renderOrdersByTab` with `renderEmptyState` and `renderOrdersTable`. */
  function RenderTab(xs: seq<Order>, tab: string): (p: Panel)
    ensures var f := TabOrders(xs, tab);
      && (p.EmptyState? <==> f == [])
      && (p.EmptyState? ==> p.messageKey == (if TabStatuses(tab).Some? then tab else "pending"))
      && (p.Table? ==>
          && p.rows <= f
          && |p.rows| == (if tab == "completed" && |f| > CompletedLimit then CompletedLimit else |f|)
          && (p.footer <==> |p.rows| < |f|))
  {
    var f := TabOrders(xs, tab);
    if f == [] then EmptyState(if TabStatuses(tab).Some? then tab else "pending")
    else
      var rows := if tab == "completed" && |f| > CompletedLimit then f[..CompletedLimit] else f;
      Table(rows, |f| > CompletedLimit && tab == "completed")
  }

  /** Given the server's newest-first list, every tab lists its orders
      newest first, and the twenty rows of the completed tab are the
      twenty newest deliveries: no order left off is newer than a row
      shown. */
  lemma CompletedTabShowsNewest(xs: seq<Order>, tab: string)
    requires Listing.NewestFirst(xs)
    requires RenderTab(xs, tab).Table?
    ensures Listing.NewestFirst(RenderTab(xs, tab).rows)
    ensures var rows, f := RenderTab(xs, tab).rows, TabOrders(xs, tab);
      forall i, j :: 0 <= i < |rows| <= j < |f| ==> f[j].createdAt <= rows[i].createdAt
  {
    var f := TabOrders(xs, tab);
    var rows := RenderTab(xs, tab).rows;
    if TabStatuses(tab).Some? {
      FilterKeepsNewestFirst(xs, TabStatuses(tab).value);
    }
    assert Listing.NewestFirst(f);
    assert rows == f[..|rows|];
    forall i, j | 0 <= i < |rows| <= j < |f| ensures f[j].createdAt <= rows[i].createdAt {
      assert rows[i] == f[i];
    }
    forall i, j | 0 <= i < j < |rows| ensures rows[i].createdAt >= rows[j].createdAt {
      assert rows[i] == f[i] && rows[j] == f[j];
    }
  }

  /** The buttons of an order row. */
  datatype Button = Manage | ConfirmPaymentButton | DeleteButton

  /** `renderActionButtons`: Manage on every row, Confirm and Delete only
      on orders awaiting payment. */
  function ActionButtons(status: string): (bs: seq<Button>)
    ensures |bs| >= 1 && bs[0] == Manage
    ensures ConfirmPaymentButton in bs <==> status == PendingPayment
    ensures DeleteButton in bs <==> status == PendingPayment
    ensures status != PendingPayment ==> bs == [Manage]
  {
    if status == PendingPayment then [Manage, ConfirmPaymentButton, DeleteButton] else [Manage]
  }

  /** The shortest M-Pesa reference the dashboard sends. */
  const MinCodeLength: nat := 8

  /** `confirmPayment`'s check: the input trimmed and upper-cased, refused
      when it is empty or shorter than eight characters. */
  function ConfirmCode(raw: string): (r: Option<string>)
    ensures r.Some? <==> |UpperAscii(Trim(raw))| >= MinCodeLength
    ensures r.Some? ==> r.value == UpperAscii(Trim(raw))
    ensures r.Some? ==> |r.value| >= MinCodeLength && forall i :: 0 <= i < |r.value| ==> !('a' <= r.value[i] <= 'z')
  {
    var code := UpperAscii(Trim(raw));
    if code == "" || |code| < MinCodeLength then None else Some(code)
  }

  /** A code the dashboard accepts is never blank, so the server stores it
      when it confirms the order. */
  lemma AcceptedCodeIsStored(orders: map<string, Order>, id: string, raw: string, now: nat)
    requires ConfirmCode(raw).Some?
    requires id in orders && orders[id].status != Paid
    ensures Confirm(orders, id, ConfirmCode(raw).value, now).Success?
    ensures Confirm(orders, id, ConfirmCode(raw).value, now).value.mpesaCode == ConfirmCode(raw)
  {
  }

  /** The Confirm button appears only on orders the server will confirm. */
  lemma ConfirmButtonOnlyWhereAccepted(orders: map<string, Order>, id: string, code: string, now: nat)
    requires id in orders && ConfirmPaymentButton in ActionButtons(orders[id].status)
    ensures Confirm(orders, id, code, now).Success?
  {
  }

  /** The JSON body of PUT /api/order/:orderId/status. */
  datatype UpdateRequest = UpdateRequest(
    status: string, adminNotes: string, notifyCustomer: bool,
    pickupDate: Option<string>, deliveryDate: Option<string>)

  /** `updateOrder`: status, notes and the notify flag always; each date
      only when its input is not empty, rendered by `toIso` (the
      `new Date(...).toISOString()` call). */
  function UpdateBody(status: string, pickupInput: string, deliveryInput: string, adminNotes: string,
                      notifyCustomer: bool, toIso: string -> string): (b: UpdateRequest)
    ensures b.status == status && b.adminNotes == adminNotes && b.notifyCustomer == notifyCustomer
    ensures b.pickupDate.Some? <==> pickupInput != ""
    ensures b.deliveryDate.Some? <==> deliveryInput != ""
    ensures b.pickupDate.Some? ==> b.pickupDate.value == toIso(pickupInput)
    ensures b.deliveryDate.Some? ==> b.deliveryDate.value == toIso(deliveryInput)
  {
    UpdateRequest(status, adminNotes, notifyCustomer,
                  if pickupInput != "" then Some(toIso(pickupInput)) else None,
                  if deliveryInput != "" then Some(toIso(deliveryInput)) else None)
  }

  /** The server reads only status, notes and the notify flag from the
      body: the dates the dashboard sends never reach the order, and
      sending the notes field blank keeps the stored notes. */
  lemma UpdateBodyDatesIgnored(orders: map<string, Order>, id: string, b: UpdateRequest, now: nat)
    requires id in orders && IsAllowedStatus(b.status)
    ensures var r := ChangeStatus(orders, id, b.status, b.adminNotes, now);
      && r.Success?
      && r.value.pickupDate == orders[id].pickupDate
      && r.value.deliveryDate == orders[id].deliveryDate
      && (b.adminNotes == "" ==> r.value.adminNotes == orders[id].adminNotes)
  {
  }

  /** The browser object behind the dashboard page. */
  class AdminDashboard {
    var orders: seq<Order>
    /** `{}` before the first successful load. */
    var summary: Option<Listing.Summary>
    var currentTab: string

    constructor ()
      ensures orders == [] && summary == None && currentTab == "pending"
    {
      orders := [];
      summary := None;
      currentTab := "pending";
    }

    /** What the orders area shows for the current state. */
    function View(): Panel
      reads this
    {
      RenderTab(orders, currentTab)
    }

    /** `loadOrderData` given the parsed response of GET /api/orders:
        on success the list and summary replace the old ones and the
        pending-payment alert is raised when the summary counts any; on a
        failed request the old state stays and the error panel is shown. */
    method LoadOrderData(response: Result<(seq<Order>, Listing.Summary), string>)
      returns (alert: bool, showError: bool)
      modifies this
      ensures currentTab == old(currentTab)
      ensures response.Success? ==>
        orders == response.value.0 && summary == Some(response.value.1)
        && View() == RenderTab(response.value.0, currentTab)
      ensures response.Failure? ==> orders == old(orders) && summary == old(summary)
      ensures showError <==> response.Failure?
      ensures alert <==> response.Success? && response.value.1.counts.pending > 0
    {
      match response {
        case Success((list, s)) =>
          orders := list;
          summary := Some(s);
          alert := s.counts.pending > 0;
          showError := false;
        case Failure(_) =>
          alert := false;
          showError := true;
      }
    }

    /** `switchTab`: only the current tab changes. */
    method SwitchTab(tab: string)
      modifies this
      ensures currentTab == tab && orders == old(orders) && summary == old(summary)
      ensures View() == RenderTab(old(orders), tab)
    {
      currentTab := tab;
    }

    /** The four tab counts of `updateTabCounts`. */
    method TabCounts() returns (pending: nat, paid: nat, inProgress: nat, completed: nat)
      ensures pending == |Filter(orders, PendingTab)| && paid == |Filter(orders, PaidTab)|
      ensures inProgress == |Filter(orders, InProgressTab)| && completed == |Filter(orders, CompletedTab)|
      ensures pending + paid + inProgress + completed == Listing.CountWhere(orders, Listing.AllStatuses)
    {
      pending := |Filter(orders, PendingTab)|;
      paid := |Filter(orders, PaidTab)|;
      inProgress := |Filter(orders, InProgressTab)|;
      completed := |Filter(orders, CompletedTab)|;
      TabCountsSum(orders);
    }
  }
}
