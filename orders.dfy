/** The order record of backend/server.js and the rules its handlers apply to
    it: the required-field check and record construction of create-order, the
    `ECOSPIN-NNNN` identifier, payment confirmation, the status allow-list and
    transition, lookup and deletion. Each handler's decision is a function of
    the order map (and counter) it sees; the class in server.dfy applies them
    to the mutable state. */
module Orders {
  import opened Base
  import Text

  const Prefix: string := "ECOSPIN-"
  const ManualMpesa: string := "manual_mpesa"

  const PendingPayment: string := "pending_payment"
  const Paid: string := "paid"
  const PickupScheduled: string := "pickup_scheduled"
  const PickedUp: string := "picked_up"
  const InProgress: string := "in_progress"
  const ReadyForDelivery: string := "ready_for_delivery"
  const Delivered: string := "delivered"

  /** The seven statuses updateStatus accepts, in the source's order. */
  const AllowedStatuses: seq<string> :=
    [PendingPayment, Paid, PickupScheduled, PickedUp, InProgress, ReadyForDelivery, Delivered]

  predicate IsAllowedStatus(s: string) {
    s in AllowedStatuses
  }

  datatype MpesaInstructions = MpesaInstructions(amount: int, phoneNumber: Option<string>, reference: string)

  /** One stored order. Timestamps are milliseconds; `None` is JavaScript's
      `null`/absent. An empty string stands for an absent text field. */
  datatype Order = Order(
    id: string,
    service: string,
    price: int,
    customerName: string,
    customerPhone: string,
    address: string,
    notes: string,
    status: string,
    paymentMethod: string,
    mpesaCode: Option<string>,
    createdAt: nat,
    paidAt: Option<nat>,
    updatedAt: nat,
    mpesaInstructions: MpesaInstructions,
    pickupScheduled: bool,
    pickupDate: Option<nat>,
    deliveryDate: Option<nat>,
    adminNotes: string)

  /** The body of POST /api/create-order. `price` is the already-parsed
      number (`None` when absent); an empty string is an absent text field. */
  datatype CreateInput = CreateInput(
    service: string, price: Option<int>, name: string, phone: string, address: string, notes: string)

  datatype Error = MissingFields | NotFound | AlreadyPaid | InvalidStatus

  /** The HTTP status each handler answers an error with. */
  function HttpStatus(e: Error): (code: nat)
    ensures 400 <= code < 500
    ensures code == 404 <==> e == NotFound
  {
    match e
    case NotFound => 404
    case _ => 400
  }

  /** `parsed.counter || 1`: a missing, unreadable or zero counter starts
      the numbering at 1. */
  function CounterOnLoad(stored: Option<nat>): (c: nat)
    ensures c >= 1
    ensures stored.None? || stored == Some(0) ==> c == 1
    ensures stored.Some? && stored.value > 0 ==> c == stored.value
  {
    if stored.Some? && stored.value != 0 then stored.value else 1
  }

  function Pow10(k: nat): (p: nat)
    ensures p >= 1
  {
    if k == 0 then 1 else 10 * Pow10(k - 1)
  }

  /** The decimal form of `n` has at most `k` digits exactly when n < 10^k. */
  lemma {:induction false} DecimalLength(n: nat, k: nat)
    requires k >= 1
    ensures |Text.NatToDecimal(n)| <= k <==> n < Pow10(k)
    decreases n
  {
    if n >= 10 {
      if k == 1 {
        assert Pow10(1) == 10;
      } else {
        DecimalLength(n / 10, k - 1);
        assert n / 10 < Pow10(k - 1) <==> n < 10 * Pow10(k - 1);
      }
    } else {
      assert Pow10(k) >= 10 by {
        if k > 1 { assert Pow10(k) == 10 * Pow10(k - 1); }
      }
    }
  }

  /** `ECOSPIN-` followed by the counter padded with zeros to 4 digits;
      counters past 9999 are written out in full. */
  function OrderId(counter: nat): (id: string)
    ensures |id| >= 12 && id[..8] == Prefix
    ensures counter <= 9999 ==> |id| == 12
    ensures counter > 9999 ==> |id| == 8 + |Text.NatToDecimal(counter)| > 12
  {
    DecimalLength(counter, 4);
    Prefix + Text.PadStart(Text.NatToDecimal(counter), 4, '0')
  }

  /** The counter an identifier was rendered from, if it has the shape
      `ECOSPIN-` followed by digits: the inverse of OrderId. */
  function CounterOf(id: string): Option<nat>
  {
    if |id| > 8 && id[..8] == Prefix && Text.AllDigits(id[8..])
    then Some(Text.DecimalValue(id[8..]))
    else None
  }

  lemma OrderIdRoundTrip(n: nat)
    ensures CounterOf(OrderId(n)) == Some(n)
  {
    var d := Text.NatToDecimal(n);
    var p := Text.PadStart(d, 4, '0');
    var k := |p| - |d|;
    assert p == Text.Repeat('0', k) + d;
    Text.LeadingZerosIgnored(k, d);
    Text.DecimalRoundTrip(n);
    assert OrderId(n)[8..] == p;
  }

  /** Different counter values never render to the same identifier. */
  lemma OrderIdInjective(m: nat, n: nat)
    ensures OrderId(m) == OrderId(n) ==> m == n
  {
    OrderIdRoundTrip(m);
    OrderIdRoundTrip(n);
  }

  /** The guard `!service || !price || !name || !phone || !address`. */
  predicate MissingRequired(input: CreateInput) {
    input.service == "" || input.price.None? || input.price == Some(0)
    || input.name == "" || input.phone == "" || input.address == ""
  }

  /** What create-order promises about the record it stores. */
  predicate PlacedFrom(o: Order, input: CreateInput, now: nat, businessNumber: Option<string>) {
    && o.service == input.service && input.price == Some(o.price)
    && o.customerName == input.name && o.customerPhone == input.phone
    && o.address == input.address && o.notes == input.notes
    && o.status == PendingPayment && o.paymentMethod == ManualMpesa
    && o.mpesaCode.None? && o.paidAt.None? && o.adminNotes == ""
    && o.createdAt == now && o.updatedAt == now
    && o.mpesaInstructions == MpesaInstructions(o.price, businessNumber, o.id)
    && !o.pickupScheduled && o.pickupDate.None? && o.deliveryDate.None?
  }

  function NewOrder(id: string, input: CreateInput, now: nat, businessNumber: Option<string>): (o: Order)
    requires input.price.Some?
    ensures o.id == id && PlacedFrom(o, input, now, businessNumber)
  {
    Order(
      id := id, service := input.service, price := input.price.value,
      customerName := input.name, customerPhone := input.phone, address := input.address,
      notes := input.notes, status := PendingPayment, paymentMethod := ManualMpesa,
      mpesaCode := None, createdAt := now, paidAt := None, updatedAt := now,
      mpesaInstructions := MpesaInstructions(input.price.value, businessNumber, id),
      pickupScheduled := false, pickupDate := None, deliveryDate := None, adminNotes := "")
  }

  /** The outcome of create-order with counter `counter`: MissingFields, or
      the new record under the identifier rendered from the counter. */
  function Create(counter: nat, input: CreateInput, now: nat, businessNumber: Option<string>): (r: Result<Order, Error>)
    ensures r.Failure? <==> MissingRequired(input)
    ensures r.Failure? ==> r.error == MissingFields
    ensures r.Success? ==> r.value.id == OrderId(counter) && PlacedFrom(r.value, input, now, businessNumber)
  {
    if MissingRequired(input) then Failure(MissingFields)
    else Success(NewOrder(OrderId(counter), input, now, businessNumber))
  }

  /** Two versions of an order agree on everything but the lifecycle fields
      (status, paidAt, updatedAt, mpesaCode, adminNotes). */
  predicate SameDetails(a: Order, b: Order) {
    && a.id == b.id && a.service == b.service && a.price == b.price
    && a.customerName == b.customerName && a.customerPhone == b.customerPhone
    && a.address == b.address && a.notes == b.notes && a.paymentMethod == b.paymentMethod
    && a.createdAt == b.createdAt && a.mpesaInstructions == b.mpesaInstructions
    && a.pickupScheduled == b.pickupScheduled && a.pickupDate == b.pickupDate
    && a.deliveryDate == b.deliveryDate
  }

  /** GET /api/order/:orderId. */
  function Lookup(orders: map<string, Order>, id: string): (r: Result<Order, Error>)
    ensures r.Success? <==> id in orders
    ensures r.Success? ==> r.value == orders[id]
    ensures r.Failure? ==> r.error == NotFound
  {
    if id in orders then Success(orders[id]) else Failure(NotFound)
  }

  /** POST /api/confirm-payment/:orderId with body code `code` ("" when
      absent): NotFound, AlreadyPaid for an order whose status is exactly
      `paid`, otherwise the order marked paid at `now`. */
  function Confirm(orders: map<string, Order>, id: string, code: string, now: nat): (r: Result<Order, Error>)
    ensures r == Failure(NotFound) <==> id !in orders
    ensures r == Failure(AlreadyPaid) <==> id in orders && orders[id].status == Paid
    ensures r.Success? <==> id in orders && orders[id].status != Paid
    ensures r.Success? ==>
      var o, p := orders[id], r.value;
      && SameDetails(o, p) && p.adminNotes == o.adminNotes
      && p.status == Paid && p.paidAt == Some(now) && p.updatedAt == now
      && p.mpesaCode == (if code != "" then Some(code) else o.mpesaCode)
  {
    if id !in orders then Failure(NotFound)
    else
      var o := orders[id];
      if o.status == Paid then Failure(AlreadyPaid)
      else
        var p := o.(status := Paid, paidAt := Some(now), updatedAt := now);
        Success(if code != "" then p.(mpesaCode := Some(code)) else p)
  }

  /** PUT /api/order/:orderId/status: NotFound, InvalidStatus for a status
      outside the allow-list, otherwise the order with its new status, its
      notes overwritten only by non-empty notes, and `paidAt` set only on
      entry into `paid`. */
  function ChangeStatus(orders: map<string, Order>, id: string, status: string, adminNotes: string, now: nat)
    : (r: Result<Order, Error>)
    ensures r == Failure(NotFound) <==> id !in orders
    ensures r == Failure(InvalidStatus) <==> id in orders && !IsAllowedStatus(status)
    ensures r.Success? <==> id in orders && IsAllowedStatus(status)
    ensures r.Success? ==>
      var o, p := orders[id], r.value;
      && SameDetails(o, p) && p.mpesaCode == o.mpesaCode
      && p.status == status && p.updatedAt == now
      && p.adminNotes == (if adminNotes != "" then adminNotes else o.adminNotes)
      && p.paidAt == (if status == Paid && o.status != Paid then Some(now) else o.paidAt)
  {
    if id !in orders then Failure(NotFound)
    else if !IsAllowedStatus(status) then Failure(InvalidStatus)
    else
      var o := orders[id];
      var p := o.(status := status, updatedAt := now,
                  adminNotes := if adminNotes != "" then adminNotes else o.adminNotes);
      Success(if status == Paid && o.status != Paid then p.(paidAt := Some(now)) else p)
  }

  /** `notifyCustomer && oldStatus !== status`: whether a status update sends
      the status-update notification. */
  predicate NotifiesOnUpdate(oldStatus: string, newStatus: string, notifyCustomer: bool) {
    notifyCustomer && oldStatus != newStatus
  }

  /** DELETE /api/order/:orderId: the map without that order, or NotFound. */
  function Remove(orders: map<string, Order>, id: string): (r: Result<map<string, Order>, Error>)
    ensures r.Success? <==> id in orders
    ensures r.Failure? ==> r.error == NotFound
    ensures r.Success? ==> r.value.Keys == orders.Keys - {id} && |r.value| == |orders| - 1
    ensures r.Success? ==> forall k :: k in r.value ==> r.value[k] == orders[k]
  {
    if id in orders then Success(orders - {id}) else Failure(NotFound)
  }

  // Properties relating several handler calls.

  /** A second confirmation of the same order is refused and would not touch
      `paidAt` again. */
  lemma ConfirmTwiceRejected(orders: map<string, Order>, id: string, code1: string, code2: string, t1: nat, t2: nat)
    requires Confirm(orders, id, code1, t1).Success?
    ensures Confirm(orders[id := Confirm(orders, id, code1, t1).value], id, code2, t2) == Failure(AlreadyPaid)
  {
  }

  /** Confirmation applies to every status but `paid`, `delivered` included. */
  lemma ConfirmAcceptsEveryOtherStatus(orders: map<string, Order>, id: string, code: string, now: nat)
    requires id in orders && orders[id].status in AllowedStatuses && orders[id].status != Paid
    ensures Confirm(orders, id, code, now).Success?
  {
  }

  /** Marking an order `paid` through a status update blocks a later
      confirmation. */
  lemma ChangeToPaidBlocksConfirm(orders: map<string, Order>, id: string, notes: string, code: string, t1: nat, t2: nat)
    requires ChangeStatus(orders, id, Paid, notes, t1).Success?
    ensures Confirm(orders[id := ChangeStatus(orders, id, Paid, notes, t1).value], id, code, t2) == Failure(AlreadyPaid)
  {
  }

  /** Re-entering `paid` from `paid` keeps the original payment time. */
  lemma RepeatedPaidKeepsPaidAt(orders: map<string, Order>, id: string, notes: string, now: nat)
    requires id in orders && orders[id].status == Paid
    ensures ChangeStatus(orders, id, Paid, notes, now).value.paidAt == orders[id].paidAt
  {
  }

  /** After a delete, lookup of the same id fails with NotFound. */
  lemma DeleteThenLookup(orders: map<string, Order>, id: string)
    requires Remove(orders, id).Success?
    ensures Lookup(Remove(orders, id).value, id) == Failure(NotFound)
  {
  }

  /** Create then lookup returns the record built from the input. */
  lemma CreateThenLookup(orders: map<string, Order>, counter: nat, input: CreateInput, now: nat, bn: Option<string>)
    requires !MissingRequired(input)
    ensures var o := Create(counter, input, now, bn).value;
      Lookup(orders[o.id := o], OrderId(counter)) == Success(o) && PlacedFrom(o, input, now, bn)
  {
  }
}
