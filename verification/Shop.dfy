/** The database tables the order protocol reads and writes.

    Orders and payment intents live in insertion order and are identified by their position;
    a payment row is identified by its order and its position among that order's payments. */
module Shop {
  import opened Prelude
  import opened Pricing

  type Slug = string
  type UserId = string

  datatype Status = Pending | Confirmed | Paid | Shipped | Completed | Cancelled | Refunded

  datatype PaymentStatus = Unsettled | Success | Failed

  datatype Method = Centurion | Escrow | Deposit | Vnpay | Cod | Manual

  datatype Product = Product(priceUsd: nat, priceVnd: nat, stock: int, inBoutique: bool)

  /** `slug` is None for a bespoke line that no product row backs. */
  datatype Line = Line(slug: Option<Slug>, priceUsd: nat, priceVnd: nat, qty: nat)

  datatype Payment = Payment(
    paidBy: Method, amountUsd: nat, status: PaymentStatus, txnRef: Option<string>, expectedVnd: Option<nat>)

  datatype Note =
    | NoNote
    | CustomerCancelled
    | PaymentExpired
    | AdminUpdated
    | RefundNote(ref: string, extra: string)
    | CollectedNote(ref: string, extra: string)

  datatype Event = Event(from: Option<Status>, to: Status, actor: Option<UserId>, note: Note)

  datatype Order = Order(
    code: string, userId: Option<UserId>, contact: string, createdAt: int,
    status: Status, totalUsd: nat, totalVnd: nat, paidUsd: nat, paidVnd: nat,
    lines: seq<Line>, payments: seq<Payment>, events: seq<Event>)

  datatype IntentStatus = Active | Locked | Used | Revoked

  datatype Intent = Intent(
    userId: UserId, maxUsd: nat, status: IntentStatus, orderId: Option<nat>, expiresAt: int)

  datatype KeyRecord = KeyRecord(
    userId: Option<UserId>, contactHash: Option<string>, orderId: nat, createdAt: int)

  datatype Db = Db(
    products: map<Slug, Product>, orders: seq<Order>, intents: seq<Intent>, keys: map<string, KeyRecord>)

  // ---------- Units held by lines and orders ----------

  /** How many units of `s` the lines ask for in total. */
  function Units(lines: seq<Line>, s: Slug): nat {
    if lines == [] then 0
    else (if lines[0].slug == Some(s) then lines[0].qty else 0) + Units(lines[1..], s)
  }

  lemma {:induction false} UnitsSplit(a: seq<Line>, b: seq<Line>, s: Slug)
    ensures Units(a + b, s) == Units(a, s) + Units(b, s)
  {
    if a == [] {
      assert a + b == b;
    } else {
      assert (a + b)[1..] == a[1..] + b;
      UnitsSplit(a[1..], b, s);
    }
  }

  lemma {:induction false} UnitsAbsent(lines: seq<Line>, s: Slug)
    requires forall i :: 0 <= i < |lines| ==> lines[i].slug != Some(s)
    ensures Units(lines, s) == 0
  {
    if lines != [] {
      UnitsAbsent(lines[1..], s);
    }
  }

  /** Cancelled and refunded orders have given their goods back. */
  predicate HoldsStock(status: Status) {
    status != Cancelled && status != Refunded
  }

  function Held(o: Order, s: Slug): nat {
    if HoldsStock(o.status) then Units(o.lines, s) else 0
  }

  function HeldByAll(orders: seq<Order>, s: Slug): nat {
    if orders == [] then 0 else HeldByAll(orders[..|orders| - 1], s) + Held(orders[|orders| - 1], s)
  }

  lemma {:induction false} HeldAfterUpdate(orders: seq<Order>, id: nat, o: Order, s: Slug)
    requires id < |orders|
    ensures HeldByAll(orders[id := o], s) == HeldByAll(orders, s) - Held(orders[id], s) + Held(o, s)
  {
    var n := |orders| - 1;
    if id == n {
      assert orders[id := o][..n] == orders[..n];
    } else {
      assert orders[id := o][..n] == orders[..n][id := o];
      HeldAfterUpdate(orders[..n], id, o, s);
    }
  }

  lemma HeldAfterAppend(orders: seq<Order>, o: Order, s: Slug)
    ensures HeldByAll(orders + [o], s) == HeldByAll(orders, s) + Held(o, s)
  {
    assert (orders + [o])[..|orders|] == orders;
  }

  // ---------- The status graph ----------

  /** The edges an administrator may take. */
  predicate Allowed(from: Status, to: Status) {
    match from
    case Pending => to == Confirmed || to == Paid || to == Cancelled
    case Confirmed => to == Paid || to == Shipped || to == Cancelled
    case Paid => to == Shipped || to == Refunded
    case Shipped => to == Completed
    case Completed | Cancelled | Refunded => false
  }

  const EDGES: set<(Status, Status)> := {
    (Pending, Confirmed), (Pending, Paid), (Pending, Cancelled),
    (Confirmed, Paid), (Confirmed, Shipped), (Confirmed, Cancelled),
    (Paid, Shipped), (Paid, Refunded), (Shipped, Completed)}

  /** The graph has these nine edges. */
  lemma AllowedIff(from: Status, to: Status)
    ensures Allowed(from, to) <==> (from, to) in EDGES
  {
  }

  predicate Terminal(status: Status) {
    status == Completed || status == Cancelled || status == Refunded
  }

  /** Statuses of an order whose money is in, or was. */
  predicate PastPayment(status: Status) {
    status == Paid || status == Shipped || status == Completed || status == Refunded
  }

  /** Where an order can get to in one or more moves. No status reaches itself, so none is revisited. */
  predicate Reaches(from: Status, to: Status) {
    match from
    case Pending => to != Pending
    case Confirmed => to != Pending && to != Confirmed
    case Paid => to == Shipped || to == Completed || to == Refunded
    case Shipped => to == Completed
    case Completed | Cancelled | Refunded => false
  }

  /** It is exactly what repeated moves along allowed edges give, whatever a settlement does, because a
      settlement takes one of those edges too. */
  lemma ReachesIff(from: Status, to: Status)
    ensures Reaches(from, to) <==>
      Allowed(from, to) || exists mid: Status :: Allowed(from, mid) && Reaches(mid, to)
  {
    if Reaches(from, to) && !Allowed(from, to) {
      var mid := if from == Pending then Confirmed else if from == Confirmed then Paid else Shipped;
      var next := if to == Refunded then Paid else mid;
      assert Allowed(from, next) && Reaches(next, to);
    }
  }
}
