/** Every write to the order tables, as one atomic step on the database.

    A step that re-checks its precondition inside the transaction returns None when it lost the race;
    the snapshot arguments are what the caller read earlier and may be out of date. */
module Transactions {
  import opened Prelude
  import opened Text
  import Phone
  import opened Shop
  import opened Checkout

  // ---------- Stock ----------

  function AddStock(ps: map<Slug, Product>, s: Slug, n: nat): map<Slug, Product>
    requires s in ps
  {
    ps[s := ps[s].(stock := ps[s].stock + n)]
  }

  function TakeStock(ps: map<Slug, Product>, s: Slug, n: nat): map<Slug, Product>
    requires s in ps
  {
    ps[s := ps[s].(stock := ps[s].stock - n)]
  }

  /** The conditional decrements of the create transaction, line by line. */
  function Reserve(ps: map<Slug, Product>, lines: seq<Line>): Option<map<Slug, Product>> {
    if lines == [] then Some(ps)
    else
      match lines[0].slug
      case None => Reserve(ps, lines[1..])
      case Some(s) =>
        if s in ps && ps[s].stock >= lines[0].qty then Reserve(TakeStock(ps, s, lines[0].qty), lines[1..])
        else None
  }

  /** Giving goods back, line by line; a line whose product is gone is skipped. */
  function Restock(ps: map<Slug, Product>, lines: seq<Line>): map<Slug, Product> {
    if lines == [] then ps
    else
      match lines[0].slug
      case None => Restock(ps, lines[1..])
      case Some(s) => Restock(if s in ps then AddStock(ps, s, lines[0].qty) else ps, lines[1..])
  }

  /** For each product the lines mention, the summed quantity is in stock. */
  ghost predicate Covers(ps: map<Slug, Product>, lines: seq<Line>) {
    forall i :: 0 <= i < |lines| && lines[i].slug.Some? ==>
      var s := lines[i].slug.value;
      s in ps && Units(lines, s) <= ps[s].stock
  }

  /** All-or-nothing: the line-by-line decrement succeeds exactly when every summed quantity is in stock. */
  lemma {:induction false} ReserveIff(ps: map<Slug, Product>, lines: seq<Line>)
    ensures Reserve(ps, lines).Some? <==> Covers(ps, lines)
  {
    if lines == [] {
    } else {
      var l, rest := lines[0], lines[1..];
      if l.slug.None? {
        ReserveIff(ps, rest);
        assert forall i :: 0 <= i < |rest| ==> rest[i] == lines[i + 1];
        if Covers(ps, rest) {
          forall i | 0 <= i < |lines| && lines[i].slug.Some?
            ensures lines[i].slug.value in ps && Units(lines, lines[i].slug.value) <= ps[lines[i].slug.value].stock
          {
            assert lines[i] == rest[i - 1];
          }
        }
      } else {
        var s := l.slug.value;
        if s in ps && ps[s].stock >= l.qty {
          var ps' := TakeStock(ps, s, l.qty);
          ReserveIff(ps', rest);
          if Covers(ps, lines) {
            forall i | 0 <= i < |rest| && rest[i].slug.Some?
              ensures rest[i].slug.value in ps' && Units(rest, rest[i].slug.value) <= ps'[rest[i].slug.value].stock
            {
              assert rest[i] == lines[i + 1];
            }
          }
          if Covers(ps', rest) {
            CoversGrows(ps, lines, s);
          }
        }
      }
    }
  }

  lemma CoversGrows(ps: map<Slug, Product>, lines: seq<Line>, s: Slug)
    requires |lines| > 0 && lines[0].slug == Some(s) && s in ps && ps[s].stock >= lines[0].qty
    requires Covers(TakeStock(ps, s, lines[0].qty), lines[1..])
    ensures Covers(ps, lines)
  {
    var rest := lines[1..];
    var ps' := TakeStock(ps, s, lines[0].qty);
    assert Units(rest, s) <= ps'[s].stock by {
      if j :| 0 <= j < |rest| && rest[j].slug == Some(s) {
      } else {
        UnitsAbsent(rest, s);
      }
    }
    forall i | 0 <= i < |lines| && lines[i].slug.Some?
      ensures lines[i].slug.value in ps && Units(lines, lines[i].slug.value) <= ps[lines[i].slug.value].stock
    {
      if i > 0 {
        assert lines[i] == rest[i - 1];
      }
    }
  }

  /** `after` is `before` with `sign` times the lines' units added to each product's stock. */
  ghost predicate StockMoved(before: map<Slug, Product>, after: map<Slug, Product>, lines: seq<Line>, sign: int) {
    && after.Keys == before.Keys
    && forall s :: s in before ==> after[s] == before[s].(stock := before[s].stock + sign * Units(lines, s))
  }

  lemma {:induction false} ReserveExact(ps: map<Slug, Product>, lines: seq<Line>)
    requires Reserve(ps, lines).Some?
    ensures StockMoved(ps, Reserve(ps, lines).value, lines, -1)
  {
    if lines != [] {
      match lines[0].slug
      case None => ReserveExact(ps, lines[1..]);
      case Some(s) => ReserveExact(TakeStock(ps, s, lines[0].qty), lines[1..]);
    }
  }

  lemma {:induction false} RestockExact(ps: map<Slug, Product>, lines: seq<Line>)
    ensures StockMoved(ps, Restock(ps, lines), lines, 1)
  {
    if lines != [] {
      match lines[0].slug
      case None => RestockExact(ps, lines[1..]);
      case Some(s) => RestockExact(if s in ps then AddStock(ps, s, lines[0].qty) else ps, lines[1..]);
    }
  }

  /** Cancelling an order undoes what placing it took. */
  lemma RestockUndoesReserve(ps: map<Slug, Product>, lines: seq<Line>)
    requires Reserve(ps, lines).Some?
    ensures Restock(Reserve(ps, lines).value, lines) == ps
  {
    var taken := Reserve(ps, lines).value;
    ReserveExact(ps, lines);
    RestockExact(taken, lines);
    assert forall s :: s in ps ==> Restock(taken, lines)[s] == ps[s];
  }

  // ---------- Placing an order ----------

  datatype CreateOutcome = Created(db: Db) | OutOfStock | CodeTaken

  predicate CodeInUse(orders: seq<Order>, code: string) {
    exists i :: 0 <= i < |orders| && orders[i].code == code
  }

  /** One attempt of the create transaction: reserve, then insert under a unique code. */
  function CommitCreate(db: Db, d: Draft, code: string, now: int): CreateOutcome {
    match Reserve(db.products, d.quote.lines)
    case None => OutOfStock
    case Some(ps) =>
      if CodeInUse(db.orders, code) then CodeTaken
      else Created(db.(products := ps, orders := db.orders + [NewOrder(d, code, now)]))
  }

  /** The create transaction commits exactly when every summed quantity is in stock and the code is
      free; it then takes exactly those sums and adds one order. */
  lemma CommitCreateIff(db: Db, d: Draft, code: string, now: int)
    ensures CommitCreate(db, d, code, now).Created?
      <==> Covers(db.products, d.quote.lines) && !CodeInUse(db.orders, code)
    ensures CommitCreate(db, d, code, now).OutOfStock? <==> !Covers(db.products, d.quote.lines)
    ensures CommitCreate(db, d, code, now).Created? ==>
      var db' := CommitCreate(db, d, code, now).db;
      && StockMoved(db.products, db'.products, d.quote.lines, -1)
      && db'.orders == db.orders + [NewOrder(d, code, now)]
      && db'.intents == db.intents && db'.keys == db.keys
  {
    ReserveIff(db.products, d.quote.lines);
    if Reserve(db.products, d.quote.lines).Some? {
      ReserveExact(db.products, d.quote.lines);
    }
  }

  // ---------- Moving an order along the graph ----------

  function Move(o: Order, to: Status, actor: Option<UserId>, note: Note): Order {
    o.(status := to, events := o.events + [Event(Some(o.status), to, actor, note)])
  }

  /** The cancelling transaction of customers and of the hourly expiry. */
  function CommitCancel(db: Db, id: nat, lines: seq<Line>, actor: Option<UserId>, note: Note): Option<Db> {
    if id < |db.orders| && db.orders[id].status == Pending then
      Some(db.(products := Restock(db.products, lines),
               orders := db.orders[id := Move(db.orders[id], Cancelled, actor, note)]))
    else None
  }

  /** The hourly expiry takes at most this many orders at a time. */
  const MAX_PER_SCAN := 100

  datatype Claimant = Claimant(userId: Option<UserId>, contact: Option<string>)

  predicate Owns(o: Order, who: Claimant) {
    || (who.userId.Some? && o.userId == who.userId)
    || (who.contact.Some? && Phone.SameContact(o.contact, who.contact.value))
  }

  function CancelRefused(o: Order, who: Claimant): Option<Error> {
    if o.status != Pending then Some(NotPending)
    else if !Owns(o, who) then Some(NotOwner)
    else None
  }

  /** What an administrator asks for; `target` is None when the text names no status. */
  datatype AdminRequest = AdminRequest(
    target: Option<Status>, refundRef: string, paymentRef: string, extra: string, actor: Option<UserId>)

  function Reference(raw: string): string {
    Take(Trim(raw), 200)
  }

  predicate ManualPaid(from: Status, to: Status) {
    to == Paid && (from == Pending || from == Confirmed)
  }

  predicate GivesBack(from: Status, to: Status) {
    (to == Cancelled && (from == Pending || from == Confirmed)) || to == Refunded
  }

  function AdminRefused(current: Order, req: AdminRequest): Option<Error> {
    match req.target
    case None => Some(BadStatus)
    case Some(to) =>
      if !Allowed(current.status, to) then Some(BadTransition)
      else if to == Refunded && Reference(req.refundRef) == "" then Some(RefMissing)
      else if ManualPaid(current.status, to) && Reference(req.paymentRef) == "" then Some(RefMissing)
      else None
  }

  function AdminNote(from: Status, to: Status, req: AdminRequest): Note {
    if to == Refunded then RefundNote(Reference(req.refundRef), Reference(req.extra))
    else if ManualPaid(from, to) then CollectedNote(Reference(req.paymentRef), Reference(req.extra))
    else AdminUpdated
  }

  /** The row a confirmed bank transfer leaves, from the amounts read before the transaction. */
  function Collect(o: Order, snap: Order, ref: string): Order {
    var rest := if snap.totalUsd < snap.paidUsd then 0 else snap.totalUsd - snap.paidUsd;
    o.(payments := o.payments + [Payment(Manual, rest, Success, Some(ref), None)],
       paidUsd := snap.totalUsd, paidVnd := snap.totalVnd)
  }

  function CommitAdmin(db: Db, id: nat, snap: Order, req: AdminRequest): Option<Db>
    requires req.target.Some?
  {
    var to := req.target.value;
    if id < |db.orders| && db.orders[id].status == snap.status then
      var ps := if GivesBack(snap.status, to) then Restock(db.products, snap.lines) else db.products;
      var o := db.orders[id];
      var paid := if ManualPaid(snap.status, to) then Collect(o, snap, Reference(req.paymentRef)) else o;
      Some(db.(products := ps,
               orders := db.orders[id := Move(paid, to, req.actor, AdminNote(snap.status, to, req))]))
    else None
  }

  // ---------- VNPay ----------

  predicate HasRow(db: Db, id: nat, row: nat) {
    id < |db.orders| && row < |db.orders[id].payments|
  }

  function RowStatus(db: Db, id: nat, row: nat): PaymentStatus
    requires HasRow(db, id, row)
  {
    db.orders[id].payments[row].status
  }

  function SettleRow(o: Order, row: nat, ok: bool): Order
    requires row < |o.payments|
  {
    var p := o.payments[row].(status := if ok then Success else Failed);
    o.(payments := o.payments[row := p], status := if ok && o.status == Pending then Paid else o.status)
  }

  /** The settling transaction: only an unsettled row moves, and the order follows only while pending. */
  function SettleAtomically(db: Db, id: nat, row: nat, ok: bool): Option<Db> {
    if HasRow(db, id, row) && RowStatus(db, id, row) == Unsettled then
      Some(db.(orders := db.orders[id := SettleRow(db.orders[id], row, ok)]))
    else None
  }

  /** After a collected payment the order is Paid exactly when it was pending or already Paid: money
      that arrives for a cancelled order stays beside it. */
  lemma CollectedLandsIff(db: Db, id: nat, row: nat)
    requires SettleAtomically(db, id, row, true).Some?
    ensures var db' := SettleAtomically(db, id, row, true).value;
      && RowStatus(db', id, row) == Success
      && (db'.orders[id].status == Paid <==> db.orders[id].status == Pending || db.orders[id].status == Paid)
  {
  }

  /** An order can have several open payment links, and nothing stops two of them collecting: a second
      link collects exactly when its own row is still unsettled, whatever the first one did. */
  lemma SecondLinkCollectsIff(db: Db, id: nat, first: nat, second: nat)
    requires first != second && HasRow(db, id, second)
    requires SettleAtomically(db, id, first, true).Some?
    ensures var once := SettleAtomically(db, id, first, true).value;
      && (SettleAtomically(once, id, second, true).Some? <==> RowStatus(db, id, second) == Unsettled)
      && (RowStatus(db, id, second) == Unsettled ==>
            var twice := SettleAtomically(once, id, second, true).value;
            && RowStatus(twice, id, first) == Success && RowStatus(twice, id, second) == Success
            && twice.orders[id].status == once.orders[id].status)
  {
  }

  const MAX_OPEN_LINKS := 3

  function OpenLinks(payments: seq<Payment>): nat {
    if payments == [] then 0
    else OpenLinks(payments[..|payments| - 1]) + if payments[|payments| - 1].status == Unsettled then 1 else 0
  }

  /** Who may ask for a payment link, and when. */
  predicate MayAsk(o: Order, who: Claimant) {
    && (match o.userId
        case Some(_) => o.userId == who.userId
        case None => Phone.SameContact(o.contact, match who.contact case None => "" case Some(c) => c))
    && o.status == Pending
  }

  predicate MayPay(o: Order, who: Claimant) {
    MayAsk(o, who) && OpenLinks(o.payments) < MAX_OPEN_LINKS
  }

  /** A new payment link freezes the total read before. */
  function InsertLink(db: Db, id: nat, snap: Order, txnRef: string): Db {
    if id < |db.orders| then
      var row := Payment(Vnpay, snap.totalUsd, Unsettled, Some(txnRef), Some(snap.totalVnd));
      db.(orders := db.orders[id := db.orders[id].(payments := db.orders[id].payments + [row])])
    else db
  }

  // ---------- Payment intents ----------

  /** Granting a new limit first revokes the user's active ones. */
  function RevokeActive(intents: seq<Intent>, user: UserId): (r: seq<Intent>)
    ensures |r| == |intents|
    ensures forall j :: 0 <= j < |r| ==>
      r[j] == if intents[j].userId == user && intents[j].status == Active
              then intents[j].(status := Revoked) else intents[j]
  {
    if intents == [] then []
    else
      var n := |intents| - 1;
      var last := intents[n];
      RevokeActive(intents[..n], user)
      + [if last.userId == user && last.status == Active then last.(status := Revoked) else last]
  }

  predicate IntentFits(db: Db, j: nat, d: Draft, now: int) {
    && j < |db.intents|
    && d.userId == Some(db.intents[j].userId)
    && db.intents[j].status == Active
    && now < db.intents[j].expiresAt
    && d.quote.totalUsd <= db.intents[j].maxUsd
    && d.paidBy == Vnpay
  }

  function LockIntent(db: Db, j: nat): Option<Db> {
    if j < |db.intents| && db.intents[j].status == Active then
      Some(db.(intents := db.intents[j := db.intents[j].(status := Locked)]))
    else None
  }

  function UseIntent(db: Db, j: nat, order: nat): Db {
    if j < |db.intents| then
      db.(intents := db.intents[j := db.intents[j].(status := Used, orderId := Some(order))])
    else db
  }
}
