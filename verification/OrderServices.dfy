/** The services themselves: methods that change tables row by row inside a transaction and put the rows
    back when it fails. Each is proved to do exactly what its atomic step says. */
module OrderServices {
  import opened Prelude
  import opened Text
  import opened Shop
  import opened Checkout
  import opened Transactions
  import Phone

  class Database {
    var products: map<Slug, Product>
    var orders: seq<Order>
    var intents: seq<Intent>
    var keys: map<string, KeyRecord>

    constructor (db: Db)
      ensures State() == db
    {
      products, orders, intents, keys := db.products, db.orders, db.intents, db.keys;
    }

    function State(): Db
      reads this
    {
      Db(products, orders, intents, keys)
    }

    /** Gives goods back line by line. */
    method Return(lines: seq<Line>)
      modifies this`products
      ensures products == Restock(old(products), lines)
    {
      for i := 0 to |lines|
        invariant Restock(products, lines[i..]) == Restock(old(products), lines)
      {
        var rest := lines[i..];
        assert rest[0] == lines[i] && rest[1..] == lines[i + 1..];
        match lines[i].slug {
          case None =>
          case Some(s) =>
            if s in products {
              products := AddStock(products, s, lines[i].qty);
            }
        }
      }
    }

    /** Takes goods line by line, stopping at the first line that finds too few. */
    method Take(lines: seq<Line>) returns (ok: bool)
      modifies this`products
      ensures ok == Reserve(old(products), lines).Some?
      ensures ok ==> Reserve(old(products), lines) == Some(products)
    {
      for i := 0 to |lines|
        invariant Reserve(products, lines[i..]) == Reserve(old(products), lines)
      {
        var rest := lines[i..];
        assert rest[0] == lines[i] && rest[1..] == lines[i + 1..];
        match lines[i].slug {
          case None =>
          case Some(s) =>
            if s !in products || products[s].stock < lines[i].qty {
              return false;
            }
            products := TakeStock(products, s, lines[i].qty);
        }
      }
      return true;
    }
  }

  // ---------- Orders ----------

  const MAX_ATTEMPTS := 6

  /** The retry loop: out of stock gives up, a taken code tries the next one. */
  function TryCodes(db: Db, d: Draft, codes: seq<string>, now: int): Result<Db, Error> {
    if codes == [] then Err(CodesExhausted)
    else
      match CommitCreate(db, d, codes[0], now)
      case OutOfStock => Err(SoldOut)
      case CodeTaken => TryCodes(db, d, codes[1..], now)
      case Created(db') => Ok(db')
  }

  /** The first drawn code that no order has, or the number of codes when all are taken. */
  function FirstFree(orders: seq<Order>, codes: seq<string>): (i: nat)
    ensures i <= |codes|
    ensures forall k :: 0 <= k < i ==> CodeInUse(orders, codes[k])
    ensures i < |codes| ==> !CodeInUse(orders, codes[i])
  {
    if codes == [] || !CodeInUse(orders, codes[0]) then 0 else 1 + FirstFree(orders, codes[1..])
  }

  /** An order is placed exactly when the goods are there and some drawn code is free; it takes exactly
      the summed quantities and carries the first free code. */
  lemma {:induction false} TryCodesIff(db: Db, d: Draft, codes: seq<string>, now: int)
    requires codes != []
    ensures var r, i := TryCodes(db, d, codes, now), FirstFree(db.orders, codes);
      && (r == Err(SoldOut) <==> !Covers(db.products, d.quote.lines))
      && (r.Ok? <==> Covers(db.products, d.quote.lines) && i < |codes|)
      && (r.Ok? ==>
            && StockMoved(db.products, r.value.products, d.quote.lines, -1)
            && r.value == db.(products := r.value.products, orders := db.orders + [NewOrder(d, codes[i], now)]))
  {
    CommitCreateIff(db, d, codes[0], now);
    if CommitCreate(db, d, codes[0], now).CodeTaken? && codes[1..] != [] {
      TryCodesIff(db, d, codes[1..], now);
    }
  }

  class OrdersService {
    const prisma: Database

    constructor (prisma: Database)
      ensures this.prisma == prisma
    {
      this.prisma := prisma;
    }

    /** One transaction: decrement the stock of every line, then insert the order, or leave no trace. */
    method CreateTransaction(d: Draft, code: string, now: int) returns (r: CreateOutcome)
      modifies prisma
      ensures r == CommitCreate(old(prisma.State()), d, code, now)
      ensures prisma.State() == if r.Created? then r.db else old(prisma.State())
    {
      var before := prisma.products;
      var ok := prisma.Take(d.quote.lines);
      if !ok {
        prisma.products := before;
        return OutOfStock;
      }
      if CodeInUse(prisma.orders, code) {
        prisma.products := before;
        return CodeTaken;
      }
      prisma.orders := prisma.orders + [NewOrder(d, code, now)];
      return Created(prisma.State());
    }

    method Place(d: Draft, codes: seq<string>, now: int) returns (r: Result<Db, Error>)
      requires |codes| == 6
      modifies prisma
      ensures r == TryCodes(old(prisma.State()), d, codes, now)
      ensures prisma.State() == if r.Ok? then r.value else old(prisma.State())
    {
      for attempt := 0 to MAX_ATTEMPTS
        invariant prisma.State() == old(prisma.State())
        invariant TryCodes(prisma.State(), d, codes[attempt..], now) == TryCodes(prisma.State(), d, codes, now)
      {
        assert codes[attempt..][1..] == codes[attempt + 1..];
        var outcome := CreateTransaction(d, codes[attempt], now);
        match outcome {
          case OutOfStock => return Err(SoldOut);
          case CodeTaken =>
          case Created(db) => return Ok(db);
        }
      }
      return Err(CodesExhausted);
    }

    /** A pending order is cancelled for the signed-in user it belongs to, or for whoever gives its contact
        in any spelling; being signed in as nobody is not belonging to nobody. The goods go back in the same
        transaction. */
    method Cancel(id: nat, who: Claimant) returns (e: Option<Error>)
      modifies prisma
      ensures e == Some(NotFound) <==> id >= |old(prisma.orders)|
      ensures e == Some(NotPending) <==> id < |old(prisma.orders)| && old(prisma.orders)[id].status != Pending
      ensures e.None? <==>
        && id < |old(prisma.orders)| && old(prisma.orders)[id].status == Pending
        && (|| (who.userId.Some? && old(prisma.orders)[id].userId == Some(who.userId.value))
            || (who.contact.Some? && Phone.SameContact(old(prisma.orders)[id].contact, who.contact.value)))
      ensures e.None? || e == Some(NotFound) || e == Some(NotPending) || e == Some(NotOwner)
      ensures e.Some? ==> prisma.State() == old(prisma.State())
      ensures e.None? ==>
        && id < |prisma.orders|
        && var o, o' := old(prisma.orders)[id], prisma.orders[id];
        && prisma.orders == old(prisma.orders)[id := o']
        && StockMoved(old(prisma.products), prisma.products, o.lines, 1)
        && o' == o.(status := Cancelled, events := o'.events)
        && o'.events == o.events + [Event(Some(Pending), Cancelled, who.userId, CustomerCancelled)]
      ensures e.None? ==>
        Some(prisma.State())
        == CommitCancel(old(prisma.State()), id, old(prisma.orders)[id].lines, who.userId, CustomerCancelled)
    {
      if id >= |prisma.orders| {
        return Some(NotFound);
      }
      var order := prisma.orders[id];
      e := CancelRefused(order, who);
      if e.Some? {
        return;
      }
      prisma.orders := prisma.orders[id := Move(order, Cancelled, who.userId, CustomerCancelled)];
      prisma.Return(order.lines);
      RestockExact(old(prisma.products), order.lines);
    }
  }

  // ---------- Administrators ----------

  lemma ReferenceBlankIff(raw: string)
    ensures Reference(raw) == Text.Take(Trim(raw), 200)
    ensures Reference(raw) == "" <==> Trim(raw) == ""
  {
  }

  /** What an administrator's update makes of an order's row: the status and one event, and for a manual
      confirmation a receipt for what was still owed, with everything then booked. */
  ghost predicate UpdatedTo(o: Order, o': Order, to: Status, req: AdminRequest) {
    && o' == o.(status := to, events := o'.events, payments := o'.payments,
                paidUsd := o'.paidUsd, paidVnd := o'.paidVnd)
    && |o'.events| == |o.events| + 1
    && o'.events == o.events + [Event(Some(o.status), to, req.actor, o'.events[|o.events|].note)]
    && var note := o'.events[|o.events|].note;
    && (to != Refunded && to != Paid ==> note == AdminUpdated)
    && (to == Refunded ==> note == RefundNote(Text.Take(Trim(req.refundRef), 200), Text.Take(Trim(req.extra), 200)))
    && (to == Paid ==> note == CollectedNote(Text.Take(Trim(req.paymentRef), 200), Text.Take(Trim(req.extra), 200)))
    && (if to == Paid then
          && o'.paidUsd == o.totalUsd && o'.paidVnd == o.totalVnd && |o'.payments| == |o.payments| + 1
          && var owed := o'.payments[|o.payments|].amountUsd;
          && owed == (if o.paidUsd <= o.totalUsd then o.totalUsd - o.paidUsd else 0)
          && o'.payments == o.payments
             + [Payment(Manual, owed, Success, Some(Text.Take(Trim(req.paymentRef), 200)), None)]
        else o'.payments == o.payments && o'.paidUsd == o.paidUsd && o'.paidVnd == o.paidVnd)
  }

  class AdminOrdersService {
    const prisma: Database
    var statsCache: Option<int>

    constructor (prisma: Database)
      ensures this.prisma == prisma && statsCache == None
    {
      this.prisma := prisma;
      statsCache := None;
    }

    /** Status, goods, payment row and event change together, and the dashboard cache is dropped. */
    method UpdateStatus(id: nat, req: AdminRequest) returns (e: Option<Error>)
      modifies prisma, this`statsCache
      ensures e == Some(BadStatus) <==> req.target.None?
      ensures e == Some(NotFound) <==> req.target.Some? && id >= |old(prisma.orders)|
      ensures req.target.Some? && id < |old(prisma.orders)| ==>
        var from, to := old(prisma.orders)[id].status, req.target.value;
        var blank := (to == Refunded && Trim(req.refundRef) == "") || (to == Paid && Trim(req.paymentRef) == "");
        && (e == Some(BadTransition) <==> (from, to) !in EDGES)
        && (e == Some(RefMissing) <==> (from, to) in EDGES && blank)
        && (e.None? <==> (from, to) in EDGES && !blank)
      ensures e.None? ==>
        && id < |prisma.orders|
        && var o, o' := old(prisma.orders)[id], prisma.orders[id];
        && prisma.orders == old(prisma.orders)[id := o'] && UpdatedTo(o, o', req.target.value, req)
        && (if req.target == Some(Cancelled) || req.target == Some(Refunded)
            then StockMoved(old(prisma.products), prisma.products, o.lines, 1)
            else prisma.products == old(prisma.products))
      ensures e.Some? ==> prisma.State() == old(prisma.State()) && statsCache == old(statsCache)
      ensures e.None? ==>
        && statsCache == None
        && Some(prisma.State()) == CommitAdmin(old(prisma.State()), id, old(prisma.orders)[id], req)
    {
      if req.target.None? {
        return Some(BadStatus);
      }
      if id >= |prisma.orders| {
        return Some(NotFound);
      }
      var current, to := prisma.orders[id], req.target.value;
      AllowedIff(current.status, to);
      ReferenceBlankIff(req.refundRef);
      ReferenceBlankIff(req.paymentRef);
      e := AdminRefused(current, req);
      if e.Some? {
        return;
      }
      var from, moved := current.status, current;
      RestockExact(prisma.products, current.lines);
      if GivesBack(from, to) {
        prisma.Return(current.lines);
      }
      if ManualPaid(from, to) {
        moved := Collect(moved, current, Reference(req.paymentRef));
      }
      prisma.orders := prisma.orders[id := Move(moved, to, req.actor, AdminNote(from, to, req))];
      statsCache := None;
    }
  }

  // ---------- Expiry ----------

  /** Positions of the pending orders older than the cutoff, in table order. */
  function StaleIds(orders: seq<Order>, cutoff: int): seq<nat> {
    if orders == [] then []
    else
      var n := |orders| - 1;
      var ids := StaleIds(orders[..n], cutoff);
      if orders[n].status == Pending && orders[n].createdAt < cutoff then ids + [n] else ids
  }

  predicate IsStale(orders: seq<Order>, cutoff: int, id: nat) {
    id < |orders| && orders[id].status == Pending && orders[id].createdAt < cutoff
  }

  /** The listing is complete, sorted and free of anything else. */
  lemma {:induction false} StaleIdsExact(orders: seq<Order>, cutoff: int)
    ensures var ids := StaleIds(orders, cutoff);
      && (forall id :: id in ids <==> IsStale(orders, cutoff, id))
      && (forall k, l :: 0 <= k < l < |ids| ==> ids[k] < ids[l])
  {
    if orders != [] {
      var n := |orders| - 1;
      StaleIdsExact(orders[..n], cutoff);
      var before, after := StaleIds(orders[..n], cutoff), StaleIds(orders, cutoff);
      forall k | 0 <= k < |before| ensures before[k] < n {
        assert before[k] in before && IsStale(orders[..n], cutoff, before[k]);
      }
      forall id: nat ensures id in after <==> IsStale(orders, cutoff, id) {
        assert id in before <==> IsStale(orders[..n], cutoff, id);
        if id < n {
          assert orders[..n][id] == orders[id];
        }
      }
    }
  }

  /** Distinct pending orders, in table order. */
  ghost predicate StaleList(db: Db, ids: seq<nat>) {
    && (forall k :: 0 <= k < |ids| ==> ids[k] < |db.orders| && db.orders[ids[k]].status == Pending)
    && (forall k, l :: 0 <= k < l < |ids| ==> ids[k] < ids[l])
  }

  function ExpireOne(db: Db, id: nat): Db {
    if id >= |db.orders| then db
    else
      match CommitCancel(db, id, db.orders[id].lines, None, PaymentExpired)
      case None => db
      case Some(db') => db'
  }

  function ExpireAll(db: Db, ids: seq<nat>): Db {
    if ids == [] then db else ExpireOne(ExpireAll(db, ids[..|ids| - 1]), ids[|ids| - 1])
  }

  function UnitsOf(orders: seq<Order>, ids: seq<nat>, s: Slug): nat
    requires forall i :: 0 <= i < |ids| ==> ids[i] < |orders|
  {
    if ids == [] then 0
    else UnitsOf(orders, ids[..|ids| - 1], s) + Units(orders[ids[|ids| - 1]].lines, s)
  }

  /** One sweep cancels exactly the listed orders, writes one event on each, and returns exactly their
      goods. */
  lemma {:induction false} ExpireAllExact(db: Db, ids: seq<nat>)
    requires StaleList(db, ids)
    ensures var db' := ExpireAll(db, ids);
      && |db'.orders| == |db.orders| && db'.intents == db.intents && db'.keys == db.keys
      && (forall id :: 0 <= id < |db.orders| ==>
            db'.orders[id] == if id in ids then Move(db.orders[id], Cancelled, None, PaymentExpired) else db.orders[id])
      && db'.products.Keys == db.products.Keys
      && (forall s :: s in db.products ==>
            db'.products[s] == db.products[s].(stock := db.products[s].stock + UnitsOf(db.orders, ids, s)))
  {
    if ids != [] {
      var n := |ids| - 1;
      var mid := ExpireAll(db, ids[..n]);
      ExpireAllExact(db, ids[..n]);
      assert ids[n] !in ids[..n];
      RestockExact(mid.products, mid.orders[ids[n]].lines);
      assert forall id :: id in ids <==> id in ids[..n] || id == ids[n];
    }
  }

  /** The idempotency keys the sweep leaves. */
  function RecentKeys(keys: map<string, KeyRecord>, cutoff: int): map<string, KeyRecord> {
    map k | k in keys && keys[k].createdAt >= cutoff :: keys[k]
  }

  lemma StaleTaken(db: Db, cutoff: int, n: nat)
    ensures StaleList(db, Text.Take(StaleIds(db.orders, cutoff), n))
  {
    var ids := StaleIds(db.orders, cutoff);
    StaleIdsExact(db.orders, cutoff);
    forall k | 0 <= k < |ids| ensures IsStale(db.orders, cutoff, ids[k]) {
      assert ids[k] in ids;
    }
    assert StaleList(db, ids);
  }

  class OrderExpireService {
    const prisma: Database

    constructor (prisma: Database)
      ensures this.prisma == prisma
    {
      this.prisma := prisma;
    }

    /** One order of the sweep, in a transaction of its own; `order` is what the sweep read. */
    method ExpireOrder(id: nat, order: Order) returns (won: bool)
      modifies prisma`orders, prisma`products
      ensures match CommitCancel(old(prisma.State()), id, order.lines, None, PaymentExpired)
        case None => !won && prisma.State() == old(prisma.State())
        case Some(db) => won && prisma.State() == db
    {
      if id >= |prisma.orders| || prisma.orders[id].status != Pending {
        return false;
      }
      prisma.orders := prisma.orders[id := Move(prisma.orders[id], Cancelled, None, PaymentExpired)];
      prisma.Return(order.lines);
      return true;
    }

    /** The sweep's loop over the orders it read. */
    method Sweep(stale: seq<nat>, read: seq<Order>) returns (expired: nat)
      requires StaleList(prisma.State(), stale) && read == prisma.orders
      modifies prisma`orders, prisma`products
      ensures expired == |stale| && prisma.State() == ExpireAll(old(prisma.State()), stale)
    {
      ghost var before := prisma.State();
      expired := 0;
      for i := 0 to |stale|
        invariant prisma.State() == ExpireAll(before, stale[..i]) && expired == i
      {
        NextStale(before, stale, i);
        var won := ExpireOrder(stale[i], read[stale[i]]);
        if won {
          expired := expired + 1;
        }
      }
      assert stale[..|stale|] == stale;
    }

    /** The hourly sweep: old keys go, then up to a hundred stale pending orders are cancelled. */
    method ExpirePending(keyCutoff: int, cutoff: int) returns (expired: nat)
      modifies prisma
      ensures expired <= 100
      ensures expired < 100 ==> forall id :: 0 <= id < |prisma.orders| ==>
        prisma.orders[id].status == Pending ==> prisma.orders[id].createdAt >= cutoff
      ensures forall key ::
        key in prisma.keys <==> key in old(prisma.keys) && old(prisma.keys)[key].createdAt >= keyCutoff
      ensures forall key :: key in prisma.keys ==> prisma.keys[key] == old(prisma.keys)[key]
      ensures var ids := Text.Take(StaleIds(old(prisma.orders), cutoff), MAX_PER_SCAN);
        && expired == |ids|
        && prisma.State() == ExpireAll(old(prisma.State()).(keys := RecentKeys(old(prisma.keys), keyCutoff)), ids)
    {
      var read := prisma.orders;
      prisma.keys := RecentKeys(prisma.keys, keyCutoff);
      var stale := Text.Take(StaleIds(read, cutoff), MAX_PER_SCAN);
      StaleTaken(prisma.State(), cutoff, MAX_PER_SCAN);
      expired := Sweep(stale, read);
      StaleIdsExact(read, cutoff);
      ExpireAllExact(old(prisma.State()).(keys := prisma.keys), stale);
      if expired < 100 {
        assert stale == StaleIds(read, cutoff);
        forall id | 0 <= id < |prisma.orders| && prisma.orders[id].status == Pending
          ensures prisma.orders[id].createdAt >= cutoff
        {
          assert id in stale <==> IsStale(read, cutoff, id);
        }
      }
    }
  }

  /** The sweep reaches its next order untouched. */
  lemma NextStale(db: Db, ids: seq<nat>, i: nat)
    requires StaleList(db, ids) && i < |ids|
    ensures var mid := ExpireAll(db, ids[..i]);
      && ids[i] < |mid.orders| && mid.orders[ids[i]] == db.orders[ids[i]]
      && Some(ExpireAll(db, ids[..i + 1])) == CommitCancel(mid, ids[i], db.orders[ids[i]].lines, None, PaymentExpired)
  {
    ExpireAllExact(db, ids[..i]);
    assert ids[..i + 1][..i] == ids[..i];
    assert ids[i] !in ids[..i];
  }

  // ---------- Settlement ----------

  class PaymentsService {
    const prisma: Database

    constructor (prisma: Database)
      ensures this.prisma == prisma
    {
      this.prisma := prisma;
    }

    /** A new payment link: for the signed-in owner of a user's order, or whoever gives a guest order's
        contact, while the order is pending and has fewer than three open rows. It freezes the total. */
    method CreatePayUrl(id: nat, who: Claimant, txnRef: string) returns (e: Option<Error>)
      modifies prisma
      ensures e == Some(NotFound) <==> id >= |old(prisma.orders)|
      ensures id < |old(prisma.orders)| ==>
        var o := old(prisma.orders)[id];
        var theirs := if o.userId.Some? then who.userId == o.userId
                      else who.contact.Some? && Phone.SameContact(o.contact, who.contact.value);
        && (e == Some(NotOwner) <==> !theirs)
        && (e == Some(NotPending) <==> theirs && o.status != Pending)
        && (e == Some(TooManyLinks) <==> theirs && o.status == Pending && OpenLinks(o.payments) >= 3)
        && (e.None? <==> theirs && o.status == Pending && OpenLinks(o.payments) < 3)
      ensures e.Some? ==> prisma.State() == old(prisma.State())
      ensures e.None? ==>
        var o := old(prisma.orders)[id];
        var row := Payment(Vnpay, o.totalUsd, Unsettled, Some(txnRef), Some(o.totalVnd));
        prisma.State() == old(prisma.State()).(orders := old(prisma.orders)[id := o.(payments := o.payments + [row])])
      ensures e.None? <==> id < |old(prisma.orders)| && MayPay(old(prisma.orders)[id], who)
    {
      if id >= |prisma.orders| {
        return Some(NotFound);
      }
      var order := prisma.orders[id];
      var contact := match who.contact case None => "" case Some(c) => c;
      if order.userId.Some? {
        if order.userId != who.userId {
          return Some(NotOwner);
        }
      } else if !Phone.SameContact(order.contact, contact) {
        return Some(NotOwner);
      }
      if order.status != Pending {
        return Some(NotPending);
      }
      if OpenLinks(order.payments) >= MAX_OPEN_LINKS {
        return Some(TooManyLinks);
      }
      prisma.orders := InsertLink(prisma.State(), id, order, txnRef).orders;
      return None;
    }

    /** Row and order settle in one transaction; a row that is already settled is left alone. When the
        database gives the transaction up, the rows are put back and the answer is that nothing was
        settled, the same as for a row that was settled before. */
    method Settle(id: nat, row: nat, ok: bool, rollBack: bool) returns (updated: bool)
      modifies prisma
      ensures updated == (!rollBack && SettleAtomically(old(prisma.State()), id, row, ok).Some?)
      ensures if updated then SettleAtomically(old(prisma.State()), id, row, ok) == Some(prisma.State())
              else prisma.State() == old(prisma.State())
    {
      if !HasRow(prisma.State(), id, row) || RowStatus(prisma.State(), id, row) != Unsettled {
        return false;
      }
      var before := prisma.orders;
      var order := prisma.orders[id];
      var payment := order.payments[row].(status := if ok then Success else Failed);
      var status := order.status;
      if ok && order.status == Pending {
        status := Paid;
      }
      prisma.orders := prisma.orders[id := order.(payments := order.payments[row := payment], status := status)];
      if rollBack {
        prisma.orders := before;
        return false;
      }
      return true;
    }
  }
}
