/** The order, stock, payment and intent protocol as a state machine.

    Every operation is split where the code awaits the database: a reading step captures rows that may
    go stale, and a later step commits with the captured rows. Any number of actors interleave, and an
    actor that never takes its next step has crashed. A step that is not enabled changes nothing, so
    every sequence of steps is a run. */
module OrderProtocol {
  import opened Prelude
  import opened Pricing
  import opened Shop
  import opened Checkout
  import opened Transactions
  import opened OrderLaws

  /** Where an actor stands. The captured orders are snapshots. */
  datatype Work =
    | Idle
    | Quoted(d: Draft)
    | Vetted(d: Draft, intent: nat, checkedAt: int, seen: IntentStatus)
    | Holding(d: Draft, intent: nat)
    | Placed(order: nat, intent: nat)
    | Cancelling(id: nat, who: Claimant, snap: Order)
    | Expiring(todo: seq<Stale>, cutoff: int)
    | Updating(id: nat, snap: Order, req: AdminRequest)
    | Asking(id: nat, snap: Order)
    | Linking(id: nat, snap: Order)
    | Settling(id: nat, row: nat, ok: bool)
    | Rereading(id: nat, row: nat, rolledBack: bool)
    | Settled(id: nat, row: nat, ok: bool)
    | Answered(id: nat, row: nat, settled: bool, rolledBack: bool)

  datatype Stale = Stale(id: nat, snap: Order)

  /** What was checked before an intent was locked: the total, and when and in which status it was seen. */
  datatype Claim = Claim(totalUsd: nat, checkedAt: int, seen: IntentStatus)

  /** The database and the actors, with three histories: the units ever supplied per product, where each
      order's trail has its gap, and what each locked intent was checked for. */
  datatype Sys = Sys(
    db: Db, clock: int, work: map<nat, Work>,
    supply: map<Slug, int>, gaps: seq<nat>, claims: map<nat, Claim>)

  datatype Step =
    | Wait(ms: nat)
    | AddProduct(slug: Slug, priceUsd: nat, stock: nat, inBoutique: bool)
    | EditProduct(slug: Slug, price: Option<nat>, count: Option<nat>, shown: Option<bool>)
    | ReadCart(a: nat, userId: Option<UserId>, contact: string, paidBy: Method, items: seq<ItemInput>)
    | Vet(a: nat, intent: nat)
    | Lock(a: nat)
    | Place(a: nat, code: string)
    | Attach(a: nat)
    | ReadToCancel(a: nat, id: nat, who: Claimant)
    | Cancel(a: nat)
    | Scan(a: nat, ids: seq<nat>, cutoff: int)
    | Expire(a: nat)
    | ReadToUpdate(a: nat, id: nat, req: AdminRequest)
    | Update(a: nat)
    | ReadToPay(a: nat, id: nat, who: Claimant)
    | CountLinks(a: nat)
    | Link(a: nat, txnRef: string)
    | ReadCallback(a: nat, id: nat, row: nat, ok: bool)
    | Settle(a: nat, rollBack: bool)
    | Reread(a: nat)
    | RevokeAll(user: UserId)
    | Grant(user: UserId, maxUsd: nat, ttl: nat)
    | Withdraw(user: UserId, intent: nat)

  function WorkOf(s: Sys, a: nat): Work {
    if a in s.work then s.work[a] else Idle
  }

  function Now(s: Sys, a: nat, w: Work): Sys {
    s.(work := s.work[a := w])
  }

  // ---------- Catalogue ----------

  function StepAddProduct(s: Sys, slug: Slug, priceUsd: nat, stock: nat, inBoutique: bool): Sys {
    if slug in s.db.products then s
    else
      var p := Product(priceUsd, priceUsd * USD_TO_VND, stock, inBoutique);
      s.(db := s.db.(products := s.db.products[slug := p]), supply := s.supply[slug := stock])
  }

  /** An absolute edit; a new stock count changes the supply by the difference. */
  function StepEditProduct(
    s: Sys, slug: Slug, price: Option<nat>, count: Option<nat>, shown: Option<bool>): Sys
  {
    if slug !in s.db.products || slug !in s.supply then s
    else
      var p := s.db.products[slug];
      var usd := match price case None => p.priceUsd case Some(x) => x;
      var vnd := match price case None => p.priceVnd case Some(x) => x * USD_TO_VND;
      var stock := match count case None => p.stock case Some(n) => n;
      var show := match shown case None => p.inBoutique case Some(b) => b;
      s.(db := s.db.(products := s.db.products[slug := Product(usd, vnd, stock, show)]),
         supply := s.supply[slug := s.supply[slug] + stock - p.stock])
  }

  // ---------- Creating ----------

  function StepReadCart(
    s: Sys, a: nat, userId: Option<UserId>, contact: string, paidBy: Method, items: seq<ItemInput>): Sys
  {
    if WorkOf(s, a) != Idle || !MethodAccepted(paidBy) then s
    else
      match PriceCart(s.db.products, items)
      case Err(_) => s
      case Ok(q) => Now(s, a, Quoted(Draft(userId, contact, paidBy, q)))
  }

  function StepVet(s: Sys, a: nat, j: nat): Sys {
    match WorkOf(s, a)
    case Quoted(d) =>
      if IntentFits(s.db, j, d, s.clock) then Now(s, a, Vetted(d, j, s.clock, s.db.intents[j].status)) else s
    case _ => s
  }

  function StepLock(s: Sys, a: nat): Sys {
    match WorkOf(s, a)
    case Vetted(d, j, at, seen) =>
      (match LockIntent(s.db, j)
       case None => Now(s, a, Idle)
       case Some(db) =>
         Now(s, a, Holding(d, j)).(db := db, claims := s.claims[j := Claim(d.quote.totalUsd, at, seen)]))
    case _ => s
  }

  /** One attempt of the create transaction; a taken code is tried again with another. */
  function StepPlace(s: Sys, a: nat, code: string): Sys {
    var w := WorkOf(s, a);
    if !w.Quoted? && !w.Holding? then s
    else
      match CommitCreate(s.db, w.d, code, s.clock)
      case OutOfStock => Now(s, a, Idle)
      case CodeTaken => s
      case Created(db) =>
        Now(s, a, if w.Holding? then Placed(|s.db.orders|, w.intent) else Idle).(db := db, gaps := s.gaps + [0])
  }

  function StepAttach(s: Sys, a: nat): Sys {
    match WorkOf(s, a)
    case Placed(o, j) => Now(s, a, Idle).(db := UseIntent(s.db, j, o))
    case _ => s
  }

  // ---------- Cancelling and expiring ----------

  function StepReadToCancel(s: Sys, a: nat, id: nat, who: Claimant): Sys {
    if WorkOf(s, a) == Idle && id < |s.db.orders| && CancelRefused(s.db.orders[id], who).None? then
      Now(s, a, Cancelling(id, who, s.db.orders[id]))
    else s
  }

  function StepCancel(s: Sys, a: nat): Sys {
    match WorkOf(s, a)
    case Cancelling(id, who, snap) =>
      (match CommitCancel(s.db, id, snap.lines, who.userId, CustomerCancelled)
       case None => Now(s, a, Idle)
       case Some(db) => Now(s, a, Idle).(db := db))
    case _ => s
  }

  /** The hourly scan reads up to a hundred pending orders older than the cutoff. */
  function StepScan(s: Sys, a: nat, ids: seq<nat>, cutoff: int): Sys {
    if WorkOf(s, a) == Idle && |ids| <= MAX_PER_SCAN
       && (forall i :: 0 <= i < |ids| ==>
             ids[i] < |s.db.orders| && s.db.orders[ids[i]].status == Pending && s.db.orders[ids[i]].createdAt < cutoff)
    then Now(s, a, Expiring(seq(|ids|, i requires 0 <= i < |ids| && ids[i] < |s.db.orders| =>
                              Stale(ids[i], s.db.orders[ids[i]])), cutoff))
    else s
  }

  function StepExpire(s: Sys, a: nat): Sys {
    match WorkOf(s, a)
    case Expiring(todo, cutoff) =>
      if todo == [] then Now(s, a, Idle)
      else
        (match CommitCancel(s.db, todo[0].id, todo[0].snap.lines, None, PaymentExpired)
         case None => Now(s, a, Expiring(todo[1..], cutoff))
         case Some(db) => Now(s, a, Expiring(todo[1..], cutoff)).(db := db))
    case _ => s
  }

  // ---------- Administrators ----------

  function StepReadToUpdate(s: Sys, a: nat, id: nat, req: AdminRequest): Sys {
    if WorkOf(s, a) == Idle && id < |s.db.orders| && AdminRefused(s.db.orders[id], req).None? then
      Now(s, a, Updating(id, s.db.orders[id], req))
    else s
  }

  function StepUpdate(s: Sys, a: nat): Sys {
    match WorkOf(s, a)
    case Updating(id, snap, req) =>
      if req.target.None? then s
      else
        (match CommitAdmin(s.db, id, snap, req)
         case None => Now(s, a, Idle)
         case Some(db) => Now(s, a, Idle).(db := db))
    case _ => s
  }

  // ---------- VNPay ----------

  function StepReadToPay(s: Sys, a: nat, id: nat, who: Claimant): Sys {
    if WorkOf(s, a) == Idle && id < |s.db.orders| && MayAsk(s.db.orders[id], who) then
      Now(s, a, Asking(id, s.db.orders[id]))
    else s
  }

  /** The open links are counted by a query of their own, some time after the order was read. */
  function StepCountLinks(s: Sys, a: nat): Sys {
    match WorkOf(s, a)
    case Asking(id, snap) =>
      Now(s, a, if id < |s.db.orders| && OpenLinks(s.db.orders[id].payments) < MAX_OPEN_LINKS
                then Linking(id, snap) else Idle)
    case _ => s
  }

  function StepLink(s: Sys, a: nat, txnRef: string): Sys {
    match WorkOf(s, a)
    case Linking(id, snap) => Now(s, a, Idle).(db := InsertLink(s.db, id, snap, txnRef))
    case _ => s
  }

  /** A callback whose checksum and amount are right reads the row its reference names. */
  function StepReadCallback(s: Sys, a: nat, id: nat, row: nat, ok: bool): Sys {
    if WorkOf(s, a) == Idle && HasRow(s.db, id, row) && s.db.orders[id].payments[row].txnRef.Some? then
      var status := RowStatus(s.db, id, row);
      Now(s, a, if status == Unsettled then Settling(id, row, ok) else Answered(id, row, status == Success, false))
    else s
  }

  /** The settling transaction, which may also be rolled back by the database. */
  function StepSettle(s: Sys, a: nat, rollBack: bool): Sys {
    match WorkOf(s, a)
    case Settling(id, row, ok) =>
      if rollBack then Now(s, a, Rereading(id, row, true))
      else
        (match SettleAtomically(s.db, id, row, ok)
         case None => Now(s, a, Rereading(id, row, false))
         case Some(db) =>
           if id < |s.gaps| && id < |s.db.orders| then
             Now(s, a, Settled(id, row, ok)).(
               db := db, gaps := s.gaps[id := GapAfter(s.db.orders[id], s.gaps[id], ok)])
           else s)
    case _ => s
  }

  function StepReread(s: Sys, a: nat): Sys {
    match WorkOf(s, a)
    case Rereading(id, row, rolledBack) =>
      if HasRow(s.db, id, row) then
        Now(s, a, Answered(id, row, RowStatus(s.db, id, row) == Success, rolledBack))
      else s
    case _ => s
  }

  // ---------- Intents ----------

  function StepGrant(s: Sys, user: UserId, maxUsd: nat, ttl: nat): Sys {
    s.(db := s.db.(intents := s.db.intents + [Intent(user, maxUsd, Active, None, s.clock + ttl)]))
  }

  function StepWithdraw(s: Sys, user: UserId, j: nat): Sys {
    if j < |s.db.intents| && s.db.intents[j].userId == user && s.db.intents[j].status == Active then
      s.(db := s.db.(intents := s.db.intents[j := s.db.intents[j].(status := Revoked)]))
    else s
  }

  predicate IsCreateStep(step: Step) {
    step.ReadCart? || step.Vet? || step.Lock? || step.Place? || step.Attach?
  }

  predicate IsMoveStep(step: Step) {
    step.ReadToCancel? || step.Cancel? || step.Scan? || step.Expire? || step.ReadToUpdate? || step.Update?
  }

  predicate IsLinkStep(step: Step) {
    step.ReadToPay? || step.CountLinks? || step.Link?
  }

  predicate IsCallbackStep(step: Step) {
    step.ReadCallback? || step.Settle? || step.Reread?
  }

  function Apply(s: Sys, step: Step): Sys {
    match step
    case Wait(ms) => s.(clock := s.clock + ms)
    case AddProduct(slug, usd, stock, shown) => StepAddProduct(s, slug, usd, stock, shown)
    case EditProduct(slug, price, count, shown) => StepEditProduct(s, slug, price, count, shown)
    case ReadCart(a, userId, contact, paidBy, items) => StepReadCart(s, a, userId, contact, paidBy, items)
    case Vet(a, j) => StepVet(s, a, j)
    case Lock(a) => StepLock(s, a)
    case Place(a, code) => StepPlace(s, a, code)
    case Attach(a) => StepAttach(s, a)
    case ReadToCancel(a, id, who) => StepReadToCancel(s, a, id, who)
    case Cancel(a) => StepCancel(s, a)
    case Scan(a, ids, cutoff) => StepScan(s, a, ids, cutoff)
    case Expire(a) => StepExpire(s, a)
    case ReadToUpdate(a, id, req) => StepReadToUpdate(s, a, id, req)
    case Update(a) => StepUpdate(s, a)
    case ReadToPay(a, id, who) => StepReadToPay(s, a, id, who)
    case CountLinks(a) => StepCountLinks(s, a)
    case Link(a, txnRef) => StepLink(s, a, txnRef)
    case ReadCallback(a, id, row, ok) => StepReadCallback(s, a, id, row, ok)
    case Settle(a, rollBack) => StepSettle(s, a, rollBack)
    case Reread(a) => StepReread(s, a)
    case RevokeAll(user) => s.(db := s.db.(intents := RevokeActive(s.db.intents, user)))
    case Grant(user, maxUsd, ttl) => StepGrant(s, user, maxUsd, ttl)
    case Withdraw(user, j) => StepWithdraw(s, user, j)
  }

  /** An empty shop: products, orders and intents all arrive by steps. */
  const EMPTY := Sys(Db(map[], [], [], map[]), 0, map[], map[], [], map[])

  function Run(s: Sys, steps: seq<Step>): Sys {
    if steps == [] then s else Apply(Run(s, steps[..|steps| - 1]), steps[|steps| - 1])
  }
}
