/** The invariant is kept, step by step. */
module OrderSteps {
  import opened Prelude
  import opened Pricing
  import opened Shop
  import opened Checkout
  import opened Transactions
  import opened OrderLaws
  import opened OrderProtocol
  import opened OrderInvariant

  // ---------- Catalogue ----------

  /** The order tables are untouched, and no product disappears. */
  lemma CatalogueKeeps(s: Sys, s': Sys)
    requires Inv(s) && StockInv(s')
    requires s' == s.(db := s.db.(products := s'.db.products), supply := s'.supply)
    requires s.db.products.Keys <= s'.db.products.Keys
    ensures Good(s, s')
  {
    forall i | 0 <= i < |s'.db.orders| ensures OrderAt(s', i) {
      assert OrderAt(s, i);
      KnownGrows(s.db.orders[i].lines, s.db.products, s'.db.products);
    }
    forall a | a in s'.work ensures Stable(s'.db, s'.work[a]) && HolderOk(s', s'.work[a]) {
      StableGrows(s.db, s'.db, s.work[a]);
      HolderKept(s, s', s.work[a]);
    }
    IntentsKept(s, s');
  }

  lemma {:induction false} NobodyHolds(orders: seq<Order>, products: map<Slug, Product>, slug: Slug)
    requires forall i :: 0 <= i < |orders| ==> LinesKnown(orders[i].lines, products)
    requires slug !in products
    ensures HeldByAll(orders, slug) == 0
  {
    if orders != [] {
      NobodyHolds(orders[..|orders| - 1], products, slug);
      UnitsAbsent(orders[|orders| - 1].lines, slug);
    }
  }

  lemma AddProductKeeps(s: Sys, slug: Slug, priceUsd: nat, stock: nat, inBoutique: bool)
    requires Inv(s)
    ensures Good(s, StepAddProduct(s, slug, priceUsd, stock, inBoutique))
  {
    var s' := StepAddProduct(s, slug, priceUsd, stock, inBoutique);
    if slug in s.db.products {
      EvolvesSelf(s.db);
    } else {
      forall i | 0 <= i < |s.db.orders| ensures LinesKnown(s.db.orders[i].lines, s.db.products) {
        assert OrderAt(s, i);
      }
      NobodyHolds(s.db.orders, s.db.products, slug);
      CatalogueKeeps(s, s');
    }
  }

  lemma EditProductKeeps(s: Sys, slug: Slug, price: Option<nat>, count: Option<nat>, shown: Option<bool>)
    requires Inv(s)
    ensures Good(s, StepEditProduct(s, slug, price, count, shown))
  {
    var s' := StepEditProduct(s, slug, price, count, shown);
    if slug !in s.db.products || slug !in s.supply {
      EvolvesSelf(s.db);
    } else {
      CatalogueKeeps(s, s');
    }
  }

  // ---------- Creating ----------

  lemma ReadCartKeeps(
    s: Sys, a: nat, userId: Option<UserId>, contact: string, paidBy: Method, items: seq<ItemInput>)
    requires Inv(s)
    ensures Good(s, StepReadCart(s, a, userId, contact, paidBy, items))
  {
    EvolvesSelf(s.db);
    if StepReadCart(s, a, userId, contact, paidBy, items) != s {
      var q := PriceCart(s.db.products, items).value;
      QuoteTotals(s.db.products, items);
      QuoteLines(s.db.products, items);
      forall i | 0 <= i < |q.lines| && q.lines[i].slug.Some? ensures q.lines[i].slug.value in s.db.products {
        assert Prices(s.db.products, items[i], q.lines[i]);
      }
      ReadKeeps(s, a, Quoted(Draft(userId, contact, paidBy, q)));
    }
  }

  lemma VetKeeps(s: Sys, a: nat, j: nat)
    requires Inv(s)
    ensures Good(s, StepVet(s, a, j))
  {
    EvolvesSelf(s.db);
    match WorkOf(s, a)
    case Quoted(d) =>
      if IntentFits(s.db, j, d, s.clock) {
        ReadKeeps(s, a, Vetted(d, j, s.clock, s.db.intents[j].status));
      }
    case _ =>
  }

  /** One intent changes, and no other actor holds it. */
  lemma IntentKeeps(s: Sys, s': Sys, j: nat)
    requires Inv(s) && j < |s.db.intents| && |s'.db.intents| == |s.db.intents|
    requires s'.db == s.db.(intents := s'.db.intents) && s'.gaps == s.gaps && s'.supply == s.supply
    requires forall k :: 0 <= k < |s.db.intents| && k != j ==> s'.db.intents[k] == s.db.intents[k]
    requires IntentLater(s.db.intents[j], s'.db.intents[j])
    requires s'.claims.Keys >= s.claims.Keys && forall k :: k in s.claims && k != j ==> s'.claims[k] == s.claims[k]
    ensures StockInv(s') && OrdersInv(s') && Evolves(s.db, s'.db)
    ensures forall k :: 0 <= k < |s.db.intents| && k != j ==> IntentOk(s', k)
    ensures forall a :: a in s.work ==> Stable(s'.db, s.work[a])
    ensures forall a :: a in s.work && Grip(s.work[a]) != Some(j) ==> HolderOk(s', s.work[a])
  {
    forall i | 0 <= i < |s'.db.orders| ensures OrderAt(s', i) {
      assert OrderAt(s, i);
    }
    forall k | 0 <= k < |s.db.intents| && k != j ensures IntentOk(s', k) {
      assert IntentOk(s, k);
    }
    forall a | a in s.work ensures Stable(s'.db, s.work[a]) {
      StableGrows(s.db, s'.db, s.work[a]);
    }
    forall a | a in s.work && Grip(s.work[a]) != Some(j) ensures HolderOk(s', s.work[a]) {
      assert HolderOk(s, s.work[a]);
    }
  }

  lemma LockKeeps(s: Sys, a: nat)
    requires Inv(s)
    ensures Good(s, StepLock(s, a))
  {
    EvolvesSelf(s.db);
    match WorkOf(s, a)
    case Vetted(d, j, at, seen) =>
      if LockIntent(s.db, j).None? {
        ReadKeeps(s, a, Idle);
      } else {
        LockedKeeps(s, a, d, j, at, seen);
      }
    case _ =>
  }

  /** An active intent is held by nobody, so the one who locks it is its only holder. */
  lemma LockedKeeps(s: Sys, a: nat, d: Draft, j: nat, at: int, seen: IntentStatus)
    requires Inv(s) && WorkOf(s, a) == Vetted(d, j, at, seen) && LockIntent(s.db, j).Some?
    ensures Good(s, StepLock(s, a))
  {
    var s' := StepLock(s, a);
    assert IntentOk(s, j) && Stable(s.db, s.work[a]);
    IntentKeeps(s, s', j);
    assert IntentOk(s', j);
    StableGrows(s.db, s'.db, Quoted(d));
    NobodyGrips(s, j);
    LockedWork(s, s', a, d, j);
  }

  lemma LockedWork(s: Sys, s': Sys, a: nat, d: Draft, j: nat)
    requires WorkInv(s) && IntentInv(s) && s'.work == s.work[a := Holding(d, j)]
    requires Stable(s'.db, Holding(d, j)) && HolderOk(s', Holding(d, j))
    requires forall b :: b in s.work ==> Stable(s'.db, s.work[b]) && HolderOk(s', s.work[b])
    requires forall b :: b in s.work ==> Grip(s.work[b]) != Some(j)
    requires forall k :: 0 <= k < |s'.db.intents| ==> IntentOk(s', k)
    ensures WorkInv(s') && IntentInv(s')
  {
  }

  lemma NobodyGrips(s: Sys, j: nat)
    requires IntentInv(s) && j < |s.db.intents| && s.db.intents[j].status == Active
    ensures forall b :: b in s.work ==> Grip(s.work[b]) != Some(j)
  {
    forall b | b in s.work ensures Grip(s.work[b]) != Some(j) {
      assert HolderOk(s, s.work[b]);
    }
  }

  lemma PlaceKeeps(s: Sys, a: nat, code: string)
    requires Inv(s)
    ensures Good(s, StepPlace(s, a, code))
  {
    EvolvesSelf(s.db);
    var w := WorkOf(s, a);
    if w.Quoted? || w.Holding? {
      CommitCreateIff(s.db, w.d, code, s.clock);
      match CommitCreate(s.db, w.d, code, s.clock)
      case OutOfStock => ReadKeeps(s, a, Idle);
      case CodeTaken =>
      case Created(_) => CreatedKeeps(s, a, code);
    }
  }

  lemma CreatedKeeps(s: Sys, a: nat, code: string)
    requires Inv(s) && (WorkOf(s, a).Quoted? || WorkOf(s, a).Holding?)
    requires CommitCreate(s.db, WorkOf(s, a).d, code, s.clock).Created?
    ensures Good(s, StepPlace(s, a, code))
  {
    var w, s', n := WorkOf(s, a), StepPlace(s, a, code), |s.db.orders|;
    var o := NewOrder(w.d, code, s.clock);
    assert Stable(s.db, w) && HolderOk(s, w);
    CommitCreateIff(s.db, w.d, code, s.clock);
    CreatedOrders(s, s', w.d, code);
    CreatedStock(s, s', o);
    WorkKept(s, s', a, if w.Holding? then Placed(n, w.intent) else Idle);
  }

  lemma CreatedOrders(s: Sys, s': Sys, d: Draft, code: string)
    requires OrdersInv(s) && DraftOk(d, s.db.products) && !CodeInUse(s.db.orders, code)
    requires s'.db.orders == s.db.orders + [NewOrder(d, code, s.clock)] && s'.gaps == s.gaps + [0]
    requires s'.db.products.Keys == s.db.products.Keys && s'.db.intents == s.db.intents
    ensures OrdersInv(s') && Evolves(s.db, s'.db)
  {
    NewOrderOk(d, code, s.clock);
    forall i | 0 <= i < |s'.db.orders| ensures OrderAt(s', i) {
      if i < |s.db.orders| {
        assert OrderAt(s, i);
        KnownGrows(s.db.orders[i].lines, s.db.products, s'.db.products);
      } else {
        KnownGrows(d.quote.lines, s.db.products, s'.db.products);
      }
    }
  }

  lemma CreatedStock(s: Sys, s': Sys, o: Order)
    requires StockInv(s) && HoldsStock(o.status) && Covers(s.db.products, o.lines)
    requires StockMoved(s.db.products, s'.db.products, o.lines, -1)
    requires s'.db.orders == s.db.orders + [o] && s'.supply == s.supply
    ensures StockInv(s')
  {
    forall slug | slug in s'.db.products
      ensures && 0 <= s'.db.products[slug].stock
              && s'.db.products[slug].stock + HeldByAll(s'.db.orders, slug) == s'.supply[slug]
    {
      assert slug in s.db.products.Keys;
      HeldAfterAppend(s.db.orders, o, slug);
      if i :| 0 <= i < |o.lines| && o.lines[i].slug == Some(slug) {
        assert Units(o.lines, slug) <= s.db.products[slug].stock;
      } else {
        UnitsAbsent(o.lines, slug);
      }
    }
  }

  lemma AttachKeeps(s: Sys, a: nat)
    requires Inv(s)
    ensures Good(s, StepAttach(s, a))
  {
    EvolvesSelf(s.db);
    match WorkOf(s, a)
    case Placed(o, j) =>
      var s' := StepAttach(s, a);
      assert HolderOk(s, s.work[a]) && IntentOk(s, j);
      IntentKeeps(s, s', j);
      assert IntentOk(s', j);
      forall b | b in s'.work && b != a ensures HolderOk(s', s'.work[b]) {
        assert Grip(s.work[b]) != Grip(s.work[a]);
      }
    case _ =>
  }

  // ---------- Cancelling and expiring ----------

  /** Any order write that may return goods: the order moves to a later version under its laws. */
  lemma MoveOrderKeeps(s: Sys, s': Sys, id: nat, o: Order, gap: nat, a: nat, w: Work)
    requires Inv(s) && Replaces(s, s', id, o, gap, a, w)
    requires Later(s.db.orders[id], o) && OrderOk(o, gap)
    requires if HoldsStock(s.db.orders[id].status) && !HoldsStock(o.status)
             then StockMoved(s.db.products, s'.db.products, o.lines, 1)
             else s'.db.products == s.db.products && HoldsStock(o.status) == HoldsStock(s.db.orders[id].status)
    requires Stable(s'.db, w) && Grip(w).None?
    requires Won(w).Some? ==> forall b :: b in s.work && b != a ==> Won(s.work[b]) != Won(w)
    ensures Good(s, s')
  {
    ReplaceKeeps(s, s', id, o, gap, a, w);
    StockKept(s, s', id, o);
    WorkKept(s, s', a, w);
  }

  lemma CommitCancelKeeps(s: Sys, s': Sys, a: nat, w: Work, id: nat, snap: Order, actor: Option<UserId>, note: Note)
    requires Inv(s) && Snapshot(s.db, id, snap) && Stable(s.db, w) && Grip(w).None? && Won(w).None?
    requires CommitCancel(s.db, id, snap.lines, actor, note).Some?
    requires s' == Now(s, a, w).(db := CommitCancel(s.db, id, snap.lines, actor, note).value)
    ensures Good(s, s')
  {
    var cur := s.db.orders[id];
    var o := Move(cur, Cancelled, actor, note);
    assert OrderAt(s, id);
    MoveKeeps(cur, s.gaps[id], Cancelled, actor, note);
    RestockExact(s.db.products, snap.lines);
    assert s.gaps[id := s.gaps[id]] == s.gaps;
    ReplaceKeeps(s, s', id, o, s.gaps[id], a, w);
    StableGrows(s.db, s'.db, w);
    MoveOrderKeeps(s, s', id, o, s.gaps[id], a, w);
  }

  lemma CancelKeeps(s: Sys, a: nat)
    requires Inv(s)
    ensures Good(s, StepCancel(s, a))
  {
    EvolvesSelf(s.db);
    match WorkOf(s, a)
    case Cancelling(id, who, snap) =>
      assert Stable(s.db, s.work[a]);
      if CommitCancel(s.db, id, snap.lines, who.userId, CustomerCancelled).None? {
        ReadKeeps(s, a, Idle);
      } else {
        CommitCancelKeeps(s, StepCancel(s, a), a, Idle, id, snap, who.userId, CustomerCancelled);
      }
    case _ =>
  }

  lemma ExpireKeeps(s: Sys, a: nat)
    requires Inv(s)
    ensures Good(s, StepExpire(s, a))
  {
    EvolvesSelf(s.db);
    match WorkOf(s, a)
    case Expiring(todo, cutoff) =>
      assert Stable(s.db, s.work[a]);
      if todo == [] {
        ReadKeeps(s, a, Idle);
      } else {
        assert Stable(s.db, Expiring(todo[1..], cutoff));
        var first := todo[0];
        if CommitCancel(s.db, first.id, first.snap.lines, None, PaymentExpired).None? {
          ReadKeeps(s, a, Expiring(todo[1..], cutoff));
        } else {
          CommitCancelKeeps(s, StepExpire(s, a), a, Expiring(todo[1..], cutoff), first.id, first.snap, None,
                            PaymentExpired);
        }
      }
    case _ =>
  }

  lemma ScanKeeps(s: Sys, a: nat, ids: seq<nat>, cutoff: int)
    requires Inv(s)
    ensures Good(s, StepScan(s, a, ids, cutoff))
  {
    EvolvesSelf(s.db);
    if StepScan(s, a, ids, cutoff) != s {
      ReadKeeps(s, a, StepScan(s, a, ids, cutoff).work[a]);
    }
  }

  // ---------- Administrators ----------

  lemma UpdateKeeps(s: Sys, a: nat)
    requires Inv(s)
    ensures Good(s, StepUpdate(s, a))
  {
    EvolvesSelf(s.db);
    match WorkOf(s, a)
    case Updating(id, snap, req) =>
      assert Stable(s.db, s.work[a]);
      if CommitAdmin(s.db, id, snap, req).None? {
        ReadKeeps(s, a, Idle);
      } else {
        UpdatedKeeps(s, a, id, snap, req);
      }
    case _ =>
  }

  /** A commit that wins works on current data: equal status means the captured totals and books are
      still the order's own. */
  lemma UpdatedKeeps(s: Sys, a: nat, id: nat, snap: Order, req: AdminRequest)
    requires Inv(s) && WorkOf(s, a) == Updating(id, snap, req)
    requires Snapshot(s.db, id, snap) && AdminRefused(snap, req).None?
    requires CommitAdmin(s.db, id, snap, req).Some?
    ensures Good(s, StepUpdate(s, a))
  {
    var cur, gap := s.db.orders[id], s.gaps[id];
    assert OrderAt(s, id);
    UpdatedOrderOk(cur, gap, snap, req);
    RestockExact(s.db.products, snap.lines);
    assert s.gaps[id := gap] == s.gaps;
    MoveOrderKeeps(s, StepUpdate(s, a), id, UpdatedOrder(cur, snap, req), gap, a, Idle);
  }

  function UpdatedOrder(cur: Order, snap: Order, req: AdminRequest): Order
    requires req.target.Some?
  {
    var to := req.target.value;
    var paid := if ManualPaid(snap.status, to) then Collect(cur, snap, Reference(req.paymentRef)) else cur;
    Move(paid, to, req.actor, AdminNote(snap.status, to, req))
  }

  lemma UpdatedOrderOk(cur: Order, gap: nat, snap: Order, req: AdminRequest)
    requires OrderOk(cur, gap) && Later(snap, cur) && snap.status == cur.status && AdminRefused(snap, req).None?
    ensures OrderOk(UpdatedOrder(cur, snap, req), gap) && Later(cur, UpdatedOrder(cur, snap, req))
  {
    var to, ref := req.target.value, Reference(req.paymentRef);
    var note := AdminNote(snap.status, to, req);
    assert Collect(cur, snap, ref) == Collect(cur, cur, ref);
    if ManualPaid(snap.status, to) {
      CollectKeeps(cur, gap, ref, req.actor, note);
    } else {
      MoveKeeps(cur, gap, to, req.actor, note);
    }
  }

  // ---------- VNPay ----------

  lemma LinkStepKeeps(s: Sys, a: nat, txnRef: string)
    requires Inv(s)
    ensures Good(s, StepLink(s, a, txnRef))
  {
    EvolvesSelf(s.db);
    match WorkOf(s, a)
    case Linking(id, snap) =>
      assert Stable(s.db, s.work[a]) && OrderAt(s, id);
      var cur := s.db.orders[id];
      var row := Payment(Vnpay, cur.totalUsd, Unsettled, Some(txnRef), Some(cur.totalVnd));
      LinkKeeps(cur, s.gaps[id], row);
      assert s.gaps[id := s.gaps[id]] == s.gaps;
      MoveOrderKeeps(s, StepLink(s, a, txnRef), id, cur.(payments := cur.payments + [row]), s.gaps[id], a, Idle);
    case _ =>
  }

  lemma SettleStepKeeps(s: Sys, a: nat, rollBack: bool)
    requires Inv(s)
    ensures Good(s, StepSettle(s, a, rollBack))
  {
    EvolvesSelf(s.db);
    match WorkOf(s, a)
    case Settling(id, row, ok) =>
      assert Stable(s.db, s.work[a]);
      if rollBack {
        ReadKeeps(s, a, Rereading(id, row, true));
      } else if SettleAtomically(s.db, id, row, ok).None? {
        ReadKeeps(s, a, Rereading(id, row, false));
      } else {
        SettledKeeps(s, a, id, row, ok);
      }
    case _ =>
  }

  /** The winner of a row: nobody else can have won it, because it was still unsettled. */
  lemma SettledKeeps(s: Sys, a: nat, id: nat, row: nat, ok: bool)
    requires Inv(s) && WorkOf(s, a) == Settling(id, row, ok)
    requires SettleAtomically(s.db, id, row, ok).Some?
    ensures Good(s, StepSettle(s, a, false))
  {
    var cur := s.db.orders[id];
    assert Stable(s.db, s.work[a]) && OrderAt(s, id);
    SettleKeeps(cur, s.gaps[id], row, ok);
    SettledIsLater(cur, row, ok);
    NotYetWon(s, id, row);
    MoveOrderKeeps(s, StepSettle(s, a, false), id, SettleRow(cur, row, ok),
                   GapAfter(cur, s.gaps[id], ok), a, Settled(id, row, ok));
  }

  lemma SettledIsLater(o: Order, row: nat, ok: bool)
    requires row < |o.payments| && o.payments[row].status == Unsettled
    ensures var o' := SettleRow(o, row, ok);
      && Later(o, o') && o'.lines == o.lines && HoldsStock(o'.status) == HoldsStock(o.status)
      && o'.payments[row].status == if ok then Success else Failed
  {
  }

  lemma NotYetWon(s: Sys, id: nat, row: nat)
    requires WorkInv(s) && HasRow(s.db, id, row) && RowStatus(s.db, id, row) == Unsettled
    ensures forall b :: b in s.work ==> Won(s.work[b]) != Some(RowId(id, row))
  {
    forall b | b in s.work ensures Won(s.work[b]) != Some(RowId(id, row)) {
      assert Stable(s.db, s.work[b]);
    }
  }

  lemma RereadKeeps(s: Sys, a: nat)
    requires Inv(s)
    ensures Good(s, StepReread(s, a))
  {
    EvolvesSelf(s.db);
    match WorkOf(s, a)
    case Rereading(id, row, rolledBack) =>
      assert Stable(s.db, s.work[a]);
      ReadKeeps(s, a, StepReread(s, a).work[a]);
    case _ =>
  }

  // ---------- Intents ----------

  lemma RevokeAllKeeps(s: Sys, user: UserId)
    requires Inv(s)
    ensures Good(s, Apply(s, RevokeAll(user)))
  {
    var s' := Apply(s, RevokeAll(user));
    forall j | 0 <= j < |s.db.intents| ensures IntentOk(s', j) && IntentLater(s.db.intents[j], s'.db.intents[j]) {
      assert IntentOk(s, j);
    }
    RestKept(s, s');
  }

  /** Only intents nobody holds may change. */
  lemma RestKept(s: Sys, s': Sys)
    requires Inv(s) && Evolves(s.db, s'.db)
    requires s' == s.(db := s.db.(intents := s'.db.intents))
    requires forall j :: 0 <= j < |s'.db.intents| ==> IntentOk(s', j)
    requires forall j :: 0 <= j < |s.db.intents| && s.db.intents[j].status == Locked ==>
      s'.db.intents[j] == s.db.intents[j]
    ensures Good(s, s')
  {
    forall i | 0 <= i < |s'.db.orders| ensures OrderAt(s', i) {
      assert OrderAt(s, i);
    }
    forall a | a in s.work ensures Stable(s'.db, s.work[a]) && HolderOk(s', s.work[a]) {
      assert HolderOk(s, s.work[a]);
      StableGrows(s.db, s'.db, s.work[a]);
    }
  }

  lemma GrantKeeps(s: Sys, user: UserId, maxUsd: nat, ttl: nat)
    requires Inv(s)
    ensures Good(s, StepGrant(s, user, maxUsd, ttl))
  {
    var s' := StepGrant(s, user, maxUsd, ttl);
    forall j | 0 <= j < |s'.db.intents| ensures IntentOk(s', j) {
      if j < |s.db.intents| {
        assert IntentOk(s, j);
      }
    }
    RestKept(s, s');
  }

  lemma WithdrawKeeps(s: Sys, user: UserId, j: nat)
    requires Inv(s)
    ensures Good(s, StepWithdraw(s, user, j))
  {
    var s' := StepWithdraw(s, user, j);
    EvolvesSelf(s.db);
    if s' != s {
      forall k | 0 <= k < |s'.db.intents|
        ensures IntentOk(s', k) && IntentLater(s.db.intents[k], s'.db.intents[k])
      {
        assert IntentOk(s, k);
      }
      RestKept(s, s');
    }
  }

  // ---------- Reading steps ----------

  lemma ReadToCancelKeeps(s: Sys, a: nat, id: nat, who: Claimant)
    requires Inv(s)
    ensures Good(s, StepReadToCancel(s, a, id, who))
  {
    EvolvesSelf(s.db);
    if StepReadToCancel(s, a, id, who) != s {
      ReadKeeps(s, a, Cancelling(id, who, s.db.orders[id]));
    }
  }

  lemma ReadToUpdateKeeps(s: Sys, a: nat, id: nat, req: AdminRequest)
    requires Inv(s)
    ensures Good(s, StepReadToUpdate(s, a, id, req))
  {
    EvolvesSelf(s.db);
    if StepReadToUpdate(s, a, id, req) != s {
      ReadKeeps(s, a, Updating(id, s.db.orders[id], req));
    }
  }

  lemma ReadToPayKeeps(s: Sys, a: nat, id: nat, who: Claimant)
    requires Inv(s)
    ensures Good(s, StepReadToPay(s, a, id, who))
  {
    EvolvesSelf(s.db);
    if StepReadToPay(s, a, id, who) != s {
      ReadKeeps(s, a, Asking(id, s.db.orders[id]));
    }
  }

  lemma CountLinksKeeps(s: Sys, a: nat)
    requires Inv(s)
    ensures Good(s, StepCountLinks(s, a))
  {
    EvolvesSelf(s.db);
    match WorkOf(s, a)
    case Asking(id, snap) =>
      assert Stable(s.db, s.work[a]);
      ReadKeeps(s, a, StepCountLinks(s, a).work[a]);
    case _ =>
  }

  lemma ReadCallbackKeeps(s: Sys, a: nat, id: nat, row: nat, ok: bool)
    requires Inv(s)
    ensures Good(s, StepReadCallback(s, a, id, row, ok))
  {
    EvolvesSelf(s.db);
    if StepReadCallback(s, a, id, row, ok) != s {
      ReadKeeps(s, a, StepReadCallback(s, a, id, row, ok).work[a]);
    }
  }

  // ---------- Every step ----------

  lemma ShopStepKeeps(s: Sys, step: Step)
    requires Inv(s)
    requires !IsCreateStep(step) && !IsMoveStep(step) && !IsLinkStep(step) && !IsCallbackStep(step)
    ensures Good(s, Apply(s, step))
  {
    match step
    case Wait(ms) =>
      EvolvesSelf(s.db);
      WaitKeeps(s, ms);
    case AddProduct(slug, usd, stock, shown) => AddProductKeeps(s, slug, usd, stock, shown);
    case EditProduct(slug, price, count, shown) => EditProductKeeps(s, slug, price, count, shown);
    case RevokeAll(user) => RevokeAllKeeps(s, user);
    case Grant(user, maxUsd, ttl) => GrantKeeps(s, user, maxUsd, ttl);
    case Withdraw(user, j) => WithdrawKeeps(s, user, j);
  }

  lemma CreateStepKeeps(s: Sys, step: Step)
    requires Inv(s)
    requires IsCreateStep(step)
    ensures Good(s, Apply(s, step))
  {
    match step
    case ReadCart(a, userId, contact, paidBy, items) => ReadCartKeeps(s, a, userId, contact, paidBy, items);
    case Vet(a, j) => VetKeeps(s, a, j);
    case Lock(a) => LockKeeps(s, a);
    case Place(a, code) => PlaceKeeps(s, a, code);
    case Attach(a) => AttachKeeps(s, a);
  }

  lemma MoveStepKeeps(s: Sys, step: Step)
    requires Inv(s)
    requires IsMoveStep(step)
    ensures Good(s, Apply(s, step))
  {
    match step
    case ReadToCancel(a, id, who) => ReadToCancelKeeps(s, a, id, who);
    case Cancel(a) => CancelKeeps(s, a);
    case Scan(a, ids, cutoff) => ScanKeeps(s, a, ids, cutoff);
    case Expire(a) => ExpireKeeps(s, a);
    case ReadToUpdate(a, id, req) => ReadToUpdateKeeps(s, a, id, req);
    case Update(a) => UpdateKeeps(s, a);
  }

  lemma LinkingStepKeeps(s: Sys, step: Step)
    requires Inv(s) && IsLinkStep(step)
    ensures Good(s, Apply(s, step))
  {
    match step
    case ReadToPay(a, id, who) => ReadToPayKeeps(s, a, id, who);
    case CountLinks(a) => CountLinksKeeps(s, a);
    case Link(a, txnRef) => LinkStepKeeps(s, a, txnRef);
  }

  lemma CallbackStepKeeps(s: Sys, step: Step)
    requires Inv(s) && IsCallbackStep(step)
    ensures Good(s, Apply(s, step))
  {
    match step
    case ReadCallback(a, id, row, ok) => ReadCallbackKeeps(s, a, id, row, ok);
    case Settle(a, rollBack) => SettleStepKeeps(s, a, rollBack);
    case Reread(a) => RereadKeeps(s, a);
  }

  lemma StepKeeps(s: Sys, step: Step)
    requires Inv(s)
    ensures Good(s, Apply(s, step))
  {
    if IsCreateStep(step) {
      CreateStepKeeps(s, step);
    } else if IsLinkStep(step) {
      LinkingStepKeeps(s, step);
    } else if IsCallbackStep(step) {
      CallbackStepKeeps(s, step);
    } else if IsMoveStep(step) {
      MoveStepKeeps(s, step);
    } else {
      ShopStepKeeps(s, step);
    }
  }

  lemma WaitKeeps(s: Sys, ms: nat)
    requires Inv(s)
    ensures Inv(Apply(s, Wait(ms)))
  {
    var s' := Apply(s, Wait(ms));
    forall i | 0 <= i < |s'.db.orders| ensures OrderAt(s', i) {
      assert OrderAt(s, i);
    }
    forall j | 0 <= j < |s'.db.intents| ensures IntentOk(s', j) {
      assert IntentOk(s, j);
    }
    forall a | a in s'.work ensures HolderOk(s', s'.work[a]) {
      assert HolderOk(s, s.work[a]);
    }
  }
}
