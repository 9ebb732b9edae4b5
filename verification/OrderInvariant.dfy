/** What every step of the order protocol keeps. */
module OrderInvariant {
  import opened Prelude
  import opened Pricing
  import opened Shop
  import opened Checkout
  import opened Transactions
  import opened OrderLaws
  import opened OrderProtocol

  // ---------- How rows evolve ----------

  ghost predicate RowLater(p: Payment, p': Payment) {
    && p' == p.(status := p'.status)
    && (p.status != Unsettled ==> p' == p)
  }

  /** `o'` is a later version of `o`: the same goods and totals, a longer trail, and either the same
      status with the same books or one further along the graph. No status is ever revisited. */
  ghost predicate Later(o: Order, o': Order) {
    && o'.code == o.code && o'.userId == o.userId && o'.contact == o.contact && o'.createdAt == o.createdAt
    && o'.lines == o.lines && o'.totalUsd == o.totalUsd && o'.totalVnd == o.totalVnd
    && o.events <= o'.events
    && |o.payments| <= |o'.payments|
    && (forall k :: 0 <= k < |o.payments| ==> RowLater(o.payments[k], o'.payments[k]))
    && (if o'.status == o.status
        then o'.paidUsd == o.paidUsd && o'.paidVnd == o.paidVnd && o'.events == o.events
        else Reaches(o.status, o'.status))
  }

  lemma LaterTransitive(o: Order, p: Order, q: Order)
    requires Later(o, p) && Later(p, q)
    ensures Later(o, q)
  {
    forall k | 0 <= k < |o.payments| ensures RowLater(o.payments[k], q.payments[k]) {
      assert RowLater(o.payments[k], p.payments[k]) && RowLater(p.payments[k], q.payments[k]);
    }
  }

  ghost predicate IntentLater(i: Intent, i': Intent) {
    && i'.userId == i.userId && i'.maxUsd == i.maxUsd && i'.expiresAt == i.expiresAt
    && (i.orderId.Some? ==> i' == i)
  }

  ghost predicate Evolves(db: Db, db': Db) {
    && db.products.Keys <= db'.products.Keys
    && |db.orders| <= |db'.orders| && (forall i :: 0 <= i < |db.orders| ==> Later(db.orders[i], db'.orders[i]))
    && |db.intents| <= |db'.intents|
    && (forall j :: 0 <= j < |db.intents| ==> IntentLater(db.intents[j], db'.intents[j]))
  }

  lemma EvolvesTransitive(x: Db, y: Db, z: Db)
    requires Evolves(x, y) && Evolves(y, z)
    ensures Evolves(x, z)
  {
    forall i | 0 <= i < |x.orders| ensures Later(x.orders[i], z.orders[i]) {
      LaterTransitive(x.orders[i], y.orders[i], z.orders[i]);
    }
    forall j | 0 <= j < |x.intents| ensures IntentLater(x.intents[j], z.intents[j]) {
      assert IntentLater(x.intents[j], y.intents[j]) && IntentLater(y.intents[j], z.intents[j]);
    }
  }

  // ---------- The invariant ----------

  /** Conservation: what is on the shelf plus what live orders hold is everything ever supplied. */
  ghost predicate StockInv(s: Sys) {
    && s.supply.Keys == s.db.products.Keys
    && forall slug :: slug in s.db.products ==>
         && 0 <= s.db.products[slug].stock
         && s.db.products[slug].stock + HeldByAll(s.db.orders, slug) == s.supply[slug]
  }

  ghost predicate OrderAt(s: Sys, i: nat)
    requires i < |s.db.orders| && i < |s.gaps|
  {
    OrderOk(s.db.orders[i], s.gaps[i]) && LinesKnown(s.db.orders[i].lines, s.db.products)
  }

  ghost predicate OrdersInv(s: Sys) {
    && |s.gaps| == |s.db.orders|
    && (forall i :: 0 <= i < |s.db.orders| ==> OrderAt(s, i))
    && (forall i, k :: 0 <= i < k < |s.db.orders| ==> s.db.orders[i].code != s.db.orders[k].code)
  }

  ghost predicate DraftOk(d: Draft, products: map<Slug, Product>) {
    && 0 < d.quote.totalUsd && d.quote.totalVnd == USD_TO_VND * d.quote.totalUsd && MethodAccepted(d.paidBy)
    && LinesKnown(d.quote.lines, products)
  }

  ghost predicate Snapshot(db: Db, id: nat, snap: Order) {
    id < |db.orders| && Later(snap, db.orders[id])
  }

  ghost predicate Vets(db: Db, d: Draft, j: nat, at: int) {
    && j < |db.intents|
    && d.userId == Some(db.intents[j].userId)
    && d.quote.totalUsd <= db.intents[j].maxUsd
    && at < db.intents[j].expiresAt
  }

  /** A row a callback can name. */
  predicate HasReference(db: Db, id: nat, row: nat) {
    HasRow(db, id, row) && db.orders[id].payments[row].txnRef.Some?
  }

  /** The facts about an actor's captured rows that no other actor can spoil. */
  ghost predicate Stable(db: Db, w: Work) {
    match w
    case Idle => true
    case Quoted(d) => DraftOk(d, db.products)
    case Vetted(d, j, at, seen) => DraftOk(d, db.products) && Vets(db, d, j, at) && seen == Active
    case Holding(d, j) => DraftOk(d, db.products) && j < |db.intents|
    case Placed(o, j) => o < |db.orders| && j < |db.intents|
    case Cancelling(id, who, snap) => Snapshot(db, id, snap) && CancelRefused(snap, who).None?
    case Expiring(todo, cutoff) =>
      forall i :: 0 <= i < |todo| ==>
        Snapshot(db, todo[i].id, todo[i].snap) && todo[i].snap.status == Pending && todo[i].snap.createdAt < cutoff
    case Updating(id, snap, req) => Snapshot(db, id, snap) && AdminRefused(snap, req).None?
    case Asking(id, snap) => Snapshot(db, id, snap)
    case Linking(id, snap) => Snapshot(db, id, snap)
    case Settling(id, row, _) => HasReference(db, id, row)
    case Rereading(id, row, rolledBack) =>
      HasReference(db, id, row) && (!rolledBack ==> RowStatus(db, id, row) != Unsettled)
    case Settled(id, row, ok) =>
      HasReference(db, id, row) && RowStatus(db, id, row) == if ok then Success else Failed
    case Answered(id, row, settled, rolledBack) =>
      && HasReference(db, id, row)
      && (settled ==> RowStatus(db, id, row) == Success)
      && (!rolledBack && !settled ==> RowStatus(db, id, row) == Failed)
  }

  function Grip(w: Work): Option<nat> {
    match w
    case Holding(_, j) => Some(j)
    case Placed(_, j) => Some(j)
    case _ => None
  }

  datatype RowId = RowId(id: nat, row: nat)

  function Won(w: Work): Option<RowId> {
    match w
    case Settled(id, row, _) => Some(RowId(id, row))
    case _ => None
  }

  ghost predicate WorkInv(s: Sys) {
    && (forall a :: a in s.work ==> Stable(s.db, s.work[a]))
    && (forall a, b :: a in s.work && b in s.work && a != b && Won(s.work[a]).Some? ==>
          Won(s.work[a]) != Won(s.work[b]))
  }

  ghost predicate ClaimFits(s: Sys, j: nat)
    requires j < |s.db.intents|
  {
    && j in s.claims
    && s.claims[j].totalUsd <= s.db.intents[j].maxUsd
    && s.claims[j].checkedAt < s.db.intents[j].expiresAt
    && s.claims[j].seen == Active
  }

  /** `o` is an order the intent's claim was made for. */
  ghost predicate ClaimedBy(s: Sys, j: nat, o: nat)
    requires j < |s.db.intents|
  {
    && o < |s.db.orders|
    && s.db.orders[o].userId == Some(s.db.intents[j].userId)
    && j in s.claims && s.db.orders[o].totalUsd == s.claims[j].totalUsd
  }

  ghost predicate IntentOk(s: Sys, j: nat)
    requires j < |s.db.intents|
  {
    match s.db.intents[j].status
    case Active => s.db.intents[j].orderId == None
    case Revoked => s.db.intents[j].orderId == None
    case Locked => s.db.intents[j].orderId == None && ClaimFits(s, j)
    case Used => s.db.intents[j].orderId.Some? && ClaimFits(s, j) && ClaimedBy(s, j, s.db.intents[j].orderId.value)
  }

  /** An actor holding an intent is the only one, the intent is locked, and what it will place or has
      placed is what the intent was checked for. */
  ghost predicate HolderOk(s: Sys, w: Work) {
    match w
    case Holding(d, j) =>
      && j < |s.db.intents| && s.db.intents[j].status == Locked
      && j in s.claims && s.claims[j].totalUsd == d.quote.totalUsd
      && d.userId == Some(s.db.intents[j].userId)
    case Placed(o, j) =>
      j < |s.db.intents| && s.db.intents[j].status == Locked && ClaimedBy(s, j, o)
    case _ => true
  }

  ghost predicate IntentInv(s: Sys) {
    && (forall j :: 0 <= j < |s.db.intents| ==> IntentOk(s, j))
    && (forall a :: a in s.work ==> HolderOk(s, s.work[a]))
    && (forall a, b :: a in s.work && b in s.work && a != b && Grip(s.work[a]).Some? ==>
          Grip(s.work[a]) != Grip(s.work[b]))
  }

  ghost predicate Inv(s: Sys) {
    StockInv(s) && OrdersInv(s) && WorkInv(s) && IntentInv(s)
  }

  /** One step keeps the invariant and only moves rows forward. */
  ghost predicate Good(s: Sys, s': Sys) {
    Inv(s') && Evolves(s.db, s'.db)
  }

  // ---------- Stability ----------

  lemma KnownGrows(lines: seq<Line>, ps: map<Slug, Product>, ps': map<Slug, Product>)
    requires LinesKnown(lines, ps) && ps.Keys <= ps'.Keys
    ensures LinesKnown(lines, ps')
  {
    forall i | 0 <= i < |lines| && lines[i].slug.Some? ensures lines[i].slug.value in ps' {
      assert lines[i].slug.value in ps.Keys;
    }
  }

  lemma SnapshotGrows(db: Db, db': Db, id: nat, snap: Order)
    requires Evolves(db, db') && Snapshot(db, id, snap)
    ensures Snapshot(db', id, snap)
  {
    LaterTransitive(snap, db.orders[id], db'.orders[id]);
  }

  lemma RowGrows(db: Db, db': Db, id: nat, row: nat)
    requires Evolves(db, db') && HasRow(db, id, row)
    ensures HasRow(db', id, row) && RowLater(db.orders[id].payments[row], db'.orders[id].payments[row])
  {
    assert Later(db.orders[id], db'.orders[id]);
  }

  lemma StableGrows(db: Db, db': Db, w: Work)
    requires Evolves(db, db') && Stable(db, w)
    ensures Stable(db', w)
  {
    match w
    case Idle =>
    case Quoted(d) => KnownGrows(d.quote.lines, db.products, db'.products);
    case Vetted(d, j, at, _) =>
      KnownGrows(d.quote.lines, db.products, db'.products);
      assert IntentLater(db.intents[j], db'.intents[j]);
    case Holding(d, j) => KnownGrows(d.quote.lines, db.products, db'.products);
    case Placed(o, j) =>
    case Cancelling(id, _, snap) => SnapshotGrows(db, db', id, snap);
    case Expiring(todo, _) =>
      forall i | 0 <= i < |todo| ensures Snapshot(db', todo[i].id, todo[i].snap) {
        SnapshotGrows(db, db', todo[i].id, todo[i].snap);
      }
    case Updating(id, snap, _) => SnapshotGrows(db, db', id, snap);
    case Asking(id, snap) => SnapshotGrows(db, db', id, snap);
    case Linking(id, snap) => SnapshotGrows(db, db', id, snap);
    case Settling(id, row, _) => RowGrows(db, db', id, row);
    case Rereading(id, row, _) => RowGrows(db, db', id, row);
    case Settled(id, row, _) => RowGrows(db, db', id, row);
    case Answered(id, row, _, _) => RowGrows(db, db', id, row);
  }

  /** After a step that touches no intent, the acting actor's new work is all there is to check. */
  lemma WorkKept(s: Sys, s': Sys, a: nat, w: Work)
    requires Inv(s) && Evolves(s.db, s'.db)
    requires s'.work == s.work[a := w] && s'.claims == s.claims && s'.db.intents == s.db.intents
    requires Stable(s'.db, w) && HolderOk(s', w)
    requires Grip(w).Some? ==> Grip(w) == Grip(WorkOf(s, a))
    requires Won(w).Some? ==> forall b :: b in s.work && b != a ==> Won(s.work[b]) != Won(w)
    ensures WorkInv(s') && IntentInv(s')
  {
    forall b | b in s'.work ensures Stable(s'.db, s'.work[b]) && HolderOk(s', s'.work[b]) {
      if b != a {
        StableGrows(s.db, s'.db, s.work[b]);
        HolderKept(s, s', s.work[b]);
      }
    }
    IntentsKept(s, s');
  }

  lemma IntentsKept(s: Sys, s': Sys)
    requires IntentInv(s) && Evolves(s.db, s'.db) && s'.claims == s.claims && s'.db.intents == s.db.intents
    ensures forall j :: 0 <= j < |s'.db.intents| ==> IntentOk(s', j)
  {
    forall j | 0 <= j < |s'.db.intents| ensures IntentOk(s', j) {
      assert IntentOk(s, j);
      if s.db.intents[j].status == Used {
        var o := s.db.intents[j].orderId.value;
        assert Later(s.db.orders[o], s'.db.orders[o]);
      }
    }
  }

  lemma HolderKept(s: Sys, s': Sys, w: Work)
    requires HolderOk(s, w) && Evolves(s.db, s'.db) && s'.claims == s.claims
    requires Grip(w).Some? ==>
      Grip(w).value < |s.db.intents| && s'.db.intents[Grip(w).value] == s.db.intents[Grip(w).value]
    ensures HolderOk(s', w)
  {
    match w
    case Placed(o, j) => assert Later(s.db.orders[o], s'.db.orders[o]);
    case _ =>
  }

  /** The database itself does not change: only this actor's work does. */
  lemma ReadKeeps(s: Sys, a: nat, w: Work)
    requires Inv(s) && Stable(s.db, w) && Grip(w).None? && Won(w).None?
    ensures Good(s, Now(s, a, w))
  {
    var s' := Now(s, a, w);
    EvolvesSelf(s.db);
    forall i | 0 <= i < |s'.db.orders| ensures OrderAt(s', i) {
      assert OrderAt(s, i);
    }
    WorkKept(s, s', a, w);
  }

  lemma EvolvesSelf(db: Db)
    ensures Evolves(db, db)
  {
  }

  // ---------- One order changes ----------

  /** `s'` is `s` with order `id` replaced, its gap set, the products given, and the actor moved on. */
  ghost predicate Replaces(s: Sys, s': Sys, id: nat, o: Order, gap: nat, a: nat, w: Work) {
    && id < |s.db.orders| && id < |s.gaps|
    && s' == s.(db := s.db.(orders := s.db.orders[id := o], products := s'.db.products),
                gaps := s.gaps[id := gap], work := s.work[a := w])
  }

  lemma ReplaceKeeps(s: Sys, s': Sys, id: nat, o: Order, gap: nat, a: nat, w: Work)
    requires Inv(s) && Replaces(s, s', id, o, gap, a, w)
    requires s'.db.products.Keys == s.db.products.Keys
    requires Later(s.db.orders[id], o) && OrderOk(o, gap)
    ensures OrdersInv(s') && Evolves(s.db, s'.db)
  {
    assert OrderAt(s, id);
    KnownGrows(o.lines, s.db.products, s'.db.products);
    forall i | 0 <= i < |s'.db.orders| ensures OrderAt(s', i) {
      if i != id {
        assert OrderAt(s, i);
        KnownGrows(s.db.orders[i].lines, s.db.products, s'.db.products);
      }
    }
    forall i | 0 <= i < |s.db.orders| ensures Later(s.db.orders[i], s'.db.orders[i]) {
    }
  }

  /** The goods of order `id` go back to the shelf exactly when the order stops holding them. */
  lemma StockKept(s: Sys, s': Sys, id: nat, o: Order)
    requires StockInv(s) && OrdersInv(s) && id < |s.db.orders|
    requires s'.db.orders == s.db.orders[id := o] && s'.supply == s.supply
    requires o.lines == s.db.orders[id].lines
    requires if HoldsStock(s.db.orders[id].status) && !HoldsStock(o.status)
             then StockMoved(s.db.products, s'.db.products, o.lines, 1)
             else s'.db.products == s.db.products && HoldsStock(o.status) == HoldsStock(s.db.orders[id].status)
    ensures StockInv(s')
  {
    forall slug | slug in s'.db.products
      ensures && 0 <= s'.db.products[slug].stock
              && s'.db.products[slug].stock + HeldByAll(s'.db.orders, slug) == s'.supply[slug]
    {
      assert slug in s.db.products.Keys;
      HeldAfterUpdate(s.db.orders, id, o, slug);
    }
  }
}
