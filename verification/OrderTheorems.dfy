/** What the order protocol guarantees over every run, however its actors interleave or crash. */
module OrderTheorems {
  import opened Prelude
  import opened Shop
  import opened Checkout
  import opened Transactions
  import Phone
  import opened OrderLaws
  import opened OrderProtocol
  import opened OrderInvariant
  import opened OrderSteps

  lemma {:induction false} RunKeeps(s: Sys, steps: seq<Step>)
    requires Inv(s)
    ensures Good(s, Run(s, steps))
  {
    if steps == [] {
      EvolvesSelf(s.db);
    } else {
      var mid := Run(s, steps[..|steps| - 1]);
      RunKeeps(s, steps[..|steps| - 1]);
      StepKeeps(mid, steps[|steps| - 1]);
      EvolvesTransitive(s.db, mid.db, Run(s, steps).db);
    }
  }

  lemma {:induction false} RunJoins(s: Sys, first: seq<Step>, rest: seq<Step>)
    ensures Run(s, first + rest) == Run(Run(s, first), rest)
  {
    if rest == [] {
      assert first + rest == first;
    } else {
      assert (first + rest)[..|first + rest| - 1] == first + rest[..|rest| - 1];
      RunJoins(s, first, rest[..|rest| - 1]);
    }
  }

  lemma RunNext(s: Sys, steps: seq<Step>, step: Step)
    ensures Run(s, steps + [step]) == Apply(Run(s, steps), step)
  {
    assert (steps + [step])[..|steps|] == steps;
  }

  lemma RunOne(s: Sys, step: Step)
    ensures Run(s, [step]) == Apply(s, step)
  {
    RunNext(s, [], step);
    assert [] + [step] == [step];
  }

  lemma RunTwo(s: Sys, first: Step, second: Step)
    ensures Run(s, [first, second]) == Apply(Apply(s, first), second)
  {
    RunOne(s, first);
    RunNext(s, [first], second);
    assert [first] + [second] == [first, second];
  }

  lemma RunThree(s: Sys, first: Step, second: Step, third: Step)
    ensures Run(s, [first, second, third]) == Apply(Apply(Apply(s, first), second), third)
  {
    RunTwo(s, first, second);
    RunNext(s, [first, second], third);
    assert [first, second] + [third] == [first, second, third];
  }

  /** Asking for a payment link, undisturbed. */
  function AskSteps(a: nat, id: nat, who: Claimant, txnRef: string): seq<Step> {
    [ReadToPay(a, id, who), CountLinks(a), Link(a, txnRef)]
  }

  lemma AskReads(s: Sys, a: nat, id: nat, who: Claimant)
    requires WorkOf(s, a) == Idle && id < |s.db.orders| && MayAsk(s.db.orders[id], who)
    ensures Apply(s, ReadToPay(a, id, who)) == Now(s, a, Asking(id, s.db.orders[id]))
  {
    assert Apply(s, ReadToPay(a, id, who)) == StepReadToPay(s, a, id, who);
  }

  lemma AskCounts(s: Sys, a: nat, id: nat, snap: Order)
    requires WorkOf(s, a) == Asking(id, snap)
    requires id < |s.db.orders| && OpenLinks(s.db.orders[id].payments) < MAX_OPEN_LINKS
    ensures Apply(s, CountLinks(a)) == Now(s, a, Linking(id, snap))
  {
    assert Apply(s, CountLinks(a)) == StepCountLinks(s, a);
  }

  lemma AskInserts(s: Sys, a: nat, id: nat, snap: Order, txnRef: string)
    requires WorkOf(s, a) == Linking(id, snap)
    ensures Apply(s, Link(a, txnRef)) == Now(s, a, Idle).(db := InsertLink(s.db, id, snap, txnRef))
  {
    assert Apply(s, Link(a, txnRef)) == StepLink(s, a, txnRef);
  }

  lemma WorkReplaced(s: Sys, a: nat, first: Work, second: Work, last: Work)
    ensures Now(Now(Now(s, a, first), a, second), a, last) == Now(s, a, last)
  {
    assert s.work[a := first][a := second][a := last] == s.work[a := last];
  }

  lemma AskInOrder(s: Sys, a: nat, id: nat, who: Claimant, txnRef: string)
    requires WorkOf(s, a) == Idle && id < |s.db.orders| && MayPay(s.db.orders[id], who)
    ensures Apply(Apply(Apply(s, ReadToPay(a, id, who)), CountLinks(a)), Link(a, txnRef))
      == Now(s, a, Idle).(db := InsertLink(s.db, id, s.db.orders[id], txnRef))
  {
    var o := s.db.orders[id];
    var read := Now(s, a, Asking(id, o));
    var counted := Now(read, a, Linking(id, o));
    AskReads(s, a, id, who);
    AskCounts(read, a, id, o);
    AskInserts(counted, a, id, o, txnRef);
    WorkReplaced(s, a, Asking(id, o), Linking(id, o), Idle);
  }

  /** Undisturbed, asking does nothing but insert the row. */
  lemma AskRun(s: Sys, a: nat, id: nat, who: Claimant, txnRef: string)
    requires WorkOf(s, a) == Idle && id < |s.db.orders| && MayPay(s.db.orders[id], who)
    ensures Run(s, AskSteps(a, id, who, txnRef))
      == Now(s, a, Idle).(db := InsertLink(s.db, id, s.db.orders[id], txnRef))
  {
    RunThree(s, ReadToPay(a, id, who), CountLinks(a), Link(a, txnRef));
    AskInOrder(s, a, id, who, txnRef);
  }

  function Reached(steps: seq<Step>): Sys {
    Run(EMPTY, steps)
  }

  lemma ReachedInv(steps: seq<Step>)
    ensures Inv(Reached(steps))
  {
    RunKeeps(EMPTY, steps);
  }

  lemma ReachedLater(steps: seq<Step>, more: seq<Step>)
    ensures Inv(Reached(steps)) && Good(Reached(steps), Reached(steps + more))
  {
    ReachedInv(steps);
    RunKeeps(Reached(steps), more);
    RunJoins(EMPTY, steps, more);
  }

  // ---------- Stock ----------

  /** In every reachable state, for every product: stock is never negative, and stock plus the units of
      orders that are neither cancelled nor refunded is everything ever supplied. */
  lemma StockConserved(steps: seq<Step>, slug: Slug)
    requires slug in Reached(steps).db.products
    ensures var s := Reached(steps);
      && slug in s.supply
      && 0 <= s.db.products[slug].stock
      && s.db.products[slug].stock + HeldByAll(s.db.orders, slug) == s.supply[slug]
  {
    ReachedInv(steps);
  }

  predicate Recounts(step: Step, slug: Slug) {
    step.EditProduct? && step.slug == slug && step.count.Some?
  }

  lemma {:induction false} SupplyFixedFrom(s: Sys, more: seq<Step>, slug: Slug)
    requires Inv(s) && slug in s.supply
    requires forall i :: 0 <= i < |more| ==> !Recounts(more[i], slug)
    ensures slug in Run(s, more).supply && Run(s, more).supply[slug] == s.supply[slug]
  {
    if more != [] {
      var n := |more| - 1;
      SupplyFixedFrom(s, more[..n], slug);
      RunKeeps(s, more[..n]);
      assert !Recounts(more[n], slug);
      StepSupply(Run(s, more[..n]), more[n], slug);
    }
  }

  /** The supply is the stock the product was created with, until an administrator recounts it. */
  lemma SupplyFixed(steps: seq<Step>, more: seq<Step>, slug: Slug)
    requires slug in Reached(steps).supply
    requires forall i :: 0 <= i < |more| ==> !Recounts(more[i], slug)
    ensures slug in Reached(steps + more).supply && Reached(steps + more).supply[slug] == Reached(steps).supply[slug]
  {
    ReachedInv(steps);
    SupplyFixedFrom(Reached(steps), more, slug);
    RunJoins(EMPTY, steps, more);
  }

  lemma SupplyKept(s: Sys, step: Step)
    requires !step.AddProduct? && !step.EditProduct?
    ensures Apply(s, step).supply == s.supply
  {
  }

  lemma StepSupply(s: Sys, step: Step, slug: Slug)
    requires Inv(s) && slug in s.supply && !Recounts(step, slug)
    ensures slug in Apply(s, step).supply && Apply(s, step).supply[slug] == s.supply[slug]
  {
    assert slug in s.db.products.Keys;
    if !step.AddProduct? && !step.EditProduct? {
      SupplyKept(s, step);
    }
  }

  // ---------- New orders ----------

  lemma OnlyPlacingAdds(s: Sys, step: Step)
    requires |Apply(s, step).db.orders| > |s.db.orders|
    ensures step.Place?
  {
  }

  /** An order that was not there before was placed from the draft its actor held. */
  lemma NewOrderIs(s: Sys, step: Step, id: nat) returns (d: Draft)
    requires |s.db.orders| <= id < |Apply(s, step).db.orders|
    ensures step.Place? && Apply(s, step) == StepPlace(s, step.a, step.code)
    ensures id == |s.db.orders| && Apply(s, step).db.orders[id] == NewOrder(d, step.code, s.clock)
  {
    OnlyPlacingAdds(s, step);
    d := WorkOf(s, step.a).d;
  }

  lemma NewOrderRow(d: Draft, code: string, now: int)
    ensures var ps := NewOrder(d, code, now).payments;
      Links(ps) == (if d.paidBy == Vnpay && Simulated(d) then 1 else 0) && OpenLinks(ps) <= 1
  {
    var ps := NewOrder(d, code, now).payments;
    assert ps[..0] == [];
  }

  // ---------- Status and trail ----------

  /** Completed, cancelled and refunded orders never move again, whatever stale readers do. */
  lemma TerminalStays(steps: seq<Step>, more: seq<Step>, id: nat)
    requires id < |Reached(steps).db.orders| && Terminal(Reached(steps).db.orders[id].status)
    ensures id < |Reached(steps + more).db.orders|
    ensures Reached(steps + more).db.orders[id].status == Reached(steps).db.orders[id].status
    ensures Reached(steps + more).db.orders[id].events == Reached(steps).db.orders[id].events
  {
    ReachedLater(steps, more);
    assert Later(Reached(steps).db.orders[id], Reached(steps + more).db.orders[id]);
  }

  /** A status once left is never seen again, so a conditional update that finds the status it read
      earlier also finds the books it read earlier. */
  lemma StatusNeverRevisited(steps: seq<Step>, more: seq<Step>, rest: seq<Step>, id: nat)
    requires id < |Reached(steps).db.orders|
    requires id < |Reached(steps + more + rest).db.orders|
    requires Reached(steps + more + rest).db.orders[id].status == Reached(steps).db.orders[id].status
    ensures id < |Reached(steps + more).db.orders|
    ensures var before, between := Reached(steps).db.orders[id], Reached(steps + more).db.orders[id];
      && between.status == before.status && between.events == before.events
      && between.paidUsd == before.paidUsd && between.paidVnd == before.paidVnd
  {
    ReachedLater(steps, more);
    ReachedLater(steps + more, rest);
    assert Later(Reached(steps).db.orders[id], Reached(steps + more).db.orders[id]);
    assert Later(Reached(steps + more).db.orders[id], Reached(steps + more + rest).db.orders[id]);
  }

  /** This step is a settling transaction about to collect a row of a pending order. */
  predicate CollectsPending(s: Sys, step: Step, id: nat) {
    && step.Settle? && !step.rollBack
    && var w := WorkOf(s, step.a);
    && w.Settling? && w.id == id && w.ok
    && HasRow(s.db, id, w.row) && RowStatus(s.db, id, w.row) == Unsettled && s.db.orders[id].status == Pending
  }

  /** This step is an administrator's update to paid that still finds the status it read. */
  predicate ConfirmsByHand(s: Sys, step: Step, id: nat) {
    && step.Update?
    && var w := WorkOf(s, step.a);
    && w.Updating? && w.id == id && w.req.target == Some(Paid)
    && id < |s.db.orders| && s.db.orders[id].status == w.snap.status
  }

  lemma CreatingKeepsStatus(s: Sys, step: Step, id: nat)
    requires id < |s.db.orders| && (IsCreateStep(step) || IsLinkStep(step))
    ensures id < |Apply(s, step).db.orders| && Apply(s, step).db.orders[id].status == s.db.orders[id].status
  {
  }

  lemma MovingToPaidIff(s: Sys, step: Step, id: nat)
    requires id < |s.db.orders| && s.db.orders[id].status != Paid && IsMoveStep(step)
    ensures id < |Apply(s, step).db.orders|
    ensures Apply(s, step).db.orders[id].status == Paid <==> ConfirmsByHand(s, step, id)
  {
  }

  lemma CallbackToPaidIff(s: Sys, step: Step, id: nat)
    requires Inv(s) && id < |s.db.orders| && s.db.orders[id].status != Paid && IsCallbackStep(step)
    ensures id < |Apply(s, step).db.orders|
    ensures Apply(s, step).db.orders[id].status == Paid <==> CollectsPending(s, step, id)
  {
  }

  /** Exactly two kinds of step take an order to paid: a settlement that collects while it is pending, and
      an administrator's confirmation, which is then of a pending or a confirmed order. */
  lemma BecomesPaidIff(steps: seq<Step>, step: Step, id: nat)
    requires id < |Reached(steps).db.orders| && Reached(steps).db.orders[id].status != Paid
    ensures var s, t := Reached(steps), Apply(Reached(steps), step);
      && id < |t.db.orders|
      && (t.db.orders[id].status == Paid <==> CollectsPending(s, step, id) || ConfirmsByHand(s, step, id))
      && (t.db.orders[id].status == Paid ==> ManualPaid(s.db.orders[id].status, Paid))
  {
    var s := Reached(steps);
    ReachedInv(steps);
    if IsCreateStep(step) || IsLinkStep(step) {
      CreatingKeepsStatus(s, step, id);
    } else if IsMoveStep(step) {
      MovingToPaidIff(s, step, id);
    } else if IsCallbackStep(step) {
      CallbackToPaidIff(s, step, id);
    }
    StepKeeps(s, step);
    assert Later(s.db.orders[id], Apply(s, step).db.orders[id]);
  }

  /** Step `k` of the run was a settlement that took order `id` from pending to paid. */
  predicate SettlesAt(steps: seq<Step>, id: nat, k: nat)
    requires k < |steps|
  {
    var s := Reached(steps[..k]);
    && steps[k].Settle?
    && id < |s.db.orders| && s.db.orders[id].status == Pending
    && id < |Apply(s, steps[k]).db.orders| && Apply(s, steps[k]).db.orders[id].status == Paid
  }

  ghost predicate MovedBySettlement(steps: seq<Step>, id: nat) {
    exists k :: 0 <= k < |steps| && SettlesAt(steps, id, k)
  }

  lemma GapsKept(s: Sys, step: Step)
    requires !step.Place? && !step.Settle?
    ensures Apply(s, step).gaps == s.gaps
  {
  }

  lemma PlaceGap(s: Sys, a: nat, code: string, id: nat)
    requires Inv(s) && id < |StepPlace(s, a, code).gaps|
    ensures StepPlace(s, a, code).gaps[id] == if id < |s.gaps| then s.gaps[id] else 0
  {
  }

  /** Settling opens order `id`'s gap exactly when it takes the order from pending to paid. */
  lemma SettleGap(s: Sys, a: nat, rollBack: bool, id: nat)
    requires Inv(s) && id < |s.db.orders|
    ensures var t := StepSettle(s, a, rollBack);
      && |t.gaps| == |s.gaps| && id < |t.db.orders|
      && (t.gaps[id] > 0 <==> s.gaps[id] > 0 || (s.db.orders[id].status == Pending && t.db.orders[id].status == Paid))
  {
    assert OrderAt(s, id);
  }

  lemma StepGap(s: Sys, step: Step, id: nat)
    requires Inv(s) && id < |s.db.orders| && id < |Apply(s, step).gaps|
    ensures Apply(s, step).gaps[id] > 0
      <==> s.gaps[id] > 0
           || (step.Settle? && s.db.orders[id].status == Pending
               && id < |Apply(s, step).db.orders| && Apply(s, step).db.orders[id].status == Paid)
  {
    match step
    case Place(a, code) => PlaceGap(s, a, code, id);
    case Settle(a, rollBack) => SettleGap(s, a, rollBack, id);
    case _ => GapsKept(s, step);
  }

  lemma SettleGapCount(s: Sys, a: nat, rollBack: bool)
    ensures |StepSettle(s, a, rollBack).gaps| == |s.gaps|
  {
  }

  lemma NewGap(s: Sys, step: Step, id: nat)
    requires Inv(s) && |s.db.orders| <= id < |Apply(s, step).gaps|
    ensures Apply(s, step).gaps[id] == 0
  {
    match step
    case Place(a, code) => PlaceGap(s, a, code, id);
    case Settle(a, rollBack) => SettleGapCount(s, a, rollBack);
    case _ => GapsKept(s, step);
  }

  lemma MovedPrefix(steps: seq<Step>, id: nat)
    requires steps != []
    ensures MovedBySettlement(steps, id)
      <==> MovedBySettlement(steps[..|steps| - 1], id) || SettlesAt(steps, id, |steps| - 1)
  {
    var n := |steps| - 1;
    forall k | 0 <= k < n ensures SettlesAt(steps, id, k) <==> SettlesAt(steps[..n], id, k) {
      assert steps[..n][..k] == steps[..k] && steps[..n][k] == steps[k];
    }
    if MovedBySettlement(steps[..n], id) {
      var k :| 0 <= k < n && SettlesAt(steps[..n], id, k);
      assert SettlesAt(steps, id, k);
    }
  }

  lemma {:induction false} NotMovedBefore(steps: seq<Step>, id: nat)
    requires |Reached(steps).db.orders| <= id
    ensures !MovedBySettlement(steps, id)
  {
    if steps != [] {
      var n := |steps| - 1;
      MovedPrefix(steps, id);
      ReachedInv(steps[..n]);
      StepKeeps(Reached(steps[..n]), steps[n]);
      NotMovedBefore(steps[..n], id);
    }
  }

  lemma {:induction false} GapIff(steps: seq<Step>, id: nat)
    requires id < |Reached(steps).db.orders|
    ensures id < |Reached(steps).gaps|
    ensures Reached(steps).gaps[id] > 0 <==> MovedBySettlement(steps, id)
  {
    ReachedInv(steps);
    if steps != [] {
      var n := |steps| - 1;
      var s := Reached(steps[..n]);
      ReachedInv(steps[..n]);
      MovedPrefix(steps, id);
      if id < |s.db.orders| {
        GapIff(steps[..n], id);
        StepGap(s, steps[n], id);
      } else {
        NewGap(s, steps[n], id);
        NotMovedBefore(steps[..n], id);
      }
    }
  }

  /** Every order's trail replays from nothing to its current status exactly when no VNPay settlement
      moved it; a settlement leaves exactly one gap. */
  lemma TrailReplaysIff(steps: seq<Step>, id: nat)
    requires id < |Reached(steps).db.orders|
    ensures var o := Reached(steps).db.orders[id];
      Replay(o.events) == At(Some(o.status)) <==> !MovedBySettlement(steps, id)
  {
    ReachedInv(steps);
    assert OrderAt(Reached(steps), id);
    GapIff(steps, id);
    ReplaysIff(Reached(steps).db.orders[id], Reached(steps).gaps[id]);
  }

  // ---------- Who wrote the trail ----------

  /** The caller may act for the order: signed in as its user, or giving its contact. */
  predicate Entitled(o: Order, who: Claimant) {
    || (who.userId.Some? && o.userId == Some(who.userId.value))
    || (who.contact.Some? && Phone.SameContact(o.contact, who.contact.value))
  }

  /** What the acting actor of this step was about to do accounts for event `e` of order `id`: a customer's
      cancellation by an entitled caller, an expiry of an order older than its sweep's cutoff, or an
      administrator's update that asked for just this status and is signed with its actor. */
  predicate Accounts(s: Sys, step: Step, id: nat, o: Order, e: Event) {
    match step
    case Cancel(a) =>
      var w := WorkOf(s, a);
      && w.Cancelling? && w.id == id && Entitled(o, w.who)
      && e == Event(Some(Pending), Cancelled, w.who.userId, CustomerCancelled)
    case Expire(a) =>
      var w := WorkOf(s, a);
      && w.Expiring? && w.todo != [] && w.todo[0].id == id && o.createdAt < w.cutoff
      && e == Event(Some(Pending), Cancelled, None, PaymentExpired)
    case Update(a) =>
      var w := WorkOf(s, a);
      && w.Updating? && w.id == id && w.req.target == Some(e.to) && e.actor == w.req.actor
      && e.note != CustomerCancelled && e.note != PaymentExpired
    case _ => false
  }

  lemma CreatingWritesNothing(s: Sys, step: Step, id: nat)
    requires id < |s.db.orders| && (IsCreateStep(step) || IsLinkStep(step))
    ensures id < |Apply(s, step).db.orders| && Apply(s, step).db.orders[id].events == s.db.orders[id].events
  {
  }

  lemma CallbackWritesNothing(s: Sys, step: Step, id: nat)
    requires id < |s.db.orders| && IsCallbackStep(step)
    ensures id < |Apply(s, step).db.orders| && Apply(s, step).db.orders[id].events == s.db.orders[id].events
  {
  }

  lemma ReadingWritesNothing(s: Sys, step: Step, id: nat)
    requires id < |s.db.orders| && IsMoveStep(step) && !step.Cancel? && !step.Expire? && !step.Update?
    ensures id < |Apply(s, step).db.orders| && Apply(s, step).db.orders[id].events == s.db.orders[id].events
  {
  }

  /** `t` is `s` with at most one event more on order `id`, which this step accounts for. */
  ghost predicate Accounted(s: Sys, step: Step, t: Sys, id: nat)
    requires id < |s.db.orders|
  {
    && id < |t.db.orders|
    && var o, es := s.db.orders[id], t.db.orders[id].events;
    es == o.events || (|es| == |o.events| + 1 && o.events <= es && Accounts(s, step, id, o, es[|o.events|]))
  }

  lemma CancelWrites(db: Db, target: nat, lines: seq<Line>, actor: Option<UserId>, note: Note, id: nat)
    requires CommitCancel(db, target, lines, actor, note).Some? && id < |db.orders|
    ensures var db' := CommitCancel(db, target, lines, actor, note).value;
      && id < |db'.orders|
      && db'.orders[id].events
         == db.orders[id].events + if id == target then [Event(Some(Pending), Cancelled, actor, note)] else []
  {
  }

  lemma CancelAccounts(s: Sys, a: nat, id: nat)
    requires Inv(s) && id < |s.db.orders|
    ensures Accounted(s, Cancel(a), StepCancel(s, a), id)
  {
    match WorkOf(s, a)
    case Cancelling(target, who, snap) =>
      assert Stable(s.db, s.work[a]);
      if CommitCancel(s.db, target, snap.lines, who.userId, CustomerCancelled).Some? {
        CancelWrites(s.db, target, snap.lines, who.userId, CustomerCancelled, id);
      }
    case _ =>
  }

  lemma ExpireAccounts(s: Sys, a: nat, id: nat)
    requires Inv(s) && id < |s.db.orders|
    ensures Accounted(s, Expire(a), StepExpire(s, a), id)
  {
    match WorkOf(s, a)
    case Expiring(todo, cutoff) =>
      if todo != [] && CommitCancel(s.db, todo[0].id, todo[0].snap.lines, None, PaymentExpired).Some? {
        assert Stable(s.db, s.work[a]) && Snapshot(s.db, todo[0].id, todo[0].snap);
        CancelWrites(s.db, todo[0].id, todo[0].snap.lines, None, PaymentExpired, id);
      }
    case _ =>
  }

  lemma UpdateAccounts(s: Sys, a: nat, id: nat)
    requires id < |s.db.orders|
    ensures Accounted(s, Update(a), StepUpdate(s, a), id)
  {
  }

  lemma StepAccounts(s: Sys, step: Step, id: nat)
    requires Inv(s) && id < |s.db.orders|
    ensures Accounted(s, step, Apply(s, step), id)
  {
    if IsCreateStep(step) || IsLinkStep(step) {
      CreatingWritesNothing(s, step, id);
    } else if IsCallbackStep(step) {
      CallbackWritesNothing(s, step, id);
    } else if step.Cancel? {
      CancelAccounts(s, step.a, id);
    } else if step.Expire? {
      ExpireAccounts(s, step.a, id);
    } else if step.Update? {
      UpdateAccounts(s, step.a, id);
    } else if IsMoveStep(step) {
      ReadingWritesNothing(s, step, id);
    }
  }

  /** Whose an order is, and how old, does not change. */
  lemma SameAccount(s: Sys, step: Step, id: nat, o: Order, o': Order, e: Event)
    requires Later(o, o') && Accounts(s, step, id, o, e)
    ensures Accounts(s, step, id, o', e)
  {
  }

  lemma OrderLater(s: Sys, step: Step, id: nat)
    requires Inv(s) && id < |s.db.orders|
    ensures id < |Apply(s, step).db.orders| && Later(s.db.orders[id], Apply(s, step).db.orders[id])
  {
    StepKeeps(s, step);
  }

  lemma NewEventAccounted(s: Sys, step: Step, id: nat, j: nat)
    requires Inv(s) && id < |s.db.orders| && id < |Apply(s, step).db.orders|
    requires |s.db.orders[id].events| <= j < |Apply(s, step).db.orders[id].events|
    ensures var o' := Apply(s, step).db.orders[id]; Accounts(s, step, id, o', o'.events[j])
  {
    var o, o' := s.db.orders[id], Apply(s, step).db.orders[id];
    StepAccounts(s, step, id);
    OrderLater(s, step, id);
    SameAccount(s, step, id, o, o', o'.events[j]);
  }

  /** Over any run: every event with a note, which is every event but an order's first, was written by a
      step that accounts for it. */
  lemma {:induction false} EventsHaveAuthors(steps: seq<Step>, id: nat, j: nat) returns (k: nat)
    requires id < |Reached(steps).db.orders| && j < |Reached(steps).db.orders[id].events|
    requires Reached(steps).db.orders[id].events[j].note != NoNote
    ensures k < |steps|
    ensures var o := Reached(steps).db.orders[id]; Accounts(Reached(steps[..k]), steps[k], id, o, o.events[j])
  {
    var n := |steps| - 1;
    var s, o' := Reached(steps[..n]), Reached(steps).db.orders[id];
    ReachedInv(steps[..n]);
    if id >= |s.db.orders| {
      var d := NewOrderIs(s, steps[n], id);
      assert false;
    } else if j >= |s.db.orders[id].events| {
      NewEventAccounted(s, steps[n], id, j);
      k := n;
    } else {
      OrderLater(s, steps[n], id);
      k := EventsHaveAuthors(steps[..n], id, j);
      assert steps[..n][..k] == steps[..k] && steps[..n][k] == steps[k];
      SameAccount(Reached(steps[..k]), steps[k], id, s.db.orders[id], o', o'.events[j]);
    }
  }

  /** So every cancellation on file as a customer's was committed by a caller entitled to the order, and
      names the user that caller was signed in as, or nobody. */
  lemma CustomerCancelsEntitled(steps: seq<Step>, id: nat, j: nat) returns (k: nat, who: Claimant)
    requires id < |Reached(steps).db.orders| && j < |Reached(steps).db.orders[id].events|
    requires Reached(steps).db.orders[id].events[j].note == CustomerCancelled
    ensures k < |steps| && steps[k].Cancel?
    ensures var w := WorkOf(Reached(steps[..k]), steps[k].a); w.Cancelling? && w.id == id && w.who == who
    ensures var o := Reached(steps).db.orders[id];
      && o.events[j].actor == who.userId
      && (|| (who.userId.Some? && o.userId == Some(who.userId.value))
          || (who.contact.Some? && Phone.SameContact(o.contact, who.contact.value)))
  {
    k := EventsHaveAuthors(steps, id, j);
    who := WorkOf(Reached(steps[..k]), steps[k].a).who;
  }

  // ---------- Books ----------

  /** Outside VNPay the books balance in every reachable state; with VNPay, the SUCCESS rows sum to
      paidUsd exactly when none of them is a VNPay row. Nothing is ever overpaid on the books. */
  lemma LedgerBalances(steps: seq<Step>, id: nat)
    requires id < |Reached(steps).db.orders|
    ensures var o := Reached(steps).db.orders[id];
      && BookedSum(o.payments) == o.paidUsd <= o.totalUsd
      && (CollectedSum(o.payments) == o.paidUsd <==> !VnpayCollected(o))
  {
    ReachedInv(steps);
    assert OrderAt(Reached(steps), id);
    BalancesIff(Reached(steps).db.orders[id], Reached(steps).gaps[id]);
  }

  /** A paid or refunded order is booked in full, in both currencies, exactly when it was not moved by a
      settlement; one that was has nothing booked. */
  lemma PaidOrdersBookedIff(steps: seq<Step>, id: nat)
    requires id < |Reached(steps).db.orders|
    requires Reached(steps).db.orders[id].status == Paid || Reached(steps).db.orders[id].status == Refunded
    ensures var o := Reached(steps).db.orders[id];
      && ((o.paidUsd == o.totalUsd && o.paidVnd == o.totalVnd) <==> !MovedBySettlement(steps, id))
      && (MovedBySettlement(steps, id) ==> o.paidUsd == 0 && o.paidVnd == 0)
  {
    ReachedInv(steps);
    assert OrderAt(Reached(steps), id);
    GapIff(steps, id);
  }

  /** No refund and no manual collection is ever on file without its reference. */
  lemma ReferencesOnFile(steps: seq<Step>, id: nat)
    requires id < |Reached(steps).db.orders|
    ensures var o := Reached(steps).db.orders[id];
      && 0 < |o.events|
      && (o.status == Refunded ==>
            && o.events[|o.events| - 1].to == Refunded
            && o.events[|o.events| - 1].note.RefundNote? && o.events[|o.events| - 1].note.ref != "")
      && (forall k :: 0 <= k < |o.payments| && o.payments[k].paidBy == Manual ==>
            o.payments[k].status == Success && o.payments[k].txnRef.Some? && o.payments[k].txnRef.value != "")
  {
    ReachedInv(steps);
    var s := Reached(steps);
    var o, n := s.db.orders[id], |s.db.orders[id].events|;
    assert OrderAt(s, id);
    assert if n == s.gaps[id] then Slipped(o, n) else Joined(o, n);
    forall k | 0 <= k < |o.payments| ensures RowOk(o, o.payments[k]) {
    }
  }

  // ---------- Settlement ----------

  /** A collected VNPay row is never seen beside a pending order. */
  lemma CollectedMeansNotPending(steps: seq<Step>, id: nat, row: nat)
    requires HasRow(Reached(steps).db, id, row) && RowStatus(Reached(steps).db, id, row) == Success
    requires Reached(steps).db.orders[id].payments[row].paidBy == Vnpay
    ensures Reached(steps).db.orders[id].status != Pending
  {
    ReachedInv(steps);
    assert OrderAt(Reached(steps), id);
    assert RowOk(Reached(steps).db.orders[id], Reached(steps).db.orders[id].payments[row]);
  }

  // ---------- Spending limits ----------

  /** A payment intent is attached to at most one order, for ever; that order is its user's, costs no
      more than the approved maximum, and the intent was active and unexpired when it was checked. */
  lemma IntentUsedOnce(steps: seq<Step>, more: seq<Step>, j: nat, o: nat)
    requires j < |Reached(steps).db.intents| && Reached(steps).db.intents[j].orderId == Some(o)
    ensures j < |Reached(steps + more).db.intents| && Reached(steps + more).db.intents[j].orderId == Some(o)
    ensures var s := Reached(steps + more);
      && o < |s.db.orders|
      && s.db.orders[o].userId == Some(s.db.intents[j].userId)
      && s.db.orders[o].totalUsd <= s.db.intents[j].maxUsd
      && j in s.claims && s.claims[j].seen == Active && s.claims[j].checkedAt < s.db.intents[j].expiresAt
  {
    ReachedLater(steps, more);
    assert IntentLater(Reached(steps).db.intents[j], Reached(steps + more).db.intents[j]);
    assert IntentOk(Reached(steps + more), j);
  }

  /** The intent is locked, and no actor is on its way to attach it. */
  ghost predicate Abandoned(s: Sys, j: nat) {
    && j < |s.db.intents| && s.db.intents[j].status == Locked
    && forall a :: a in s.work ==> Grip(s.work[a]) != Some(j)
  }

  ghost predicate IntentStays(s: Sys, t: Sys, j: nat) {
    Abandoned(s, j) && Abandoned(t, j) && t.db.intents[j] == s.db.intents[j]
  }

  lemma AbandonedWhileCreating(s: Sys, step: Step, j: nat)
    requires Abandoned(s, j) && IsCreateStep(step)
    ensures IntentStays(s, Apply(s, step), j)
  {
  }

  lemma MovingKeepsIntents(s: Sys, step: Step)
    requires IsMoveStep(step)
    ensures Apply(s, step).db.intents == s.db.intents
  {
  }

  lemma MovingGripsNothing(s: Sys, step: Step)
    requires IsMoveStep(step)
    ensures forall a :: a in Apply(s, step).work ==>
      Grip(Apply(s, step).work[a]).None? || (a in s.work && Apply(s, step).work[a] == s.work[a])
  {
  }

  lemma AbandonedWhileLinking(s: Sys, step: Step, j: nat)
    requires Abandoned(s, j) && IsLinkStep(step)
    ensures IntentStays(s, Apply(s, step), j)
  {
  }

  lemma AbandonedWhileSettling(s: Sys, step: Step, j: nat)
    requires Abandoned(s, j) && IsCallbackStep(step)
    ensures IntentStays(s, Apply(s, step), j)
  {
  }

  lemma AbandonedStep(s: Sys, step: Step, j: nat)
    requires Abandoned(s, j)
    ensures IntentStays(s, Apply(s, step), j)
  {
    if IsCreateStep(step) {
      AbandonedWhileCreating(s, step, j);
    } else if IsMoveStep(step) {
      MovingKeepsIntents(s, step);
      MovingGripsNothing(s, step);
    } else if IsLinkStep(step) {
      AbandonedWhileLinking(s, step, j);
    } else if IsCallbackStep(step) {
      AbandonedWhileSettling(s, step, j);
    }
  }

  /** An abandoned lock is for ever: nothing attaches, revokes or frees the intent again. */
  lemma {:induction false} AbandonedForEver(s: Sys, steps: seq<Step>, j: nat)
    requires Abandoned(s, j)
    ensures IntentStays(s, Run(s, steps), j)
  {
    if steps != [] {
      AbandonedForEver(s, steps[..|steps| - 1], j);
      AbandonedStep(Run(s, steps[..|steps| - 1]), steps[|steps| - 1], j);
    }
  }

  /** Running out of stock abandons the lock. */
  lemma SoldOutAbandons(steps: seq<Step>, a: nat, d: Draft, j: nat, code: string)
    requires WorkOf(Reached(steps), a) == Holding(d, j)
    requires CommitCreate(Reached(steps).db, d, code, Reached(steps).clock).OutOfStock?
    ensures Abandoned(Reached(steps + [Place(a, code)]), j)
  {
    var s := Reached(steps);
    ReachedInv(steps);
    RunNext(EMPTY, steps, Place(a, code));
    assert Apply(s, Place(a, code)) == StepPlace(s, a, code) == Now(s, a, Idle);
    assert HolderOk(s, s.work[a]);
    forall b | b in s.work && b != a ensures Grip(s.work[b]) != Some(j) {
      assert Grip(s.work[a]) != Grip(s.work[b]);
    }
  }

  /** The lock is what makes it single-use: of two actors that both checked an active intent, the second
      to lock it gets nothing, and no order it places can be attached. */
  lemma SecondLockLoses(s: Sys, a: nat, b: nat)
    requires Inv(s) && a != b && WorkOf(s, a).Vetted? && WorkOf(s, b).Vetted?
    requires WorkOf(s, a).intent == WorkOf(s, b).intent
    ensures var once := StepLock(s, a);
      WorkOf(StepLock(once, b), b) == Idle && StepLock(once, b).db == once.db
  {
    assert Stable(s.db, s.work[a]);
    assert WorkOf(StepLock(s, a), b) == WorkOf(s, b);
  }
}
