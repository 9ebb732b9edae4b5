/** What an order has received over every run: when it is too much, and which steps make it so. */
module Receipts {
  import opened Prelude
  import opened Shop
  import opened Transactions
  import opened OrderLaws
  import opened OrderProtocol
  import opened OrderInvariant
  import opened OrderSteps
  import opened OrderTheorems

  /** In every reachable state an order has received what is booked plus its total once for each link that
      collected. It is overpaid exactly when two links collected, or one did beside a booked amount. */
  lemma ReceiptsExact(steps: seq<Step>, id: nat)
    requires id < |Reached(steps).db.orders|
    ensures var o := Reached(steps).db.orders[id];
      && CollectedSum(o.payments) == o.paidUsd + o.totalUsd * Links(o.payments)
      && (CollectedSum(o.payments) > o.totalUsd
          <==> Links(o.payments) >= 2 || (Links(o.payments) == 1 && o.paidUsd > 0))
  {
    ReachedInv(steps);
    assert OrderAt(Reached(steps), id);
    ReceiptsOf(Reached(steps).db.orders[id], Reached(steps).gaps[id]);
  }

  // ---------- Which steps overpay ----------

  /** A callback that collects adds the order's total, so it overpays exactly when the order has already
      received anything: nothing else about the order, its status included, is looked at. */
  lemma CollectionOverpaysIff(steps: seq<Step>, a: nat, id: nat, row: nat)
    requires WorkOf(Reached(steps), a) == Settling(id, row, true)
    requires HasRow(Reached(steps).db, id, row) && RowStatus(Reached(steps).db, id, row) == Unsettled
    ensures var s, t := Reached(steps), StepSettle(Reached(steps), a, false);
      && id < |t.db.orders| && t.db.orders[id].totalUsd == s.db.orders[id].totalUsd
      && var before, after := CollectedSum(s.db.orders[id].payments), CollectedSum(t.db.orders[id].payments);
      && after == before + s.db.orders[id].totalUsd
      && (after > s.db.orders[id].totalUsd <==> before > 0)
  {
    var s := Reached(steps);
    ReachedInv(steps);
    assert OrderAt(s, id) && Stable(s.db, s.work[a]);
    var o, p := s.db.orders[id], s.db.orders[id].payments[row];
    assert RowOk(o, p);
    CollectedUpdate(o.payments, row, p.(status := Success));
    assert StepSettle(s, a, false).db.orders[id].payments == o.payments[row := p.(status := Success)];
  }

  lemma {:induction false} CollectedUpdate(ps: seq<Payment>, row: nat, p: Payment)
    requires row < |ps| && ps[row].status == Unsettled && p.status == Success
    ensures CollectedSum(ps[row := p]) == CollectedSum(ps) + p.amountUsd
  {
    var n := |ps| - 1;
    if row == n {
      assert ps[row := p][..n] == ps[..n];
    } else {
      assert ps[row := p][..n] == ps[..n][row := p];
      CollectedUpdate(ps[..n], row, p);
    }
  }

  /** A manual confirmation completes what is booked, so it overpays exactly when a link has collected. */
  lemma ConfirmationOverpaysIff(steps: seq<Step>, a: nat, id: nat, snap: Order, req: AdminRequest)
    requires WorkOf(Reached(steps), a) == Updating(id, snap, req) && req.target == Some(Paid)
    requires id < |Reached(steps).db.orders| && Reached(steps).db.orders[id].status == snap.status
    ensures var s, t := Reached(steps), StepUpdate(Reached(steps), a);
      && id < |t.db.orders|
      && var o, o' := s.db.orders[id], t.db.orders[id];
      && o'.status == Paid && o'.totalUsd == o.totalUsd
      && CollectedSum(o'.payments) == o.totalUsd + o.totalUsd * Links(o.payments)
      && (CollectedSum(o'.payments) > o.totalUsd <==> Links(o.payments) > 0)
  {
    var s := Reached(steps);
    ReachedInv(steps);
    assert OrderAt(s, id) && Stable(s.db, s.work[a]);
    ConfirmedReceipts(s.db.orders[id], s.gaps[id], snap, req);
    assert StepUpdate(s, a).db.orders[id] == UpdatedOrder(s.db.orders[id], snap, req);
  }

  lemma ConfirmedReceipts(o: Order, gap: nat, snap: Order, req: AdminRequest)
    requires OrderOk(o, gap) && Later(snap, o) && snap.status == o.status
    requires AdminRefused(snap, req).None? && req.target == Some(Paid)
    ensures var o' := UpdatedOrder(o, snap, req);
      && o'.status == Paid && o'.totalUsd == o.totalUsd
      && CollectedSum(o'.payments) == o.totalUsd + o.totalUsd * Links(o.payments)
      && (CollectedSum(o'.payments) > o.totalUsd <==> Links(o.payments) > 0)
  {
    var o' := UpdatedOrder(o, snap, req);
    UpdatedOrderOk(o, gap, snap, req);
    ReceiptsOf(o', gap);
    LinksAfter(o.payments, [o'.payments[|o.payments|]]);
    assert o'.payments == o.payments + [o'.payments[|o.payments|]];
    Multiples(o.totalUsd, Links(o.payments));
  }

  // ---------- Where link money comes from ----------

  /** From `s` to `t` an unsettled row of order `id` was collected. */
  ghost predicate Collects(s: Sys, t: Sys, id: nat) {
    exists row :: HasRow(s.db, id, row) && RowStatus(s.db, id, row) == Unsettled
      && HasRow(t.db, id, row) && RowStatus(t.db, id, row) == Success
  }

  /** This step collects money for an order that no longer waits for it. */
  ghost predicate StrayStep(s: Sys, step: Step, id: nat) {
    && step.Settle?
    && id < |s.db.orders| && s.db.orders[id].status != Pending
    && Collects(s, Apply(s, step), id)
  }

  ghost predicate CollectsBeside(steps: seq<Step>, id: nat, k: nat)
    requires k < |steps|
  {
    StrayStep(Reached(steps[..k]), steps[k], id)
  }

  ghost predicate CollectedBeside(steps: seq<Step>, id: nat) {
    exists k :: 0 <= k < |steps| && CollectsBeside(steps, id, k)
  }

  /** How many steps of the run did so. */
  ghost function Strays(steps: seq<Step>, id: nat): nat {
    if steps == [] then 0
    else Strays(steps[..|steps| - 1], id) + if CollectsBeside(steps, id, |steps| - 1) then 1 else 0
  }

  lemma BesideEarlier(steps: seq<Step>, id: nat, n: nat, k: nat)
    requires k < n <= |steps|
    ensures CollectsBeside(steps, id, k) <==> CollectsBeside(steps[..n], id, k)
  {
    assert steps[..n][..k] == steps[..k] && steps[..n][k] == steps[k];
  }

  lemma BesidePrefix(steps: seq<Step>, id: nat)
    requires steps != []
    ensures CollectedBeside(steps, id)
      <==> CollectedBeside(steps[..|steps| - 1], id) || CollectsBeside(steps, id, |steps| - 1)
  {
    var n := |steps| - 1;
    if CollectedBeside(steps, id) {
      var k :| 0 <= k < |steps| && CollectsBeside(steps, id, k);
      if k < n {
        BesideEarlier(steps, id, n, k);
      }
    }
    if CollectedBeside(steps[..n], id) {
      var k :| 0 <= k < n && CollectsBeside(steps[..n], id, k);
      BesideEarlier(steps, id, n, k);
    }
  }

  lemma {:induction false} StraysIff(steps: seq<Step>, id: nat)
    ensures Strays(steps, id) > 0 <==> CollectedBeside(steps, id)
  {
    if steps != [] {
      StraysIff(steps[..|steps| - 1], id);
      BesidePrefix(steps, id);
    }
  }

  /** The order's rows are as they were, but for new ones that hold no VNPay money. */
  ghost predicate RowsKept(s: Sys, t: Sys, id: nat)
    requires id < |s.db.orders|
  {
    && id < |t.db.orders|
    && var ps, ps' := s.db.orders[id].payments, t.db.orders[id].payments;
    && ps <= ps'
    && forall k :: |ps| <= k < |ps'| ==> LinkMoney(ps'[k]) == 0
  }

  lemma CreatingKeepsRows(s: Sys, step: Step, id: nat)
    requires id < |s.db.orders| && IsCreateStep(step)
    ensures RowsKept(s, Apply(s, step), id)
  {
  }

  lemma MovingKeepsRows(s: Sys, step: Step, id: nat)
    requires id < |s.db.orders| && IsMoveStep(step)
    ensures RowsKept(s, Apply(s, step), id)
  {
  }

  lemma OnlySettlingCollects(s: Sys, step: Step, id: nat)
    requires id < |s.db.orders| && !step.Settle?
    ensures RowsKept(s, Apply(s, step), id)
  {
    if IsCreateStep(step) {
      CreatingKeepsRows(s, step, id);
    } else if IsMoveStep(step) {
      MovingKeepsRows(s, step, id);
    }
  }

  /** A settling step adds one collected link to an order exactly when it collects one of its rows, and
      then pays the order exactly when it was pending. It moves no order anywhere else. */
  lemma SettlingCollects(s: Sys, a: nat, rollBack: bool, id: nat)
    requires Inv(s) && id < |s.db.orders|
    ensures var t := StepSettle(s, a, rollBack);
      && id < |t.db.orders|
      && Links(t.db.orders[id].payments) == Links(s.db.orders[id].payments) + (if Collects(s, t, id) then 1 else 0)
      && t.db.orders[id].status
         == if s.db.orders[id].status == Pending && Collects(s, t, id) then Paid else s.db.orders[id].status
  {
    var t := StepSettle(s, a, rollBack);
    var o, o' := s.db.orders[id], t.db.orders[id];
    if o != o' {
      var row, ok := SettlingChanges(s, a, rollBack, id);
      SettledLinks(o, row, ok);
      if ok {
        assert HasRow(s.db, id, row) && HasRow(t.db, id, row);
      }
    }
  }

  /** An order that a settling step changes had one row, unsettled and named by a reference, settled. */
  lemma SettlingChanges(s: Sys, a: nat, rollBack: bool, id: nat) returns (row: nat, ok: bool)
    requires Inv(s) && id < |s.db.orders| && id < |StepSettle(s, a, rollBack).db.orders|
    requires StepSettle(s, a, rollBack).db.orders[id] != s.db.orders[id]
    ensures var o := s.db.orders[id];
      && row < |o.payments| && o.payments[row].status == Unsettled && o.payments[row].paidBy == Vnpay
      && StepSettle(s, a, rollBack).db.orders[id] == SettleRow(o, row, ok)
  {
    row, ok := WorkOf(s, a).row, WorkOf(s, a).ok;
    assert OrderAt(s, id) && Stable(s.db, s.work[a]);
    assert RowOk(s.db.orders[id], s.db.orders[id].payments[row]);
  }

  lemma SettledLinks(o: Order, row: nat, ok: bool)
    requires row < |o.payments| && o.payments[row].status == Unsettled && o.payments[row].paidBy == Vnpay
    ensures Links(SettleRow(o, row, ok).payments) == Links(o.payments) + (if ok then 1 else 0)
  {
    LinksUpdate(o.payments, row, SettleRow(o, row, ok).payments[row]);
  }

  /** One step of a run: what it adds to an order's collected links, and whether it moved the order. */
  lemma StepLinks(s: Sys, step: Step, id: nat)
    requires Inv(s) && id < |s.db.orders|
    ensures var t := Apply(s, step);
      && id < |t.db.orders|
      && Links(t.db.orders[id].payments)
         == Links(s.db.orders[id].payments) + (if step.Settle? && Collects(s, t, id) then 1 else 0)
      && (step.Settle? && s.db.orders[id].status == Pending ==>
            (t.db.orders[id].status == Paid <==> Collects(s, t, id)))
  {
    var t := Apply(s, step);
    if step.Settle? {
      SettlingCollects(s, step.a, step.rollBack, id);
    } else {
      OnlySettlingCollects(s, step, id);
      var ps, ps' := s.db.orders[id].payments, t.db.orders[id].payments;
      LinksAfter(ps, ps'[|ps|..]);
      assert ps' == ps + ps'[|ps|..];
    }
  }

  lemma {:induction false} NoStraysBefore(steps: seq<Step>, id: nat)
    requires |Reached(steps).db.orders| <= id
    ensures Strays(steps, id) == 0
  {
    if steps != [] {
      var n := |steps| - 1;
      ReachedInv(steps[..n]);
      StepKeeps(Reached(steps[..n]), steps[n]);
      NoStraysBefore(steps[..n], id);
    }
  }

  lemma MovedIsPast(steps: seq<Step>, id: nat)
    requires id < |Reached(steps).db.orders| && MovedBySettlement(steps, id)
    ensures PastPayment(Reached(steps).db.orders[id].status)
  {
    ReachedInv(steps);
    assert OrderAt(Reached(steps), id);
    GapIff(steps, id);
  }

  /** The last step of a run accounts for what it adds. */
  lemma LastStepCounts(steps: seq<Step>, id: nat)
    requires steps != []
    requires var before := steps[..|steps| - 1];
      && id < |Reached(before).db.orders|
      && Links(Reached(before).db.orders[id].payments)
         == Strays(before, id) + (if MovedBySettlement(before, id) then 1 else 0)
    ensures id < |Reached(steps).db.orders|
    ensures Links(Reached(steps).db.orders[id].payments)
      == Strays(steps, id) + (if MovedBySettlement(steps, id) then 1 else 0)
  {
    var n := |steps| - 1;
    ReachedInv(steps[..n]);
    MovedPrefix(steps, id);
    StepLinks(Reached(steps[..n]), steps[n], id);
    if MovedBySettlement(steps[..n], id) {
      MovedIsPast(steps[..n], id);
    }
  }

  /** Every collected link of an order either moved it from pending to paid, which at most one did, or was
      collected beside it when it was no longer pending. */
  lemma {:induction false} LinksCounted(steps: seq<Step>, id: nat)
    requires id < |Reached(steps).db.orders|
    ensures Links(Reached(steps).db.orders[id].payments)
      == Strays(steps, id) + (if MovedBySettlement(steps, id) then 1 else 0)
  {
    if steps != [] {
      var n := |steps| - 1;
      var s := Reached(steps[..n]);
      if id < |s.db.orders| {
        LinksCounted(steps[..n], id);
        LastStepCounts(steps, id);
      } else {
        ReachedInv(steps[..n]);
        var d := NewOrderIs(s, steps[n], id);
        NewOrderRow(d, steps[n].code, s.clock);
        NoStraysBefore(steps[..n], id);
        NotMovedBefore(steps[..n], id);
        MovedPrefix(steps, id);
      }
    }
  }

  /** The order is not waiting for a settlement, and none has moved it. */
  predicate StandsAside(status: Status) {
    status == Confirmed || status == Cancelled
  }

  lemma CollectedWhere(steps: seq<Step>, id: nat, k: nat)
    requires k < |steps| && id < |Reached(steps[..k]).db.orders|
    requires Reached(steps[..k]).db.orders[id].status != Pending
    ensures id < |Reached(steps).db.orders|
    ensures Reached(steps).db.orders[id].status != Pending
    ensures StandsAside(Reached(steps).db.orders[id].status)
      ==> StandsAside(Reached(steps[..k]).db.orders[id].status)
  {
    assert steps == steps[..k] + steps[k..];
    ReachedLater(steps[..k], steps[k..]);
    assert Later(Reached(steps[..k]).db.orders[id], Reached(steps).db.orders[id]);
  }

  /** In every reachable state, whatever the order's status: it has link money that did not pay for it
      exactly when some step of the run collected while the order was no longer pending. For a confirmed or
      cancelled order that is all link money, and it was confirmed or cancelled then too. */
  lemma StrayMoneyIff(steps: seq<Step>, id: nat)
    requires id < |Reached(steps).db.orders|
    ensures var o := Reached(steps).db.orders[id];
      && (CollectedBeside(steps, id)
          <==> Links(o.payments) > (if MovedBySettlement(steps, id) then 1 else 0))
      && (o.status == Pending ==> Links(o.payments) == 0)
      && (StandsAside(o.status) ==> (Links(o.payments) > 0 <==> CollectedBeside(steps, id)))
    ensures forall k :: 0 <= k < |steps| && CollectsBeside(steps, id, k) ==>
      StandsAside(Reached(steps).db.orders[id].status) ==> StandsAside(Reached(steps[..k]).db.orders[id].status)
  {
    LinksCounted(steps, id);
    StraysIff(steps, id);
    forall k | 0 <= k < |steps| && CollectsBeside(steps, id, k)
      ensures Reached(steps).db.orders[id].status != Pending
      ensures StandsAside(Reached(steps).db.orders[id].status)
        ==> StandsAside(Reached(steps[..k]).db.orders[id].status)
    {
      CollectedWhere(steps, id, k);
    }
    if MovedBySettlement(steps, id) {
      MovedIsPast(steps, id);
    }
  }

  /** So an order is overpaid exactly when it received in two ways: a second link beside the one that moved
      it, two links beside it, or a link beside a booked amount. */
  lemma OverpaidIff(steps: seq<Step>, id: nat)
    requires id < |Reached(steps).db.orders|
    ensures var o := Reached(steps).db.orders[id];
      CollectedSum(o.payments) > o.totalUsd
      <==> Strays(steps, id) >= (if MovedBySettlement(steps, id) || o.paidUsd > 0 then 1 else 2)
  {
    ReceiptsExact(steps, id);
    LinksCounted(steps, id);
    ReachedInv(steps);
    assert OrderAt(Reached(steps), id);
    GapIff(steps, id);
  }
}
