/** What holds of every single order: its audit trail, its books, and its payment rows.

    `gap` records whether a VNPay settlement moved the order, which writes no event: it is 0 when none
    did, and otherwise the position in the trail where the move is missing. */
module OrderLaws {
  import opened Prelude
  import opened Pricing
  import opened Shop
  import opened Checkout
  import opened Transactions

  // ---------- Audit trail ----------

  /** The status an order is in just before event `j`, or now when `j` is past the last event. */
  function FromAt(o: Order, j: nat): Option<Status> {
    if j < |o.events| then o.events[j].from else Some(o.status)
  }

  ghost predicate Joined(o: Order, j: nat)
    requires 1 <= j <= |o.events|
  {
    FromAt(o, j) == Some(o.events[j - 1].to)
  }

  /** The unrecorded move of a VNPay settlement. */
  ghost predicate Slipped(o: Order, j: nat)
    requires 1 <= j <= |o.events|
  {
    o.events[j - 1].to == Pending && FromAt(o, j) == Some(Paid)
  }

  /** A refund event names the refund it records. */
  predicate NoteFits(to: Status, note: Note) {
    to == Refunded ==> note.RefundNote? && note.ref != ""
  }

  ghost predicate Trail(o: Order, gap: nat) {
    && 0 < |o.events| && gap <= |o.events|
    && o.events[0].from == None && (o.events[0].to == Pending || o.events[0].to == Confirmed)
    && (forall j :: 1 <= j < |o.events| ==>
          o.events[j].from.Some? && Allowed(o.events[j].from.value, o.events[j].to))
    && (forall j :: 0 <= j < |o.events| ==> NoteFits(o.events[j].to, o.events[j].note))
    && (forall j :: 1 <= j <= |o.events| ==> if j == gap then Slipped(o, j) else Joined(o, j))
  }

  datatype Replayed = Broken | At(status: Option<Status>)

  /** Replays a trail from nothing: every event must start where the previous one ended, the first
      must open the order, and each later one must be an allowed edge. */
  function Replay(events: seq<Event>): Replayed {
    if events == [] then At(None)
    else
      var e := events[|events| - 1];
      match Replay(events[..|events| - 1])
      case Broken => Broken
      case At(None) => if e.from == None && (e.to == Pending || e.to == Confirmed) then At(Some(e.to)) else Broken
      case At(Some(cur)) => if e.from == Some(cur) && Allowed(cur, e.to) then At(Some(e.to)) else Broken
  }

  lemma {:induction false} ReplayPrefix(o: Order, gap: nat, n: nat)
    requires Trail(o, gap) && 1 <= n <= |o.events|
    ensures Replay(o.events[..n]) == if 1 <= gap < n then Broken else At(Some(o.events[n - 1].to))
  {
    var es := o.events[..n];
    assert es[..n - 1] == o.events[..n - 1];
    if n == 1 {
      assert Replay(es[..0]) == At(None);
    } else {
      ReplayPrefix(o, gap, n - 1);
      if n - 1 == gap {
        assert Slipped(o, n - 1);
      } else {
        assert Joined(o, n - 1);
      }
    }
  }

  /** The trail replays to the current status exactly when no VNPay settlement moved the order. */
  lemma ReplaysIff(o: Order, gap: nat)
    requires Trail(o, gap)
    ensures Replay(o.events) == At(Some(o.status)) <==> gap == 0
  {
    var n := |o.events|;
    ReplayPrefix(o, gap, n);
    assert o.events[..n] == o.events;
    if gap == n {
      assert Slipped(o, n);
    } else {
      assert Joined(o, n);
    }
  }

  // ---------- Books ----------

  function Booked(p: Payment): nat {
    if p.status == Success && p.paidBy != Vnpay then p.amountUsd else 0
  }

  /** What the SUCCESS rows that did not come through VNPay add up to. */
  function BookedSum(ps: seq<Payment>): nat {
    if ps == [] then 0 else BookedSum(ps[..|ps| - 1]) + Booked(ps[|ps| - 1])
  }

  /** What all SUCCESS rows add up to. */
  function CollectedSum(ps: seq<Payment>): nat {
    if ps == [] then 0
    else CollectedSum(ps[..|ps| - 1]) + if ps[|ps| - 1].status == Success then ps[|ps| - 1].amountUsd else 0
  }

  lemma BookedAppend(ps: seq<Payment>, p: Payment)
    ensures BookedSum(ps + [p]) == BookedSum(ps) + Booked(p)
  {
    assert (ps + [p])[..|ps|] == ps;
  }

  lemma {:induction false} BookedUpdate(ps: seq<Payment>, row: nat, p: Payment)
    requires row < |ps| && Booked(p) == Booked(ps[row])
    ensures BookedSum(ps[row := p]) == BookedSum(ps)
  {
    var n := |ps| - 1;
    if row == n {
      assert ps[row := p][..n] == ps[..n];
    } else {
      assert ps[row := p][..n] == ps[..n][row := p];
      BookedUpdate(ps[..n], row, p);
    }
  }

  ghost predicate Ledger(o: Order, gap: nat) {
    && 0 < o.totalUsd && o.totalVnd == USD_TO_VND * o.totalUsd
    && BookedSum(o.payments) == o.paidUsd <= o.totalUsd && o.paidVnd <= o.totalVnd
    && (o.status == Pending || gap > 0 ==> o.paidUsd == 0 && o.paidVnd == 0)
    && (gap == 0 && (o.status == Paid || o.status == Refunded) ==>
          o.paidUsd == o.totalUsd && o.paidVnd == o.totalVnd)
  }

  // ---------- Payment rows ----------

  ghost predicate RowOk(o: Order, p: Payment) {
    && (p.status == Unsettled && p.txnRef.Some? ==> p.paidBy == Vnpay)
    && (p.paidBy == Vnpay && p.txnRef.Some? ==> p.amountUsd == o.totalUsd && p.expectedVnd == Some(o.totalVnd))
    && (p.paidBy == Vnpay && p.txnRef.None? ==> p.status == Unsettled)
    && (p.paidBy == Vnpay && p.status == Success ==> o.status != Pending)
    && (p.paidBy == Manual ==> p.status == Success && p.txnRef.Some? && p.txnRef.value != "")
  }

  ghost predicate VnpayCollected(o: Order) {
    exists k :: 0 <= k < |o.payments| && o.payments[k].paidBy == Vnpay && o.payments[k].status == Success
  }

  ghost predicate Rows(o: Order, gap: nat) {
    && (forall k :: 0 <= k < |o.payments| ==> RowOk(o, o.payments[k]))
    && (gap > 0 ==> VnpayCollected(o) && PastPayment(o.status))
  }

  ghost predicate OrderOk(o: Order, gap: nat) {
    Trail(o, gap) && Ledger(o, gap) && Rows(o, gap)
  }

  lemma {:induction false} SumsDiffer(ps: seq<Payment>)
    requires forall k :: 0 <= k < |ps| && ps[k].paidBy == Vnpay && ps[k].status == Success ==> ps[k].amountUsd > 0
    ensures BookedSum(ps) <= CollectedSum(ps)
    ensures BookedSum(ps) == CollectedSum(ps)
      <==> forall k :: 0 <= k < |ps| ==> !(ps[k].paidBy == Vnpay && ps[k].status == Success)
  {
    if ps != [] {
      var n := |ps| - 1;
      assert forall k :: 0 <= k < n ==> ps[..n][k] == ps[k];
      SumsDiffer(ps[..n]);
    }
  }

  /** The SUCCESS rows sum to paidUsd exactly when no VNPay row collected: settlement does not book
      what it collects. */
  lemma BalancesIff(o: Order, gap: nat)
    requires OrderOk(o, gap)
    ensures CollectedSum(o.payments) == o.paidUsd <==> !VnpayCollected(o)
  {
    forall k | 0 <= k < |o.payments| && o.payments[k].paidBy == Vnpay && o.payments[k].status == Success
      ensures o.payments[k].amountUsd > 0
    {
      assert RowOk(o, o.payments[k]);
    }
    SumsDiffer(o.payments);
  }

  // ---------- Receipts ----------

  function LinkMoney(p: Payment): nat {
    if p.paidBy == Vnpay && p.status == Success then 1 else 0
  }

  /** How many payment links of the order have collected. */
  function Links(ps: seq<Payment>): nat {
    if ps == [] then 0 else Links(ps[..|ps| - 1]) + LinkMoney(ps[|ps| - 1])
  }

  lemma {:induction false} LinksAfter(ps: seq<Payment>, more: seq<Payment>)
    requires forall k :: 0 <= k < |more| ==> LinkMoney(more[k]) == 0
    ensures Links(ps + more) == Links(ps)
  {
    if more == [] {
      assert ps + more == ps;
    } else {
      var n := |more| - 1;
      assert (ps + more)[..|ps + more| - 1] == ps + more[..n];
      LinksAfter(ps, more[..n]);
    }
  }

  lemma {:induction false} LinksUpdate(ps: seq<Payment>, row: nat, p: Payment)
    requires row < |ps|
    ensures Links(ps[row := p]) == Links(ps) - LinkMoney(ps[row]) + LinkMoney(p)
  {
    var n := |ps| - 1;
    if row == n {
      assert ps[row := p][..n] == ps[..n];
    } else {
      assert ps[row := p][..n] == ps[..n][row := p];
      LinksUpdate(ps[..n], row, p);
    }
  }

  lemma {:induction false} LinksPositive(ps: seq<Payment>)
    ensures Links(ps) > 0 <==> exists k :: 0 <= k < |ps| && ps[k].paidBy == Vnpay && ps[k].status == Success
  {
    if ps != [] {
      var n := |ps| - 1;
      LinksPositive(ps[..n]);
      if k :| 0 <= k < n && ps[k].paidBy == Vnpay && ps[k].status == Success {
        assert ps[..n][k].paidBy == Vnpay && ps[..n][k].status == Success;
      }
    }
  }

  lemma {:induction false} SumWithLinks(ps: seq<Payment>, total: nat)
    requires forall k :: 0 <= k < |ps| && ps[k].paidBy == Vnpay && ps[k].status == Success ==> ps[k].amountUsd == total
    ensures CollectedSum(ps) == BookedSum(ps) + total * Links(ps)
  {
    if ps != [] {
      var n := |ps| - 1;
      assert forall k :: 0 <= k < n ==> ps[..n][k] == ps[k];
      SumWithLinks(ps[..n], total);
      assert total * (Links(ps[..n]) + 1) == total * Links(ps[..n]) + total;
    }
  }

  /** Everything an order has received is what was booked plus its total once for every link that collected.
      It has received too much exactly when two links collected, or one did beside a booked amount. */
  lemma ReceiptsOf(o: Order, gap: nat)
    requires OrderOk(o, gap)
    ensures CollectedSum(o.payments) == o.paidUsd + o.totalUsd * Links(o.payments)
    ensures CollectedSum(o.payments) > o.totalUsd
      <==> Links(o.payments) >= 2 || (Links(o.payments) == 1 && o.paidUsd > 0)
  {
    forall k | 0 <= k < |o.payments| && o.payments[k].paidBy == Vnpay && o.payments[k].status == Success
      ensures o.payments[k].amountUsd == o.totalUsd
    {
      assert RowOk(o, o.payments[k]);
    }
    SumWithLinks(o.payments, o.totalUsd);
    Multiples(o.totalUsd, Links(o.payments));
  }

  lemma Multiples(total: nat, n: nat)
    ensures n == 0 ==> total * n == 0
    ensures n == 1 ==> total * n == total
    ensures n >= 2 ==> total * n >= 2 * total
  {
    if n >= 2 {
      assert total * n == 2 * total + total * (n - 2);
    }
  }

  /** A Paid or Refunded order is fully booked exactly when its trail replays. */
  lemma PaidInFullIff(o: Order, gap: nat)
    requires OrderOk(o, gap) && (o.status == Paid || o.status == Refunded)
    ensures (o.paidUsd == o.totalUsd && o.paidVnd == o.totalVnd) <==> Replay(o.events) == At(Some(o.status))
  {
    ReplaysIff(o, gap);
  }

  // ---------- Every write keeps the laws ----------

  lemma MoveKeepsTrail(o: Order, gap: nat, to: Status, actor: Option<UserId>, note: Note)
    requires Trail(o, gap) && Allowed(o.status, to) && NoteFits(to, note)
    ensures Trail(Move(o, to, actor, note), gap)
  {
    var o' := Move(o, to, actor, note);
    forall j | 1 <= j <= |o'.events| ensures if j == gap then Slipped(o', j) else Joined(o', j) {
      if j <= |o.events| {
        assert FromAt(o', j) == FromAt(o, j);
        assert if j == gap then Slipped(o, j) else Joined(o, j);
      }
    }
  }

  lemma MoveKeeps(o: Order, gap: nat, to: Status, actor: Option<UserId>, note: Note)
    requires OrderOk(o, gap) && Allowed(o.status, to) && to != Paid && NoteFits(to, note)
    ensures OrderOk(Move(o, to, actor, note), gap)
  {
    var o' := Move(o, to, actor, note);
    MoveKeepsTrail(o, gap, to, actor, note);
    assert forall k :: 0 <= k < |o.payments| ==> RowOk(o, o.payments[k]);
    forall k | 0 <= k < |o'.payments| ensures RowOk(o', o'.payments[k]) {
      assert RowOk(o, o.payments[k]);
    }
    if VnpayCollected(o) {
      var k :| 0 <= k < |o.payments| && o.payments[k].paidBy == Vnpay && o.payments[k].status == Success;
      assert o'.payments[k].paidBy == Vnpay && o'.payments[k].status == Success;
    }
  }

  /** The books after a confirmed transfer: everything owed is now booked. */
  lemma CollectLedger(o: Order, gap: nat, ref: string, o': Order)
    requires Ledger(o, gap) && gap == 0
    requires var paid := Collect(o, o, ref);
      && o'.payments == paid.payments && o'.paidUsd == paid.paidUsd && o'.paidVnd == paid.paidVnd
      && o'.totalUsd == o.totalUsd && o'.totalVnd == o.totalVnd && o'.status == Paid
    ensures Ledger(o', gap)
  {
    BookedAppend(o.payments, Collect(o, o, ref).payments[|o.payments|]);
  }

  /** Confirming a transfer books exactly what was still owed, deposits included. */
  lemma CollectKeeps(o: Order, gap: nat, ref: string, actor: Option<UserId>, note: Note)
    requires OrderOk(o, gap) && ManualPaid(o.status, Paid) && ref != ""
    ensures OrderOk(Move(Collect(o, o, ref), Paid, actor, note), gap)
  {
    var paid := Collect(o, o, ref);
    var o' := Move(paid, Paid, actor, note);
    assert gap == 0;
    SameTrail(o, paid, gap);
    MoveKeepsTrail(paid, gap, Paid, actor, note);
    CollectLedger(o, gap, ref, o');
    CollectRows(o, o', paid.payments[|o.payments|]);
    assert Rows(o', gap);
  }

  lemma CollectRows(o: Order, o': Order, row: Payment)
    requires (forall k :: 0 <= k < |o.payments| ==> RowOk(o, o.payments[k]))
    requires o'.payments == o.payments + [row] && RowOk(o', row)
    requires o'.totalUsd == o.totalUsd && o'.totalVnd == o.totalVnd && o'.status != Pending
    ensures forall k :: 0 <= k < |o'.payments| ==> RowOk(o', o'.payments[k])
  {
    forall k | 0 <= k < |o'.payments| ensures RowOk(o', o'.payments[k]) {
      if k < |o.payments| {
        assert RowOk(o, o.payments[k]);
      }
    }
  }

  lemma LinkKeeps(o: Order, gap: nat, row: Payment)
    requires OrderOk(o, gap)
    requires row == Payment(Vnpay, o.totalUsd, Unsettled, row.txnRef, Some(o.totalVnd)) && row.txnRef.Some?
    ensures OrderOk(o.(payments := o.payments + [row]), gap)
  {
    var o' := o.(payments := o.payments + [row]);
    BookedAppend(o.payments, row);
    SameTrail(o, o', gap);
    forall k | 0 <= k < |o'.payments| ensures RowOk(o', o'.payments[k]) {
      if k < |o.payments| {
        assert RowOk(o, o.payments[k]);
      }
    }
    if VnpayCollected(o) {
      var k :| 0 <= k < |o.payments| && o.payments[k].paidBy == Vnpay && o.payments[k].status == Success;
      assert o'.payments[k].paidBy == Vnpay && o'.payments[k].status == Success;
    }
  }

  lemma SameTrail(o: Order, o': Order, gap: nat)
    requires Trail(o, gap) && o'.events == o.events && o'.status == o.status
    ensures Trail(o', gap)
  {
    forall j | 1 <= j <= |o'.events| ensures if j == gap then Slipped(o', j) else Joined(o', j) {
      assert FromAt(o', j) == FromAt(o, j);
      assert if j == gap then Slipped(o, j) else Joined(o, j);
    }
  }

  /** The gap after a settlement: it opens at the end of the trail when the order was pending. */
  function GapAfter(o: Order, gap: nat, ok: bool): nat {
    if ok && o.status == Pending then |o.events| else gap
  }

  lemma SettleKeeps(o: Order, gap: nat, row: nat, ok: bool)
    requires OrderOk(o, gap) && row < |o.payments|
    requires o.payments[row].status == Unsettled && o.payments[row].txnRef.Some?
    ensures OrderOk(SettleRow(o, row, ok), GapAfter(o, gap, ok))
  {
    var o', gap' := SettleRow(o, row, ok), GapAfter(o, gap, ok);
    assert RowOk(o, o.payments[row]);
    BookedUpdate(o.payments, row, o'.payments[row]);
    if ok && o.status == Pending {
      forall j | 1 <= j <= |o'.events| ensures if j == gap' then Slipped(o', j) else Joined(o', j) {
        assert Joined(o, j);
        if j < |o.events| {
          assert FromAt(o', j) == FromAt(o, j);
        }
      }
    } else {
      SameTrail(o, o', gap);
    }
    forall k | 0 <= k < |o'.payments| ensures RowOk(o', o'.payments[k]) {
      assert RowOk(o, o.payments[k]);
    }
    if gap' > 0 {
      assert VnpayCollected(o') by {
        if ok {
          assert o'.payments[row].paidBy == Vnpay && o'.payments[row].status == Success;
        } else {
          var k :| 0 <= k < |o.payments| && o.payments[k].paidBy == Vnpay && o.payments[k].status == Success;
          assert o'.payments[k].paidBy == Vnpay && o'.payments[k].status == Success;
        }
      }
    }
  }

  lemma NewOrderOk(d: Draft, code: string, now: int)
    requires 0 < d.quote.totalUsd && d.quote.totalVnd == USD_TO_VND * d.quote.totalUsd && MethodAccepted(d.paidBy)
    ensures OrderOk(NewOrder(d, code, now), 0)
  {
    var o := NewOrder(d, code, now);
    assert Joined(o, 1);
    RoundFifthIsNearest(d.quote.totalUsd);
    RoundFifthIsNearest(d.quote.totalVnd);
    assert o.payments[..0] == [];
    assert BookedSum(o.payments) == Booked(o.payments[0]);
    assert RowOk(o, o.payments[0]);
  }
}
