/** Concrete runs from the empty shop, one for each thing the order protocol does not prevent. */
module OrderScenarios {
  import opened Prelude
  import opened Text
  import opened Shop
  import opened Checkout
  import opened Transactions
  import opened OrderLaws
  import opened OrderProtocol
  import opened OrderTheorems
  import opened Settlements

  const ANA := Claimant(Some("ana"), None)
  const CART := [ItemInput("tourbillon", 0.0, None, None)]

  /** One watch is put on show, ana orders it to be paid through VNPay, and asks for a payment link. */
  const ORDERED: seq<Step> := [
    AddProduct("tourbillon", 100, 5, true),
    ReadCart(0, Some("ana"), "ana@example.com", Vnpay, CART),
    Place(0, "AC-1")]
  const LINKED: seq<Step> := ORDERED + AskSteps(0, 0, ANA, "ref-1")

  /** The first row of an order paid through VNPay, which no callback can name. */
  const FIRST_ROW := Payment(Vnpay, 0, Unsettled, None, None)

  function LinkRow(o: Order, ref: string): Payment {
    Payment(Vnpay, o.totalUsd, Unsettled, Some(ref), Some(o.totalVnd))
  }

  /** Nobody is at work, and the only order is ana's, pending, with these rows. */
  ghost predicate OneOrder(s: Sys, o: Order) {
    && s.db.orders == [o] && |s.gaps| == 1
    && o.userId == Some("ana") && o.status == Pending && 0 < o.totalUsd && o.paidUsd == 0
    && o.events == [Event(None, Pending, None, NoNote)]
    && forall a: nat :: WorkOf(s, a) == Idle
  }

  lemma CartPriced(products: map<Slug, Product>)
    requires "tourbillon" in products && products["tourbillon"] == Product(100, 2520000, 5, true)
    ensures PriceCart(products, CART).Ok?
    ensures var q := PriceCart(products, CART).value;
      && |q.lines| == 1 && q.lines[0].slug == Some("tourbillon") && q.lines[0].qty == 1 && 0 < q.totalUsd
  {
    assert CART[..0] == [];
    assert PriceItems(products, []).Ok?;
    assert PriceItem(products, CART[0]).Ok?;
  }

  lemma OrderedReached() returns (o: Order)
    ensures OneOrder(Reached(ORDERED), o) && o.payments == [FIRST_ROW]
  {
    var shown := StepAddProduct(EMPTY, "tourbillon", 100, 5, true);
    CartPriced(shown.db.products);
    var d := Draft(Some("ana"), "ana@example.com", Vnpay, PriceCart(shown.db.products, CART).value);
    RunThree(EMPTY, ORDERED[0], ORDERED[1], ORDERED[2]);
    assert Apply(EMPTY, ORDERED[0]) == shown;
    CartRead(shown, d);
    PlacedFirst(Now(shown, 0, Quoted(d)), d);
    o := NewOrder(d, "AC-1", 0);
  }

  lemma CartRead(s: Sys, d: Draft)
    requires WorkOf(s, 0) == Idle && PriceCart(s.db.products, CART) == Ok(d.quote)
    requires d.userId == Some("ana") && d.contact == "ana@example.com" && d.paidBy == Vnpay
    ensures Apply(s, ORDERED[1]) == Now(s, 0, Quoted(d))
  {
  }

  lemma PlacedFirst(s: Sys, d: Draft)
    requires s.clock == 0 && s.db.orders == [] && s.gaps == [] && s.work == map[0 := Quoted(d)]
    requires "tourbillon" in s.db.products && s.db.products["tourbillon"].stock == 5
    requires |d.quote.lines| == 1 && d.quote.lines[0].slug == Some("tourbillon") && d.quote.lines[0].qty == 1
    requires d.userId == Some("ana") && d.paidBy == Vnpay && 0 < d.quote.totalUsd
    ensures var o := NewOrder(d, "AC-1", 0);
      OneOrder(Apply(s, ORDERED[2]), o) && o.payments == [FIRST_ROW]
  {
    assert Apply(s, ORDERED[2]) == StepPlace(s, 0, "AC-1");
    var lines := d.quote.lines;
    assert Reserve(TakeStock(s.db.products, "tourbillon", 1), lines[1..]).Some?;
    assert CommitCreate(s.db, d, "AC-1", 0).Created?;
  }

  /** Asking for another link adds a row, as long as fewer than three are open. */
  lemma LinkAdded(s: Sys, o: Order, ref: string)
    requires OneOrder(s, o) && OpenLinks(o.payments) < MAX_OPEN_LINKS
    ensures OneOrder(Run(s, AskSteps(0, 0, ANA, ref)), o.(payments := o.payments + [LinkRow(o, ref)]))
  {
    assert WorkOf(s, 0) == Idle;
    AskRun(s, 0, 0, ANA, ref);
    forall a: nat ensures WorkOf(Run(s, AskSteps(0, 0, ANA, ref)), a) == Idle {
      assert WorkOf(s, a) == Idle;
    }
  }

  lemma LinkedReached() returns (o: Order)
    ensures OneOrder(Reached(LINKED), o) && o.payments == [FIRST_ROW, LinkRow(o, "ref-1")]
  {
    var first := OrderedReached();
    assert first.payments[..0] == [] && OpenLinks(first.payments) == 1;
    LinkAdded(Reached(ORDERED), first, "ref-1");
    RunJoins(EMPTY, ORDERED, AskSteps(0, 0, ANA, "ref-1"));
    o := first.(payments := first.payments + [LinkRow(first, "ref-1")]);
  }

  function Callback(b: nat, row: nat): seq<Step> {
    [ReadCallback(b, 0, row, true), Settle(b, false)]
  }

  /** A settlement moves the order to paid: its trail still says pending, and nothing is booked. */
  lemma SettlementLeavesAGap()
    ensures var steps := LINKED + Callback(1, 1);
      && MovedBySettlement(steps, 0)
      && |Reached(steps).db.orders| == 1
      && var o := Reached(steps).db.orders[0];
      && o.status == Paid && o.paidUsd == 0 < o.totalUsd
      && Replay(o.events) == At(Some(Pending))
  {
    var o := LinkedReached();
    CallbackRun(Reached(LINKED), 1, 0, 1, true);
    RunJoins(EMPTY, LINKED, Callback(1, 1));
    assert o.events[..0] == [];
    PaidOrdersBookedIff(LINKED + Callback(1, 1), 0);
  }

  /** The customer cancels while the bank is collecting: the order stays cancelled beside the money. */
  lemma MoneyBesideACancelledOrder()
    ensures var db := Reached(LINKED + [ReadToCancel(0, 0, ANA), Cancel(0)] + Callback(1, 1)).db;
      HasRow(db, 0, 1) && RowStatus(db, 0, 1) == Success && db.orders[0].status == Cancelled
  {
    var o := LinkedReached();
    var s, cancel := Reached(LINKED), [ReadToCancel(0, 0, ANA), Cancel(0)];
    CancelRun(s, o);
    RunJoins(EMPTY, LINKED, cancel);
    CallbackRun(Reached(LINKED + cancel), 1, 0, 1, true);
    RunJoins(EMPTY, LINKED + cancel, Callback(1, 1));
  }

  lemma CancelRun(s: Sys, o: Order)
    requires OneOrder(s, o)
    ensures var t := Run(s, [ReadToCancel(0, 0, ANA), Cancel(0)]);
      && |t.gaps| == 1 && WorkOf(t, 1) == Idle
      && t.db.orders == [Move(o, Cancelled, Some("ana"), CustomerCancelled)]
  {
    var read := StepReadToCancel(s, 0, 0, ANA);
    assert WorkOf(s, 0) == Idle && WorkOf(s, 1) == Idle;
    RunTwo(s, ReadToCancel(0, 0, ANA), Cancel(0));
    assert Apply(s, ReadToCancel(0, 0, ANA)) == read && WorkOf(read, 0) == Cancelling(0, ANA, o);
    assert Apply(read, Cancel(0)) == StepCancel(read, 0);
  }

  /** Two links of one order both collect: the customer has paid twice. */
  lemma PaidTwice()
    ensures var db := Reached(LINKED + AskSteps(0, 0, ANA, "ref-2") + Callback(1, 1) + Callback(2, 2)).db;
      && |db.orders| == 1 && db.orders[0].status == Paid
      && CollectedSum(db.orders[0].payments) == 2 * db.orders[0].totalUsd > db.orders[0].totalUsd
  {
    var o := LinkedReached();
    var s, again := Reached(LINKED), AskSteps(0, 0, ANA, "ref-2");
    assert o.payments[..1] == [FIRST_ROW] && o.payments[..1][..0] == [];
    assert OpenLinks(o.payments[..1]) == 1;
    LinkAdded(s, o, "ref-2");
    RunJoins(EMPTY, LINKED, again);
    BothCollect(Reached(LINKED + again), Reached(LINKED + again).db.orders[0]);
    RunJoins(EMPTY, LINKED + again, Callback(1, 1));
    RunJoins(EMPTY, LINKED + again + Callback(1, 1), Callback(2, 2));
  }

  lemma BothCollect(s: Sys, o: Order)
    requires OneOrder(s, o) && o.payments == [FIRST_ROW, LinkRow(o, "ref-1"), LinkRow(o, "ref-2")]
    ensures var db := Run(Run(s, Callback(1, 1)), Callback(2, 2)).db;
      && |db.orders| == 1 && db.orders[0].status == Paid && db.orders[0].totalUsd == o.totalUsd
      && CollectedSum(db.orders[0].payments) == 2 * o.totalUsd
  {
    assert WorkOf(s, 1) == Idle && WorkOf(s, 2) == Idle;
    CallbackRun(s, 1, 0, 1, true);
    var once := Run(s, Callback(1, 1));
    CallbackRun(once, 2, 0, 2, true);
    SumOfThree(Run(once, Callback(2, 2)).db.orders[0].payments, o.totalUsd);
  }

  /** One link is enough: an administrator confirms a transfer while the link is open, and then the link
      collects. The books say paid in full, and twice the total was received. */
  lemma PaidByHandAndByLink()
    ensures var steps := LINKED + [ReadToUpdate(0, 0, BY_HAND), Update(0)] + Callback(1, 1);
      && |Reached(steps).db.orders| == 1
      && var o := Reached(steps).db.orders[0];
      && o.status == Paid && o.paidUsd == o.totalUsd > 0
      && CollectedSum(o.payments) == 2 * o.totalUsd
  {
    var o := LinkedReached();
    var s, confirm := Reached(LINKED), [ReadToUpdate(0, 0, BY_HAND), Update(0)];
    ConfirmRun(s, o);
    RunJoins(EMPTY, LINKED, confirm);
    CallbackRun(Reached(LINKED + confirm), 1, 0, 1, true);
    RunJoins(EMPTY, LINKED + confirm, Callback(1, 1));
    var ps := Reached(LINKED + confirm + Callback(1, 1)).db.orders[0].payments;
    SumOfThree(ps, o.totalUsd);
  }

  const BY_HAND := AdminRequest(Some(Paid), "", "tx-1", "", None)

  lemma ConfirmRun(s: Sys, o: Order)
    requires OneOrder(s, o)
    ensures var t := Run(s, [ReadToUpdate(0, 0, BY_HAND), Update(0)]);
      && |t.gaps| == 1 && WorkOf(t, 1) == Idle && |t.db.orders| == 1
      && var o' := t.db.orders[0];
      && o'.status == Paid && o'.totalUsd == o.totalUsd && o'.paidUsd == o.totalUsd
      && o'.payments == o.payments + [Payment(Manual, o.totalUsd, Success, Some("tx-1"), None)]
  {
    assert WorkOf(s, 0) == Idle && WorkOf(s, 1) == Idle;
    RunTwo(s, ReadToUpdate(0, 0, BY_HAND), Update(0));
    ConfirmReads(s, o);
    Confirms(Now(s, 0, Updating(0, o, BY_HAND)), o);
  }

  lemma ConfirmReads(s: Sys, o: Order)
    requires OneOrder(s, o) && WorkOf(s, 0) == Idle
    ensures Apply(s, ReadToUpdate(0, 0, BY_HAND)) == Now(s, 0, Updating(0, o, BY_HAND))
  {
    assert Trim("tx-1") == "tx-1";
    assert Apply(s, ReadToUpdate(0, 0, BY_HAND)) == StepReadToUpdate(s, 0, 0, BY_HAND);
  }

  lemma Confirms(s: Sys, o: Order)
    requires WorkOf(s, 0) == Updating(0, o, BY_HAND) && WorkOf(s, 1) == Idle
    requires s.db.orders == [o] && o.status == Pending && o.paidUsd == 0
    ensures var t := Apply(s, Update(0));
      && t.gaps == s.gaps && WorkOf(t, 1) == Idle && |t.db.orders| == 1
      && var o' := t.db.orders[0];
      && o'.status == Paid && o'.totalUsd == o.totalUsd && o'.paidUsd == o.totalUsd
      && o'.payments == o.payments + [Payment(Manual, o.totalUsd, Success, Some("tx-1"), None)]
  {
    assert Trim("tx-1") == "tx-1";
    assert Apply(s, Update(0)) == StepUpdate(s, 0);
  }

  /** Two requests count the open links before either inserts its own, and four end up open. */
  lemma FourOpenLinks()
    ensures var overlap := [ReadToPay(0, 0, ANA), CountLinks(0), ReadToPay(1, 0, ANA)]
        + [CountLinks(1), Link(0, "ref-2"), Link(1, "ref-3")];
      var db := Reached(LINKED + overlap).db;
      |db.orders| == 1 && OpenLinks(db.orders[0].payments) == 4 > MAX_OPEN_LINKS
  {
    var o := LinkedReached();
    var s := Reached(LINKED);
    var first := [ReadToPay(0, 0, ANA), CountLinks(0), ReadToPay(1, 0, ANA)];
    var rest := [CountLinks(1), Link(0, "ref-2"), Link(1, "ref-3")];
    assert WorkOf(s, 0) == Idle && WorkOf(s, 1) == Idle;
    TwoOpen(o.payments);
    BothAsk(s, o);
    var t := Run(s, first);
    BothLink(t, o);
    RunJoins(s, first, rest);
    RunJoins(EMPTY, LINKED, first + rest);
    FourOpen(o.payments, LinkRow(o, "ref-2"), LinkRow(o, "ref-3"));
  }

  lemma TwoOpen(ps: seq<Payment>)
    requires |ps| == 2 && ps[0].status == Unsettled && ps[1].status == Unsettled
    ensures OpenLinks(ps) == 2
  {
    assert ps[..1][..0] == [] && OpenLinks(ps[..1]) == 1;
  }

  lemma FourOpen(ps: seq<Payment>, p: Payment, q: Payment)
    requires OpenLinks(ps) == 2 && p.status == Unsettled && q.status == Unsettled
    ensures OpenLinks(ps + [p] + [q]) == 4
  {
    assert (ps + [p])[..|ps|] == ps && (ps + [p] + [q])[..|ps| + 1] == ps + [p];
  }

  lemma BothAsk(s: Sys, o: Order)
    requires OneOrder(s, o) && WorkOf(s, 0) == Idle && WorkOf(s, 1) == Idle && OpenLinks(o.payments) < MAX_OPEN_LINKS
    ensures var t := Run(s, [ReadToPay(0, 0, ANA), CountLinks(0), ReadToPay(1, 0, ANA)]);
      t.db == s.db && WorkOf(t, 0) == Linking(0, o) && WorkOf(t, 1) == Asking(0, o)
  {
    var read := Now(s, 0, Asking(0, o));
    var counted := Now(read, 0, Linking(0, o));
    RunThree(s, ReadToPay(0, 0, ANA), CountLinks(0), ReadToPay(1, 0, ANA));
    AskReads(s, 0, 0, ANA);
    AskCounts(read, 0, 0, o);
    AskReads(counted, 1, 0, ANA);
  }

  lemma BothLink(s: Sys, o: Order)
    requires s.db.orders == [o] && OpenLinks(o.payments) < MAX_OPEN_LINKS
    requires WorkOf(s, 0) == Linking(0, o) && WorkOf(s, 1) == Asking(0, o)
    ensures var db := Run(s, [CountLinks(1), Link(0, "ref-2"), Link(1, "ref-3")]).db;
      && |db.orders| == 1
      && db.orders[0].payments == o.payments + [LinkRow(o, "ref-2")] + [LinkRow(o, "ref-3")]
  {
    var counted := Now(s, 1, Linking(0, o));
    var one := Now(counted, 0, Idle).(db := InsertLink(s.db, 0, o, "ref-2"));
    RunThree(s, CountLinks(1), Link(0, "ref-2"), Link(1, "ref-3"));
    AskCounts(s, 1, 0, o);
    AskInserts(counted, 0, 0, o, "ref-2");
    AskInserts(one, 1, 0, o, "ref-3");
  }

  lemma SumOfThree(ps: seq<Payment>, total: nat)
    requires |ps| == 3 && ps[0].status == Unsettled
    requires forall k :: 1 <= k < 3 ==> ps[k].status == Success && ps[k].amountUsd == total
    ensures CollectedSum(ps) == 2 * total
  {
    assert ps[..2][..1] == ps[..1] && ps[..1][..0] == [];
    assert CollectedSum(ps[..1]) == 0;
    assert CollectedSum(ps[..2]) == total;
  }

  /** The first callback's transaction is rolled back and it answers from an unsettled row; then a second
      callback collects, and the first one's answer is wrong. */
  lemma StaleAnswer()
    ensures var steps := LINKED + [ReadCallback(1, 0, 1, true), Settle(1, true)] + [Reread(1)] + Callback(2, 1);
      && WorkOf(Reached(steps), 1) == Answered(0, 1, false, true)
      && !AnswerRight(steps, 0, 1, false)
  {
    var o := LinkedReached();
    var s, rolled := Reached(LINKED), [ReadCallback(1, 0, 1, true), Settle(1, true)];
    RolledBackRun(s, o);
    RunJoins(EMPTY, LINKED, rolled);
    RereadRun(Reached(LINKED + rolled), o);
    RunNext(EMPTY, LINKED + rolled, Reread(1));
    CallbackRun(Reached(LINKED + rolled + [Reread(1)]), 2, 0, 1, true);
    RunJoins(EMPTY, LINKED + rolled + [Reread(1)], Callback(2, 1));
  }

  lemma RolledBackRun(s: Sys, o: Order)
    requires OneOrder(s, o) && o.payments == [FIRST_ROW, LinkRow(o, "ref-1")]
    ensures var t := Run(s, [ReadCallback(1, 0, 1, true), Settle(1, true)]);
      && t.db == s.db && |t.gaps| == 1 && WorkOf(t, 1) == Rereading(0, 1, true) && WorkOf(t, 2) == Idle
  {
    assert WorkOf(s, 1) == Idle && WorkOf(s, 2) == Idle;
    CallbackReads(s, 1, 0, 1, true);
    RunTwo(s, ReadCallback(1, 0, 1, true), Settle(1, true));
    RolledBack(Now(s, 1, Settling(0, 1, true)), 1, 0, 1, true);
  }

  lemma RereadRun(s: Sys, o: Order)
    requires s.db.orders == [o] && o.payments == [FIRST_ROW, LinkRow(o, "ref-1")]
    requires WorkOf(s, 1) == Rereading(0, 1, true) && WorkOf(s, 2) == Idle
    ensures var t := Apply(s, Reread(1));
      && t.db == s.db && t.gaps == s.gaps
      && WorkOf(t, 1) == Answered(0, 1, false, true) && WorkOf(t, 2) == Idle
  {
    assert Apply(s, Reread(1)) == StepReread(s, 1);
  }

  /** A bespoke piece entered without a slug, paid by a simulated method, is confirmed and collected at once
      although no product backs it and nobody reviewed it. */
  lemma UnreviewedWorkSettles()
    ensures var db := Reached(
        [ReadCart(0, None, "ana@example.com", Escrow, [ItemInput("", 100.0, None, None)]), Place(0, "AC-1")]).db;
      && |db.orders| == 1
      && var o := db.orders[0];
      && o.status == Confirmed && |o.lines| == 1 && o.lines[0].slug == None
      && |o.payments| == 1 && o.payments[0].status == Success && o.payments[0].amountUsd == o.totalUsd > 0
  {
    var items := [ItemInput("", 100.0, None, None)];
    assert items[..0] == [];
    assert PriceItems(map[], []).Ok?;
    assert PriceItem(map[], items[0]).Ok?;
    var d := Draft(None, "ana@example.com", Escrow, PriceCart(map[], items).value);
    var read, place := ReadCart(0, None, "ana@example.com", Escrow, items), Place(0, "AC-1");
    RunTwo(EMPTY, read, place);
    var quoted := Now(EMPTY, 0, Quoted(d));
    assert Apply(EMPTY, read) == quoted;
    assert Reserve(map[], d.quote.lines[1..]).Some?;
    assert Apply(quoted, place) == StepPlace(quoted, 0, "AC-1");
  }
}
