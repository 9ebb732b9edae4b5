/** settlePayment's guards, and its non-atomic fallback, where a crash can part payment and order. */
module SettleFallback {
  import opened Prelude
  import opened Shop

  datatype Outcome =
    | Succeeded | Unpaid | AlreadySet(settled: bool)
    | ChecksumFail | PaymentNotFound | AmountMismatch

  /** The amount parameter is in hundredths and is rounded to the nearest unit before comparing. */
  predicate AmountOk(amount: int, expected: int) {
    (amount + 50) / 100 == expected
  }

  /** Every amount closer than half a unit to the frozen one passes, and nothing else. */
  lemma AmountOkIff(amount: int, expected: int)
    ensures AmountOk(amount, expected) <==> -50 <= amount - 100 * expected < 50
  {
  }

  datatype Found = Found(status: PaymentStatus, expectedVnd: Option<int>, orderTotalVnd: Option<int>)

  /** The guards before any write, in order; None means the payment is still open and may be settled. */
  function Guard(verified: bool, found: Option<Found>, amount: int): Option<Outcome> {
    if !verified then Some(ChecksumFail)
    else if found.None? || found.value.orderTotalVnd.None? then Some(PaymentNotFound)
    else
      var f := found.value;
      var expected := match f.expectedVnd case Some(v) => v case None => f.orderTotalVnd.value;
      if !AmountOk(amount, expected) then Some(AmountMismatch)
      else if f.status != Unsettled then Some(AlreadySet(f.status == Success))
      else None
  }

  /** The amount frozen with the link, or without one the order's total. */
  ghost predicate Frozen(f: Found, vnd: int) {
    f.expectedVnd == Some(vnd) || (f.expectedVnd.None? && f.orderTotalVnd == Some(vnd))
  }

  /** The amount is closer than half a unit to the frozen one. */
  ghost predicate AmountFits(f: Found, amount: int) {
    exists vnd :: Frozen(f, vnd) && -50 <= amount - 100 * vnd < 50
  }

  /** Which answer the guards give, each exactly when: a bad signature comes first, then a missing row or
      order, then a wrong amount, and only then a row that is already settled, whose answer says settled
      exactly when it was collected. */
  lemma GuardAnswersIff(verified: bool, found: Option<Found>, amount: int)
    ensures var known := found.Some? && found.value.orderTotalVnd.Some?;
      && (Guard(verified, found, amount) == Some(ChecksumFail) <==> !verified)
      && (Guard(verified, found, amount) == Some(PaymentNotFound) <==> verified && !known)
      && (Guard(verified, found, amount) == Some(AmountMismatch) <==>
            verified && known && !AmountFits(found.value, amount))
      && (Guard(verified, found, amount) == Some(AlreadySet(true)) <==>
            verified && known && AmountFits(found.value, amount) && found.value.status == Success)
      && (Guard(verified, found, amount) == Some(AlreadySet(false)) <==>
            verified && known && AmountFits(found.value, amount) && found.value.status == Failed)
      && (Guard(verified, found, amount).None? <==>
            verified && known && AmountFits(found.value, amount) && found.value.status == Unsettled)
  {
    if found.Some? && found.value.orderTotalVnd.Some? {
      var f := found.value;
      var vnd := if f.expectedVnd.Some? then f.expectedVnd.value else f.orderTotalVnd.value;
      assert Frozen(f, vnd) && forall v :: Frozen(f, v) ==> v == vnd;
    }
  }

  /** A callback goes on to settle exactly when it is genuine, names an open payment of an existing
      order, and carries the amount frozen with the link (or, without one, the order's total). */
  lemma GuardPassesIff(verified: bool, found: Option<Found>, amount: int)
    ensures Guard(verified, found, amount).None? <==>
      && verified && found.Some? && found.value.orderTotalVnd.Some? && found.value.status == Unsettled
      && var frozen := if found.value.expectedVnd.Some? then found.value.expectedVnd.value
                       else found.value.orderTotalVnd.value;
         -50 <= amount - 100 * frozen < 50
  {
  }

  // ---------- The fallback path ----------

  /** One callback on its way: `Owing` has moved the payment and not yet the order. */
  datatype Call =
    | Open(ok: bool) | Owing | Lost | Finished(outcome: Outcome) | Crashed(owing: bool)

  datatype Sys = Sys(payment: PaymentStatus, order: Status, calls: map<nat, Call>)

  datatype Step =
    | Start(c: nat, ok: bool) | UpdatePayment(c: nat) | Reread(c: nat) | UpdateOrder(c: nat) | Crash(c: nat)

  function Apply(s: Sys, step: Step): Sys {
    var c := step.c;
    if c !in s.calls then
      if step.Start? then
        s.(calls := s.calls[c := if s.payment == Unsettled then Open(step.ok)
                                 else Finished(AlreadySet(s.payment == Success))])
      else s
    else
      match (step, s.calls[c])
      case (UpdatePayment(_), Open(ok)) =>
        if s.payment != Unsettled then s.(calls := s.calls[c := Lost])
        else Sys(if ok then Success else Failed, s.order, s.calls[c := if ok then Owing else Finished(Unpaid)])
      case (Reread(_), Lost) => s.(calls := s.calls[c := Finished(AlreadySet(s.payment == Success))])
      case (UpdateOrder(_), Owing) => Sys(s.payment, Paid, s.calls[c := Finished(Succeeded)])
      case (Crash(_), Open(_)) => s.(calls := s.calls[c := Crashed(false)])
      case (Crash(_), Lost) => s.(calls := s.calls[c := Crashed(false)])
      case (Crash(_), Owing) => s.(calls := s.calls[c := Crashed(true)])
      case _ => s
  }

  const START := Sys(Unsettled, Pending, map[])

  function Run(steps: seq<Step>): Sys {
    if steps == [] then START else Apply(Run(steps[..|steps| - 1]), steps[|steps| - 1])
  }

  /** This callback moved the payment. */
  predicate Winner(call: Call) {
    call == Owing || call == Crashed(true) || call == Finished(Succeeded) || call == Finished(Unpaid)
  }

  /** The order write is still due, and is being carried or was dropped by this callback. */
  predicate Owes(call: Call) {
    call == Owing || call == Crashed(true)
  }

  ghost predicate Inv(s: Sys) {
    && (forall c, d :: c in s.calls && d in s.calls && Winner(s.calls[c]) && Winner(s.calls[d]) ==> c == d)
    && (forall c :: c in s.calls && Winner(s.calls[c]) ==>
          && s.payment == (if s.calls[c] == Finished(Unpaid) then Failed else Success)
          && s.order == (if s.calls[c] == Finished(Succeeded) then Paid else Pending))
    && (s.payment != Unsettled ==> exists c :: c in s.calls && Winner(s.calls[c]))
    && (s.payment == Unsettled ==> s.order == Pending)
    && (forall c :: c in s.calls && s.calls[c] == Lost ==> s.payment != Unsettled)
    && (forall c :: c in s.calls && s.calls[c].Finished? && s.calls[c].outcome.AlreadySet? ==>
          s.payment == if s.calls[c].outcome.settled then Success else Failed)
  }

  lemma {:induction false} RunInv(steps: seq<Step>)
    ensures Inv(Run(steps))
  {
    if steps != [] {
      RunInv(steps[..|steps| - 1]);
      StepInv(Run(steps[..|steps| - 1]), steps[|steps| - 1]);
    }
  }

  lemma StepInv(s: Sys, step: Step)
    requires Inv(s)
    ensures Inv(Apply(s, step))
  {
    if step.UpdatePayment? {
      PaymentStepInv(s, step.c);
    } else {
      OtherStepInv(s, step);
    }
  }

  lemma PaymentStepInv(s: Sys, c: nat)
    requires Inv(s)
    ensures Inv(Apply(s, UpdatePayment(c)))
  {
    var s' := Apply(s, UpdatePayment(c));
    if s.payment != Unsettled {
      var w :| w in s.calls && Winner(s.calls[w]);
      assert w in s'.calls && Winner(s'.calls[w]);
    } else if s'.payment != Unsettled {
      assert c in s'.calls && Winner(s'.calls[c]);
    }
  }

  lemma OtherStepInv(s: Sys, step: Step)
    requires Inv(s) && !step.UpdatePayment?
    ensures Inv(Apply(s, step))
  {
    var s' := Apply(s, step);
    if s.payment != Unsettled {
      var w :| w in s.calls && Winner(s.calls[w]);
      assert w in s'.calls && Winner(s'.calls[w]);
    }
  }

  /** However callbacks interleave and crash, at most one of them reports success or unpaid, and every
      already-set answer is the payment's status. */
  lemma ReportsOnce(steps: seq<Step>, c: nat, d: nat)
    requires var s := Run(steps); c in s.calls && d in s.calls && s.calls[c].Finished? && s.calls[d].Finished?
    ensures var s := Run(steps);
      && (!s.calls[c].outcome.AlreadySet? && !s.calls[d].outcome.AlreadySet? ==> c == d)
      && (s.calls[c].outcome.AlreadySet? ==> (s.calls[c].outcome.settled <==> s.payment == Success))
      && (s.calls[c].outcome == Succeeded ==> s.payment == Success && s.order == Paid)
      && (s.calls[c].outcome == Unpaid ==> s.payment == Failed && s.order == Pending)
  {
    RunInv(steps);
    OnlyThreeOutcomes(steps, c);
    OnlyThreeOutcomes(steps, d);
  }

  lemma {:induction false} OnlyThreeOutcomes(steps: seq<Step>, c: nat)
    requires c in Run(steps).calls && Run(steps).calls[c].Finished?
    ensures var o := Run(steps).calls[c].outcome; o == Succeeded || o == Unpaid || o.AlreadySet?
  {
    if steps != [] {
      var before := Run(steps[..|steps| - 1]);
      if c in before.calls && before.calls[c].Finished? {
        OnlyThreeOutcomes(steps[..|steps| - 1], c);
      }
    }
  }

  /** A collected payment stands beside an unpaid order exactly while the callback that moved it still
      owes the order write, which a crash makes permanent. */
  lemma TornIff(steps: seq<Step>)
    ensures var s := Run(steps);
      (s.payment == Success && s.order != Paid) <==> exists c :: c in s.calls && Owes(s.calls[c])
  {
    RunInv(steps);
    var s := Run(steps);
    if s.payment == Success && s.order != Paid {
      var c :| c in s.calls && Winner(s.calls[c]);
      assert Owes(s.calls[c]);
    }
  }

  /** Such a run: the callback collects and dies before the order write. */
  lemma TornRun()
    ensures var s := Run([Start(0, true), UpdatePayment(0), Crash(0)]); s.payment == Success && s.order == Pending
  {
    var steps := [Start(0, true), UpdatePayment(0), Crash(0)];
    assert steps[..2][..1] == steps[..1] && steps[..1][..0] == [];
    assert Run(steps[..1]) == Apply(START, steps[0]);
    assert Run(steps[..2]) == Apply(Run(steps[..1]), steps[1]);
  }

  /** In a run where every callback completed, payment and order agree. */
  lemma CompletedRunsAgree(steps: seq<Step>)
    requires forall c :: c in Run(steps).calls ==> Run(steps).calls[c].Finished?
    ensures Run(steps).payment == Success <==> Run(steps).order == Paid
  {
    RunInv(steps);
    TornIff(steps);
  }
}
