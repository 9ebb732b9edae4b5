/** How many payment links of one order can be open at once. The limit is checked by a query of its own
    before the insert, so requests that overlap can pass it together. */
module LinkLimit {
  import opened Prelude
  import opened Shop
  import opened Transactions
  import opened OrderProtocol
  import opened OrderInvariant
  import opened OrderSteps
  import opened OrderTheorems

  /** The actors that have counted this order's links and not yet inserted theirs. */
  function Linkers(s: Sys, id: nat): set<nat> {
    set a | a in s.work && s.work[a].Linking? && s.work[a].id == id
  }

  function Open(s: Sys, id: nat): nat
    requires id < |s.db.orders|
  {
    OpenLinks(s.db.orders[id].payments)
  }

  lemma {:induction false} SubsetSize(a: set<nat>, b: set<nat>)
    requires a <= b
    ensures |a| <= |b|
  {
    if a != {} {
      var x :| x in a;
      SubsetSize(a - {x}, b - {x});
    }
  }

  lemma {:induction false} OpenUpdate(ps: seq<Payment>, row: nat, p: Payment)
    requires row < |ps| && p.status != Unsettled
    ensures OpenLinks(ps[row := p]) <= OpenLinks(ps)
  {
    var n := |ps| - 1;
    if row == n {
      assert ps[row := p][..n] == ps[..n];
    } else {
      assert ps[row := p][..n] == ps[..n][row := p];
      OpenUpdate(ps[..n], row, p);
    }
  }

  lemma OpenAppend(ps: seq<Payment>, p: Payment)
    ensures OpenLinks(ps + [p]) == OpenLinks(ps) + if p.status == Unsettled then 1 else 0
  {
    assert (ps + [p])[..|ps|] == ps;
  }

  /** No more links are open, and nobody has come to add one. */
  ghost predicate Quiet(s: Sys, t: Sys, id: nat)
    requires id < |s.db.orders|
  {
    id < |t.db.orders| && Open(t, id) <= Open(s, id) && Linkers(t, id) <= Linkers(s, id)
  }

  lemma CreatingIsQuiet(s: Sys, step: Step, id: nat)
    requires id < |s.db.orders| && IsCreateStep(step)
    ensures Quiet(s, Apply(s, step), id)
  {
  }

  lemma MovingOpensNone(s: Sys, step: Step, id: nat)
    requires id < |s.db.orders| && IsMoveStep(step)
    ensures id < |Apply(s, step).db.orders| && Open(Apply(s, step), id) <= Open(s, id)
  {
    var ps, ps' := s.db.orders[id].payments, Apply(s, step).db.orders[id].payments;
    if ps' != ps {
      OpenAppend(ps, ps'[|ps|]);
    }
  }

  lemma MovingAddsNobody(s: Sys, step: Step, id: nat)
    requires IsMoveStep(step)
    ensures Linkers(Apply(s, step), id) <= Linkers(s, id)
  {
  }

  lemma CallbackIsQuiet(s: Sys, step: Step, id: nat)
    requires id < |s.db.orders| && IsCallbackStep(step)
    ensures Quiet(s, Apply(s, step), id)
  {
    if step.Settle? && Apply(s, step).db.orders[id] != s.db.orders[id] {
      var row := WorkOf(s, step.a).row;
      OpenUpdate(s.db.orders[id].payments, row, Apply(s, step).db.orders[id].payments[row]);
    }
  }

  lemma LinkerLeaves(s: Sys, a: nat, txnRef: string, id: nat)
    ensures Linkers(StepLink(s, a, txnRef), id) == Linkers(s, id) - {a}
  {
  }

  lemma LinkOpensOne(s: Sys, a: nat, txnRef: string, id: nat)
    requires id < |s.db.orders|
    ensures id < |StepLink(s, a, txnRef).db.orders|
    ensures Open(StepLink(s, a, txnRef), id) == Open(s, id) + if a in Linkers(s, id) then 1 else 0
  {
    var ps, ps' := s.db.orders[id].payments, StepLink(s, a, txnRef).db.orders[id].payments;
    if a in Linkers(s, id) {
      OpenAppend(ps, ps'[|ps|]);
    }
  }

  lemma LinkKeepsSum(s: Sys, a: nat, txnRef: string, id: nat)
    requires id < |s.db.orders|
    ensures var t := StepLink(s, a, txnRef);
      id < |t.db.orders| && Open(t, id) + |Linkers(t, id)| <= Open(s, id) + |Linkers(s, id)|
  {
    LinkerLeaves(s, a, txnRef, id);
    LinkOpensOne(s, a, txnRef, id);
  }

  lemma CountKeepsBound(s: Sys, a: nat, id: nat, n: nat)
    requires id < |s.db.orders| && Open(s, id) + |Linkers(s, id)| <= MAX_OPEN_LINKS - 1 + n
    requires |Linkers(StepCountLinks(s, a), id)| <= n
    ensures var t := StepCountLinks(s, a);
      id < |t.db.orders| && Open(t, id) + |Linkers(t, id)| <= MAX_OPEN_LINKS - 1 + n
  {
    var t := StepCountLinks(s, a);
    if a !in Linkers(t, id) {
      assert Linkers(t, id) <= Linkers(s, id);
      SubsetSize(Linkers(t, id), Linkers(s, id));
    }
  }

  lemma StepKeepsBound(s: Sys, step: Step, id: nat, n: nat)
    requires id < |s.db.orders| && Open(s, id) + |Linkers(s, id)| <= MAX_OPEN_LINKS - 1 + n
    requires |Linkers(Apply(s, step), id)| <= n
    ensures var t := Apply(s, step);
      id < |t.db.orders| && Open(t, id) + |Linkers(t, id)| <= MAX_OPEN_LINKS - 1 + n
  {
    if step.Link? {
      LinkKeepsSum(s, step.a, step.txnRef, id);
    } else if step.CountLinks? {
      CountKeepsBound(s, step.a, id, n);
    } else {
      if IsCreateStep(step) {
        CreatingIsQuiet(s, step, id);
      } else if IsMoveStep(step) {
        MovingOpensNone(s, step, id);
        MovingAddsNobody(s, step, id);
      } else if IsCallbackStep(step) {
        CallbackIsQuiet(s, step, id);
      }
      assert Quiet(s, Apply(s, step), id);
      SubsetSize(Linkers(Apply(s, step), id), Linkers(s, id));
    }
  }

  /** Nobody can be adding a link to an order that is not there yet. */
  lemma NoLinkersYet(s: Sys, id: nat)
    requires Inv(s) && |s.db.orders| <= id
    ensures Linkers(s, id) == {}
  {
    forall b | b in s.work ensures b !in Linkers(s, id) {
      assert Stable(s.db, s.work[b]);
    }
  }

  lemma PlacingAddsNobody(s: Sys, a: nat, code: string, id: nat)
    ensures Linkers(StepPlace(s, a, code), id) <= Linkers(s, id)
  {
  }

  /** At no moment of the run have more than `n` actors counted this order's links and not yet inserted. */
  ghost predicate AtMost(steps: seq<Step>, id: nat, n: nat) {
    forall k :: 0 <= k <= |steps| ==> |Linkers(Reached(steps[..k]), id)| <= n
  }

  lemma AtMostBefore(steps: seq<Step>, id: nat, n: nat)
    requires steps != [] && AtMost(steps, id, n)
    ensures AtMost(steps[..|steps| - 1], id, n)
    ensures |Linkers(Reached(steps), id)| <= n
  {
    var m := |steps| - 1;
    forall k | 0 <= k <= m ensures |Linkers(Reached(steps[..m][..k]), id)| <= n {
      assert steps[..m][..k] == steps[..k];
    }
    assert steps[..|steps|] == steps;
  }

  /** When at most `n` requests for one order overlap between count and insert, its open links and those
      requests together never exceed two more than `n`. So requests that do not overlap keep the limit of
      three. */
  lemma {:induction false} OpenLinksBounded(steps: seq<Step>, id: nat, n: nat)
    requires AtMost(steps, id, n) && id < |Reached(steps).db.orders|
    ensures Open(Reached(steps), id) + |Linkers(Reached(steps), id)| <= 2 + n
  {
    if steps != [] {
      var m := |steps| - 1;
      var s := Reached(steps[..m]);
      AtMostBefore(steps, id, n);
      if id < |s.db.orders| {
        OpenLinksBounded(steps[..m], id, n);
        StepKeepsBound(s, steps[m], id, n);
      } else {
        ReachedInv(steps[..m]);
        var d := NewOrderIs(s, steps[m], id);
        NewOrderRow(d, steps[m].code, s.clock);
        NoLinkersYet(s, id);
        PlacingAddsNobody(s, steps[m].a, steps[m].code, id);
      }
    }
  }
}
