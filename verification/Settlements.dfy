/** What VNPay callbacks can rely on over every run: who settles a row, and which answers stay right. */
module Settlements {
  import opened Prelude
  import opened Shop
  import opened Transactions
  import opened OrderLaws
  import opened OrderProtocol
  import opened OrderInvariant
  import opened OrderSteps
  import opened OrderTheorems

  // ---------- Settling once ----------

  /** At most one callback ever settles a row, and its verdict is the row's status from then on. */
  lemma SettledOnce(steps: seq<Step>, more: seq<Step>, a: nat, b: nat, id: nat, row: nat, ok: bool, ok': bool)
    requires WorkOf(Reached(steps), a) == Settled(id, row, ok)
    requires WorkOf(Reached(steps + more), b) == Settled(id, row, ok')
    ensures a == b && ok == ok'
    ensures HasRow(Reached(steps + more).db, id, row)
    ensures RowStatus(Reached(steps + more).db, id, row) == if ok then Success else Failed
  {
    ReachedLater(steps, more);
    var s, t := Reached(steps), Reached(steps + more);
    assert Stable(s.db, s.work[a]) && Stable(t.db, t.work[b]);
    RowGrows(s.db, t.db, id, row);
    SettledStays(s, more, a);
    RunJoins(EMPTY, steps, more);
  }

  lemma {:induction false} SettledStays(s: Sys, steps: seq<Step>, a: nat)
    requires WorkOf(s, a).Settled? || WorkOf(s, a).Answered?
    ensures WorkOf(Run(s, steps), a) == WorkOf(s, a)
  {
    if steps != [] {
      SettledStays(s, steps[..|steps| - 1], a);
      FinishedStays(Run(s, steps[..|steps| - 1]), steps[|steps| - 1], a);
    }
  }

  ghost predicate Finished(s: Sys, a: nat) {
    WorkOf(s, a).Settled? || WorkOf(s, a).Answered?
  }

  lemma FinishedWhileCreating(s: Sys, step: Step, a: nat)
    requires Finished(s, a) && IsCreateStep(step)
    ensures WorkOf(Apply(s, step), a) == WorkOf(s, a)
  {
  }

  lemma FinishedWhileMoving(s: Sys, step: Step, a: nat)
    requires Finished(s, a) && IsMoveStep(step)
    ensures WorkOf(Apply(s, step), a) == WorkOf(s, a)
  {
  }

  lemma FinishedStays(s: Sys, step: Step, a: nat)
    requires Finished(s, a)
    ensures WorkOf(Apply(s, step), a) == WorkOf(s, a)
  {
    if IsCreateStep(step) {
      FinishedWhileCreating(s, step, a);
    } else if IsMoveStep(step) {
      FinishedWhileMoving(s, step, a);
    }
  }

  /** The row carries this reference. */
  predicate Names(db: Db, id: nat, row: nat, ref: string) {
    HasRow(db, id, row) && db.orders[id].payments[row].txnRef == Some(ref)
  }

  ghost predicate UniqueReference(db: Db, ref: string) {
    forall id, row, id', row' :: Names(db, id, row, ref) && Names(db, id', row', ref) ==> id == id' && row == row'
  }

  /** Callbacks name a reference, not a row: as long as no two rows share the reference, at most one
      callback that names it ever settles anything. */
  lemma ReferenceSettledOnce(
    steps: seq<Step>, more: seq<Step>, a: nat, b: nat, id: nat, row: nat, id': nat, row': nat,
    ok: bool, ok': bool, ref: string)
    requires WorkOf(Reached(steps), a) == Settled(id, row, ok)
    requires WorkOf(Reached(steps + more), b) == Settled(id', row', ok')
    requires Names(Reached(steps).db, id, row, ref) && Names(Reached(steps + more).db, id', row', ref)
    requires UniqueReference(Reached(steps + more).db, ref)
    ensures a == b && id == id' && row == row' && ok == ok'
  {
    ReachedLater(steps, more);
    RowGrows(Reached(steps).db, Reached(steps + more).db, id, row);
    assert Names(Reached(steps + more).db, id, row, ref);
    SettledOnce(steps, more, a, b, id, row, ok, ok');
  }

  // ---------- Answers ----------

  /** What a callback answered about a row agrees with the row after these steps. */
  predicate AnswerRight(steps: seq<Step>, id: nat, row: nat, settled: bool) {
    var db := Reached(steps).db;
    HasRow(db, id, row) && (settled <==> RowStatus(db, id, row) == Success)
  }

  lemma {:induction false} ActorsBounded(actors: set<nat>) returns (b: nat)
    ensures forall a :: a in actors ==> a < b
  {
    if actors == {} {
      b := 0;
    } else {
      var a :| a in actors;
      var c := ActorsBounded(actors - {a});
      b := if a < c then c else a + 1;
      forall x | x in actors ensures x < b {
        assert x == a || x in actors - {a};
      }
    }
  }

  lemma CallbackReads(s: Sys, b: nat, id: nat, row: nat, ok: bool)
    requires WorkOf(s, b) == Idle && HasReference(s.db, id, row) && RowStatus(s.db, id, row) == Unsettled
    ensures Apply(s, ReadCallback(b, id, row, ok)) == Now(s, b, Settling(id, row, ok))
  {
    assert Apply(s, ReadCallback(b, id, row, ok)) == StepReadCallback(s, b, id, row, ok);
  }

  lemma RolledBack(s: Sys, b: nat, id: nat, row: nat, ok: bool)
    requires WorkOf(s, b) == Settling(id, row, ok)
    ensures Apply(s, Settle(b, true)) == Now(s, b, Rereading(id, row, true))
  {
    assert Apply(s, Settle(b, true)) == StepSettle(s, b, true);
  }

  /** A callback that reads an unsettled row and settles it undisturbed does the settling transaction. */
  lemma CallbackRun(s: Sys, b: nat, id: nat, row: nat, ok: bool)
    requires WorkOf(s, b) == Idle && HasReference(s.db, id, row) && RowStatus(s.db, id, row) == Unsettled
    requires |s.gaps| == |s.db.orders|
    ensures var t := Run(s, [ReadCallback(b, id, row, ok), Settle(b, false)]);
      && Some(t.db) == SettleAtomically(s.db, id, row, ok)
      && WorkOf(t, b) == Settled(id, row, ok) && |t.gaps| == |s.gaps|
      && forall a: nat :: a != b ==> WorkOf(t, a) == WorkOf(s, a)
  {
    var read := Now(s, b, Settling(id, row, ok));
    RunTwo(s, ReadCallback(b, id, row, ok), Settle(b, false));
    CallbackReads(s, b, id, row, ok);
    assert Apply(read, Settle(b, false)) == StepSettle(read, b, false);
  }

  /** An unsettled row that a callback can name may still be collected, by an actor nobody has met. */
  lemma StillCollectable(steps: seq<Step>, id: nat, row: nat) returns (more: seq<Step>)
    requires HasReference(Reached(steps).db, id, row) && RowStatus(Reached(steps).db, id, row) == Unsettled
    ensures HasRow(Reached(steps + more).db, id, row) && RowStatus(Reached(steps + more).db, id, row) == Success
  {
    var s := Reached(steps);
    var b := ActorsBounded(s.work.Keys);
    ReachedInv(steps);
    CallbackRun(s, b, id, row, true);
    more := [ReadCallback(b, id, row, true), Settle(b, false)];
    RunJoins(EMPTY, steps, more);
  }

  /** A callback that is told the row was already settled has been told the truth for ever exactly when it
      was told of a collected row, or the row has failed. The case left is an answer given after a
      rolled-back transaction about a row that is still unsettled, or was collected since. */
  lemma AnswerIsFinalIff(steps: seq<Step>, a: nat, id: nat, row: nat, settled: bool, rolledBack: bool)
    requires WorkOf(Reached(steps), a) == Answered(id, row, settled, rolledBack)
    ensures HasRow(Reached(steps).db, id, row)
    ensures (forall more :: AnswerRight(steps + more, id, row, settled))
      <==> settled || RowStatus(Reached(steps).db, id, row) == Failed
    ensures !rolledBack ==> settled || RowStatus(Reached(steps).db, id, row) == Failed
  {
    ReachedInv(steps);
    var s := Reached(steps);
    assert Stable(s.db, s.work[a]);
    if settled || RowStatus(s.db, id, row) == Failed {
      forall more ensures AnswerRight(steps + more, id, row, settled) {
        ReachedLater(steps, more);
        RowGrows(s.db, Reached(steps + more).db, id, row);
      }
    } else if RowStatus(s.db, id, row) == Success {
      assert steps + [] == steps && !AnswerRight(steps + [], id, row, settled);
    } else {
      var more := StillCollectable(steps, id, row);
      assert !AnswerRight(steps + more, id, row, settled);
    }
  }
}
