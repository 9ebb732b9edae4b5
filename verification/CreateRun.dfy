/** A whole create request is one of the protocol's runs, so what holds of every interleaving holds of
    requests as the service handles them. */
module CreateRun {
  import opened Prelude
  import opened Text
  import opened Shop
  import opened Checkout
  import opened Transactions
  import opened OrderServices
  import opened OrderProtocol
  import opened OrderTheorems
  import opened CreateOrder

  /** The protocol's tables leave idempotency keys aside. */
  function Unkeyed(db: Db, like: Db): Db {
    db.(keys := like.keys)
  }

  /** A step of actor `a` that belongs to placing an order or to making its payment link. */
  predicate PlacesBy(step: Step, a: nat) {
    (IsCreateStep(step) || IsLinkStep(step)) && step.a == a
  }

  ghost predicate AllBy(steps: seq<Step>, a: nat) {
    forall k :: 0 <= k < |steps| ==> PlacesBy(steps[k], a)
  }

  /** Apart from the tables, such steps change nothing but the actor's own work and what intents were
      locked for. */
  ghost predicate OnlyActor(s: Sys, t: Sys, a: nat) {
    && t.supply == s.supply && t.clock == s.clock
    && forall b: nat :: b != a ==> WorkOf(t, b) == WorkOf(s, b)
  }

  /** The steps are the actor's own, disturb nobody, and leave the tables as given. */
  ghost predicate DoneBy(s: Sys, a: nat, steps: seq<Step>, db: Db) {
    AllBy(steps, a) && Run(s, steps).db == db && OnlyActor(s, Run(s, steps), a)
  }

  lemma CreatingOnlyActor(s: Sys, step: Step)
    requires IsCreateStep(step)
    ensures OnlyActor(s, Apply(s, step), step.a)
  {
  }

  lemma LinkingOnlyActor(s: Sys, step: Step)
    requires IsLinkStep(step)
    ensures OnlyActor(s, Apply(s, step), step.a)
  {
  }

  lemma {:induction false} ByOnlyActor(s: Sys, a: nat, steps: seq<Step>)
    requires AllBy(steps, a)
    ensures OnlyActor(s, Run(s, steps), a)
  {
    if steps != [] {
      var n := |steps| - 1;
      ByOnlyActor(s, a, steps[..n]);
      assert PlacesBy(steps[n], a);
      if IsCreateStep(steps[n]) {
        CreatingOnlyActor(Run(s, steps[..n]), steps[n]);
      } else {
        LinkingOnlyActor(Run(s, steps[..n]), steps[n]);
      }
    }
  }

  /** The steps up to and including the intent lock. */
  function LockSteps(a: nat, req: Request): seq<Step>
    requires req.paidBy.Some?
  {
    [ReadCart(a, req.userId, StoredContact(req), req.paidBy.value, Basket(req))]
    + match req.intent case None => [] case Some(j) => [Vet(a, j), Lock(a)]
  }

  lemma PreparedRun(s: Sys, a: nat, req: Request, env: Env)
    requires WorkOf(s, a) == Idle && Prepare(s.db, req, env).Ok?
    ensures var t := Apply(s, ReadCart(a, req.userId, StoredContact(req), req.paidBy.value, Basket(req)));
      t == Now(s, a, Quoted(Prepare(s.db, req, env).value))
  {
  }

  /** Vetting and locking, at one moment, is the service's own check and lock. */
  lemma VetThenLock(s: Sys, a: nat, d: Draft, req: Request, env: Env)
    requires WorkOf(s, a) == Quoted(d) && s.clock == env.now
    requires req.intent.Some? && ConsumeIntent(s.db, req, d, env).Ok?
    ensures var t := StepLock(StepVet(s, a, req.intent.value), a);
      && t.db == ConsumeIntent(s.db, req, d, env).value && t.clock == s.clock
      && WorkOf(t, a) == Holding(d, req.intent.value)
  {
  }

  lemma LockedRun(s: Sys, a: nat, req: Request, env: Env)
    requires WorkOf(s, a) == Idle && s.clock == env.now
    requires Prepare(s.db, req, env).Ok? && ConsumeIntent(s.db, req, Prepare(s.db, req, env).value, env).Ok?
    ensures var d := Prepare(s.db, req, env).value;
      var t := Run(s, LockSteps(a, req));
      && t.db == ConsumeIntent(s.db, req, d, env).value && t.clock == s.clock
      && WorkOf(t, a) == match req.intent case None => Quoted(d) case Some(j) => Holding(d, j)
  {
    var d := Prepare(s.db, req, env).value;
    var first := ReadCart(a, req.userId, StoredContact(req), req.paidBy.value, Basket(req));
    RunOne(s, first);
    PreparedRun(s, a, req, env);
    var quoted := Now(s, a, Quoted(d));
    match req.intent
    case None => assert LockSteps(a, req) == [first];
    case Some(j) =>
      VetThenLock(quoted, a, d, req, env);
      RunTwo(quoted, Vet(a, j), Lock(a));
      RunJoins(s, [first], [Vet(a, j), Lock(a)]);
      assert Apply(quoted, Vet(a, j)) == StepVet(quoted, a, j);
      assert Apply(StepVet(quoted, a, j), Lock(a)) == StepLock(StepVet(quoted, a, j), a);
  }

  /** Placing with the first free code has the effect of the whole retry loop. */
  lemma {:induction false} TryCodesIsOnePlace(db: Db, d: Draft, codes: seq<string>, now: int)
    requires TryCodes(db, d, codes, now).Ok?
    ensures exists code :: CommitCreate(db, d, code, now) == Created(TryCodes(db, d, codes, now).value)
  {
    if CommitCreate(db, d, codes[0], now).CodeTaken? {
      TryCodesIsOnePlace(db, d, codes[1..], now);
    }
  }

  /** What follows an order placed under an intent: the intent is attached and, if the order may be paid,
      a link is made. */
  function AttachSteps(s: Sys, a: nat, req: Request, env: Env, n: nat): seq<Step> {
    var used, who := StepAttach(s, a), Claimant(req.userId, None);
    if n < |used.db.orders| && MayPay(used.db.orders[n], who) then
      [Attach(a)] + AskSteps(a, n, who, env.txnRef)
    else [Attach(a)]
  }

  lemma AttachedRun(s: Sys, a: nat, req: Request, env: Env, n: nat)
    requires req.intent.Some? && WorkOf(s, a) == Placed(n, req.intent.value)
    ensures Run(s, AttachSteps(s, a, req, env, n)).db == AttachIntent(s.db, req, env, n)
  {
    var used, who := StepAttach(s, a), Claimant(req.userId, None);
    RunOne(s, Attach(a));
    assert Run(s, [Attach(a)]) == used && used.db == UseIntent(s.db, req.intent.value, n);
    if n < |used.db.orders| && MayPay(used.db.orders[n], who) {
      AskRun(used, a, n, who, env.txnRef);
      RunJoins(s, [Attach(a)], AskSteps(a, n, who, env.txnRef));
    }
  }

  lemma PlaceStep(s: Sys, a: nat, d: Draft, intent: Option<nat>, code: string, placed: Db)
    requires CommitCreate(s.db, d, code, s.clock) == Created(placed)
    requires WorkOf(s, a) == match intent case None => Quoted(d) case Some(j) => Holding(d, j)
    ensures var t := StepPlace(s, a, code);
      && t.db == placed
      && WorkOf(t, a) == match intent case None => Idle case Some(j) => Placed(|s.db.orders|, j)
  {
  }

  /** The steps from placing under a free code to the end of the request. */
  function PlaceSteps(s: Sys, a: nat, req: Request, env: Env, code: string): seq<Step> {
    [Place(a, code)]
    + if req.intent.None? then [] else AttachSteps(StepPlace(s, a, code), a, req, env, |s.db.orders|)
  }

  lemma PlaceStepsBy(s: Sys, a: nat, req: Request, env: Env, code: string)
    ensures AllBy(PlaceSteps(s, a, req, env, code), a)
  {
  }

  lemma PlaceAlone(s: Sys, a: nat, code: string)
    ensures Run(s, [Place(a, code)]) == StepPlace(s, a, code)
  {
    RunOne(s, Place(a, code));
    assert Apply(s, Place(a, code)) == StepPlace(s, a, code);
  }

  lemma PlacedWith(s: Sys, a: nat, d: Draft, req: Request, env: Env, code: string, placed: Db)
    requires CommitCreate(s.db, d, code, s.clock) == Created(placed)
    requires WorkOf(s, a) == match req.intent case None => Quoted(d) case Some(j) => Holding(d, j)
    ensures Run(s, PlaceSteps(s, a, req, env, code)).db == AttachIntent(placed, req, env, |s.db.orders|)
  {
    PlaceStep(s, a, d, req.intent, code, placed);
    var t := StepPlace(s, a, code);
    PlaceAlone(s, a, code);
    if req.intent.None? {
      assert PlaceSteps(s, a, req, env, code) == [Place(a, code)];
    } else {
      AttachedRun(t, a, req, env, |s.db.orders|);
      RunJoins(s, [Place(a, code)], AttachSteps(t, a, req, env, |s.db.orders|));
    }
  }

  /** Placing the order and everything after it. */
  lemma PlacedRun(s: Sys, a: nat, d: Draft, req: Request, env: Env)
    requires s.clock == env.now && TryCodes(s.db, d, env.codes, env.now).Ok?
    requires WorkOf(s, a) == match req.intent case None => Quoted(d) case Some(j) => Holding(d, j)
    ensures exists code ::
      Run(s, PlaceSteps(s, a, req, env, code)).db
      == AttachIntent(TryCodes(s.db, d, env.codes, env.now).value, req, env, |s.db.orders|)
  {
    TryCodesIsOnePlace(s.db, d, env.codes, env.now);
    var placed := TryCodes(s.db, d, env.codes, env.now).value;
    var code :| CommitCreate(s.db, d, code, env.now) == Created(placed);
    PlacedWith(s, a, d, req, env, code, placed);
  }

  /** Attaching does not look at the keys. */
  lemma AttachIgnoresKeys(db: Db, keys: map<string, KeyRecord>, req: Request, env: Env, n: nat)
    ensures AttachIntent(db.(keys := keys), req, env, n) == AttachIntent(db, req, env, n).(keys := keys)
  {
  }

  /** What is left of a request that placed an order, with the keys put aside. */
  lemma CreatedUnkeyed(db: Db, req: Request, env: Env, d: Draft, locked: Db)
    requires FieldsRefused(req).None? && ReplayKey(db, NormalizeKey(req.key), req, env) == Ok(None)
    requires Prepare(db, req, env) == Ok(d) && ConsumeIntent(db, req, d, env) == Ok(locked)
    requires Duplicate(locked, req, d, env.now).None? && TryCodes(locked, d, env.codes, env.now).Ok?
    ensures Unkeyed(Create(db, req, env).db, db)
      == AttachIntent(TryCodes(locked, d, env.codes, env.now).value, req, env, |locked.orders|)
  {
    var placed, n := TryCodes(locked, d, env.codes, env.now).value, |locked.orders|;
    TryCodesAdds(locked, d, env.codes, env.now);
    var keyed := RecordKey(placed, NormalizeKey(req.key), req, env, n);
    AttachIgnoresKeys(placed, keyed.keys, req, env, n);
    assert keyed == placed.(keys := keyed.keys);
    IntentAttached(placed, req, env, n);
    assert Create(db, req, env).db == AttachIntent(keyed, req, env, n);
  }

  /** The steps `first` led to `t`, and those of placing an order lead on from there. */
  lemma PlacedAfter(s: Sys, a: nat, first: seq<Step>, t: Sys, d: Draft, req: Request, env: Env)
    requires AllBy(first, a) && t == Run(s, first)
    requires t.clock == env.now && TryCodes(t.db, d, env.codes, env.now).Ok?
    requires WorkOf(t, a) == match req.intent case None => Quoted(d) case Some(j) => Holding(d, j)
    ensures exists steps ::
      && AllBy(steps, a)
      && Run(s, steps).db == AttachIntent(TryCodes(t.db, d, env.codes, env.now).value, req, env, |t.db.orders|)
  {
    PlacedRun(t, a, d, req, env);
    var code :| Run(t, PlaceSteps(t, a, req, env, code)).db
      == AttachIntent(TryCodes(t.db, d, env.codes, env.now).value, req, env, |t.db.orders|);
    var rest := PlaceSteps(t, a, req, env, code);
    PlaceStepsBy(t, a, req, env, code);
    RunJoins(s, first, rest);
    assert AllBy(first + rest, a);
  }

  /** A request whose fields, key, cart and intent are all accepted. */
  lemma AcceptedSteps(s: Sys, a: nat, req: Request, env: Env, d: Draft, locked: Db)
    requires WorkOf(s, a) == Idle && s.clock == env.now
    requires FieldsRefused(req).None? && ReplayKey(s.db, NormalizeKey(req.key), req, env) == Ok(None)
    requires Prepare(s.db, req, env) == Ok(d) && ConsumeIntent(s.db, req, d, env) == Ok(locked)
    ensures exists steps :: AllBy(steps, a) && Run(s, steps).db == Unkeyed(Create(s.db, req, env).db, s.db)
  {
    var first := LockSteps(a, req);
    LockedRun(s, a, req, env);
    assert AllBy(first, a);
    if Duplicate(locked, req, d, env.now).None? && TryCodes(locked, d, env.codes, env.now).Ok? {
      PlacedAfter(s, a, first, Run(s, first), d, req, env);
      CreatedUnkeyed(s.db, req, env, d, locked);
    } else {
      assert Create(s.db, req, env).db == locked;
    }
  }

  lemma RequestSteps(s: Sys, a: nat, req: Request, env: Env)
    requires WorkOf(s, a) == Idle && s.clock == env.now
    ensures exists steps :: AllBy(steps, a) && Run(s, steps).db == Unkeyed(Create(s.db, req, env).db, s.db)
  {
    if FieldsRefused(req).None? && ReplayKey(s.db, NormalizeKey(req.key), req, env) == Ok(None)
       && Prepare(s.db, req, env).Ok? && ConsumeIntent(s.db, req, Prepare(s.db, req, env).value, env).Ok? {
      var d := Prepare(s.db, req, env).value;
      AcceptedSteps(s, a, req, env, d, ConsumeIntent(s.db, req, d, env).value);
    } else {
      assert AllBy([], a) && Run(s, []).db == s.db;
      assert Create(s.db, req, env).db == s.db;
    }
  }

  /** Whatever a create request does to products, orders and intents, one idle actor does exactly that by
      reading the cart, vetting and locking, placing, attaching and linking: no other step is needed, the
      supply stays, and no other actor's pending work is touched. */
  lemma CreateIsARun(s: Sys, a: nat, req: Request, env: Env)
    requires WorkOf(s, a) == Idle && s.clock == env.now
    ensures exists steps :: DoneBy(s, a, steps, Unkeyed(Create(s.db, req, env).db, s.db))
  {
    RequestSteps(s, a, req, env);
    var steps :| AllBy(steps, a) && Run(s, steps).db == Unkeyed(Create(s.db, req, env).db, s.db);
    ByOnlyActor(s, a, steps);
    assert DoneBy(s, a, steps, Unkeyed(Create(s.db, req, env).db, s.db));
  }

  /** So a request that arrives in any reachable state, among whatever other actors are doing, conserves
      stock: what it leaves on the shelf plus what orders then hold is what was supplied before it. */
  lemma RequestConservesStock(steps: seq<Step>, a: nat, req: Request, env: Env, slug: Slug)
    requires var s := Reached(steps); WorkOf(s, a) == Idle && s.clock == env.now
    requires slug in Create(Reached(steps).db, req, env).db.products
    ensures var s, out := Reached(steps), Create(Reached(steps).db, req, env).db;
      && slug in s.supply
      && 0 <= out.products[slug].stock
      && out.products[slug].stock + HeldByAll(out.orders, slug) == s.supply[slug]
  {
    var s := Reached(steps);
    CreateIsARun(s, a, req, env);
    var more :| DoneBy(s, a, more, Unkeyed(Create(s.db, req, env).db, s.db));
    RunJoins(EMPTY, steps, more);
    StockConserved(steps + more, slug);
  }
}
