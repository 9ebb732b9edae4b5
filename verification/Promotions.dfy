/** Promotions: the price a listing had before one must come back when it ends. */
module Promotions {
  import opened Prelude
  import opened Pricing
  import opened Text
  import opened Shop

  datatype Draft = Draft(name: string, slugs: seq<Slug>, discountPct: real, startsAt: int, endsAt: int)

  datatype Promo = Promo(
    name: string, slugs: seq<Slug>, endsAt: int, active: bool, snapshot: map<Slug, nat>)

  /** The tables, the clock, and one history: each product's own price, which is what it was last set
      to while no open promotion held a snapshot of it. */
  datatype Market = Market(products: map<Slug, Product>, promos: seq<Promo>, now: int, own: map<Slug, nat>)

  datatype Refusal = BadBody | Clash | NoSuchPromotion | Drifted | BadPrice

  // ---------- Opening a promotion ----------

  predicate BodyOk(d: Draft) {
    && Trim(d.name) != ""
    && (exists i :: 0 <= i < |d.slugs| && d.slugs[i] != "")
    && d.discountPct != 0.0 && -90.0 <= d.discountPct <= 90.0
    && d.startsAt < d.endsAt
  }

  function Named(slugs: seq<Slug>): seq<Slug> {
    if slugs == [] then []
    else Named(slugs[..|slugs| - 1]) + if slugs[|slugs| - 1] == "" then [] else [slugs[|slugs| - 1]]
  }

  /** Empty names are dropped, and nothing else; the order stays. */
  lemma {:induction false} NamedIs(a: seq<Slug>, s: Slug)
    ensures Named(a + [s]) == Named(a) + if s == "" then [] else [s]
    ensures forall x :: x in Named(a) <==> x in a && x != ""
  {
    assert (a + [s])[..|a|] == a;
    if a != [] {
      var n := |a| - 1;
      NamedIs(a[..n], a[n]);
      assert a == a[..n] + [a[n]];
    }
  }

  predicate Overlaps(a: seq<Slug>, b: seq<Slug>) {
    exists i :: 0 <= i < |a| && a[i] in b
  }

  /** The clash check looks only at promotions that are active and have not ended. */
  predicate Clashes(m: Market, slugs: seq<Slug>) {
    exists j :: 0 <= j < |m.promos| && m.promos[j].active && m.now < m.promos[j].endsAt
      && Overlaps(m.promos[j].slugs, slugs)
  }

  function Snapshot(products: map<Slug, Product>, slugs: seq<Slug>): map<Slug, nat> {
    map s | s in slugs && s in products :: products[s].priceUsd
  }

  function Refused(m: Market, d: Draft): Option<Refusal> {
    if !BodyOk(d) then Some(BadBody)
    else if Clashes(m, Named(d.slugs)) then Some(Clash)
    else None
  }

  function Opened(m: Market, d: Draft): Market {
    var slugs := Named(d.slugs);
    m.(promos := m.promos + [Promo(Take(Trim(d.name), 80), slugs, d.endsAt, true, Snapshot(m.products, slugs))])
  }

  // ---------- Closing one ----------

  function Priced(p: Product, usd: nat): Product {
    p.(priceUsd := usd, priceVnd := usd * USD_TO_VND)
  }

  /** A product already at its snapshot price is left untouched. */
  function Restored(products: map<Slug, Product>, snapshot: map<Slug, nat>): map<Slug, Product> {
    map s | s in products ::
      if s in snapshot && products[s].priceUsd != snapshot[s] then Priced(products[s], snapshot[s]) else products[s]
  }

  function Moved(products: map<Slug, Product>, snapshot: map<Slug, nat>): set<Slug> {
    set s | s in snapshot && s in products && products[s].priceUsd != snapshot[s]
  }

  function Closed(m: Market, id: nat): Market {
    if id >= |m.promos| || !m.promos[id].active then m
    else m.(products := Restored(m.products, m.promos[id].snapshot),
            promos := m.promos[id := m.promos[id].(active := false)])
  }

  // ---------- Any interleaving of edits, openings and closings ----------

  datatype Step =
    | Wait(ms: nat) | AddProduct(slug: Slug, usd: nat) | SetPrice(slug: Slug, usd: nat)
    | Open(d: Draft) | Close(id: nat)

  predicate Covered(m: Market, s: Slug) {
    exists j :: 0 <= j < |m.promos| && m.promos[j].active && s in m.promos[j].snapshot
  }

  function Apply(m: Market, step: Step): Market {
    match step
    case Wait(ms) => m.(now := m.now + ms)
    case AddProduct(s, usd) =>
      if s in m.products || usd == 0 then m
      else m.(products := m.products[s := Product(usd, usd * USD_TO_VND, 1, true)], own := m.own[s := usd])
    case SetPrice(s, usd) =>
      if s !in m.products || usd == 0 then m
      else m.(products := m.products[s := Priced(m.products[s], usd)],
              own := if Covered(m, s) then m.own else m.own[s := usd])
    case Open(d) => if Refused(m, d).Some? then m else Opened(m, d)
    case Close(id) => Closed(m, id)
  }

  function Run(m: Market, steps: seq<Step>): Market {
    if steps == [] then m else Apply(Run(m, steps[..|steps| - 1]), steps[|steps| - 1])
  }

  const EMPTY := Market(map[], [], 0, map[])

  ghost predicate Vnd(products: map<Slug, Product>) {
    forall s :: s in products ==> products[s].priceVnd == products[s].priceUsd * USD_TO_VND
  }

  ghost predicate Clean(m: Market, j: nat)
    requires j < |m.promos|
  {
    forall s :: s in m.promos[j].snapshot ==> s in m.own && m.promos[j].snapshot[s] == m.own[s]
  }

  /** Open promotions remember own prices, and every product outside them sells at its own price. */
  ghost predicate Inv(m: Market) {
    && m.own.Keys == m.products.Keys && Vnd(m.products)
    && (forall j :: 0 <= j < |m.promos| && m.promos[j].active ==> Clean(m, j))
    && (forall s :: s in m.products && !Covered(m, s) ==> m.products[s].priceUsd == m.own[s])
    && (forall j, s :: 0 <= j < |m.promos| && s in m.promos[j].snapshot ==> s in m.promos[j].slugs)
  }

  /** What a caller can check before opening: no open promotion, ended or not, has already changed the
      price of a product the new one lists. */
  predicate Safe(m: Market, d: Draft) {
    forall j :: 0 <= j < |m.promos| && m.promos[j].active ==>
      forall s :: s in m.promos[j].snapshot && s in Named(d.slugs) && s in m.products ==>
        m.products[s].priceUsd == m.promos[j].snapshot[s]
  }

  /** The new snapshot holds own prices exactly when opening was safe. */
  lemma OpenedCleanIff(m: Market, d: Draft)
    requires Inv(m)
    ensures Clean(Opened(m, d), |m.promos|) <==> Safe(m, d)
  {
    var m', slugs := Opened(m, d), Named(d.slugs);
    if Clean(m', |m.promos|) {
      forall j, s |
        0 <= j < |m.promos| && m.promos[j].active && s in m.promos[j].snapshot && s in slugs && s in m.products
        ensures m.products[s].priceUsd == m.promos[j].snapshot[s]
      {
        assert Clean(m, j) && s in m'.promos[|m.promos|].snapshot;
      }
    }
    if Safe(m, d) {
      forall s | s in m'.promos[|m.promos|].snapshot
        ensures s in m'.own && m'.promos[|m.promos|].snapshot[s] == m'.own[s]
      {
        if Covered(m, s) {
          var j :| 0 <= j < |m.promos| && m.promos[j].active && s in m.promos[j].snapshot;
          assert Clean(m, j);
        }
      }
    }
  }

  /** When the expiry job is not behind, the code's own clash check is enough. */
  lemma UpToDateIsSafe(m: Market, d: Draft)
    requires Inv(m) && Refused(m, d).None?
    requires forall j :: 0 <= j < |m.promos| && m.promos[j].active ==> m.now < m.promos[j].endsAt
    ensures Safe(m, d)
  {
  }

  lemma CloseKeeps(m: Market, id: nat)
    requires Inv(m)
    ensures Inv(Closed(m, id)) && Closed(m, id).own == m.own
  {
    var m' := Closed(m, id);
    if m' != m {
      forall j | 0 <= j < |m'.promos| && m'.promos[j].active ensures Clean(m', j) {
        assert Clean(m, j);
      }
      assert Clean(m, id);
      forall s | s in m'.products && !Covered(m', s) ensures m'.products[s].priceUsd == m'.own[s] {
        if s !in m.promos[id].snapshot {
          StillCovered(m, m', s, id);
        }
      }
    }
  }

  lemma OpenKeeps(m: Market, d: Draft)
    requires Inv(m) && Safe(m, d)
    ensures Inv(Opened(m, d))
  {
    var m' := Opened(m, d);
    OpenedCleanIff(m, d);
    forall j | 0 <= j < |m'.promos| && m'.promos[j].active ensures Clean(m', j) {
      if j < |m.promos| {
        assert Clean(m, j);
      }
    }
    forall s | s in m'.products && !Covered(m', s) ensures m'.products[s].priceUsd == m'.own[s] {
      StillCovered(m, m', s, |m.promos|);
    }
  }

  /** Promotions other than `id` go on covering what they covered. */
  lemma StillCovered(m: Market, m': Market, s: Slug, id: nat)
    requires |m.promos| <= |m'.promos|
    requires forall j :: 0 <= j < |m.promos| && j != id ==> m'.promos[j] == m.promos[j]
    requires id < |m.promos| ==> s !in m.promos[id].snapshot
    ensures Covered(m, s) ==> Covered(m', s)
  {
    if Covered(m, s) {
      var j :| 0 <= j < |m.promos| && m.promos[j].active && s in m.promos[j].snapshot;
      assert m'.promos[j].active && s in m'.promos[j].snapshot;
    }
  }

  lemma EditKeeps(m: Market, m': Market)
    requires Inv(m) && m'.promos == m.promos && Vnd(m'.products)
    requires m.products.Keys <= m'.products.Keys && m'.own.Keys == m'.products.Keys
    requires forall s :: s in m'.products && !Covered(m, s) ==> m'.products[s].priceUsd == m'.own[s]
    requires forall s :: s in m.own && Covered(m, s) ==> m'.own[s] == m.own[s]
    ensures Inv(m')
  {
    forall j | 0 <= j < |m'.promos| && m'.promos[j].active ensures Clean(m', j) {
      assert Clean(m, j);
      forall s | s in m.promos[j].snapshot ensures s in m'.own && m'.own[s] == m.own[s] {
        assert Covered(m, s) && s in m'.products.Keys;
      }
    }
    forall s | s in m'.products && !Covered(m', s) ensures m'.products[s].priceUsd == m'.own[s] {
      assert !Covered(m, s);
    }
  }

  lemma SetPriceKeeps(m: Market, s: Slug, usd: nat)
    requires Inv(m)
    ensures Inv(Apply(m, SetPrice(s, usd)))
  {
    EditKeeps(m, Apply(m, SetPrice(s, usd)));
  }

  lemma AddProductKeeps(m: Market, s: Slug, usd: nat)
    requires Inv(m)
    ensures Inv(Apply(m, AddProduct(s, usd)))
  {
    EditKeeps(m, Apply(m, AddProduct(s, usd)));
  }

  lemma StepKeeps(m: Market, step: Step)
    requires Inv(m)
    requires step.Open? && Refused(m, step.d).None? ==> Safe(m, step.d)
    ensures Inv(Apply(m, step))
  {
    match step
    case Open(d) =>
      if Refused(m, d).None? {
        OpenKeeps(m, d);
      }
    case Close(id) => CloseKeeps(m, id);
    case SetPrice(s, usd) => SetPriceKeeps(m, s, usd);
    case AddProduct(s, usd) => AddProductKeeps(m, s, usd);
    case Wait(ms) => EditKeeps(m, m.(now := m.now + ms));
  }

  /** Prices of nothing are refused, by an edit as by a new product, and a taken slug stays as it is. */
  lemma NothingIsNoPrice(m: Market, s: Slug, usd: nat)
    ensures Apply(m, SetPrice(s, 0)) == m && Apply(m, AddProduct(s, 0)) == m
    ensures s in m.products ==> Apply(m, AddProduct(s, usd)) == m
  {
  }

  /** Every promotion the run opened was safe to open. */
  ghost predicate AllSafe(steps: seq<Step>) {
    forall k :: 0 <= k < |steps| && steps[k].Open? ==>
      var m := Run(EMPTY, steps[..k]); Refused(m, steps[k].d).None? ==> Safe(m, steps[k].d)
  }

  lemma {:induction false} RunKeeps(steps: seq<Step>)
    requires AllSafe(steps)
    ensures Inv(Run(EMPTY, steps))
  {
    if steps != [] {
      var n := |steps| - 1;
      forall k | 0 <= k < n ensures steps[..n][k] == steps[k] && steps[..n][..k] == steps[..k] {
      }
      RunKeeps(steps[..n]);
      StepKeeps(Run(EMPTY, steps[..n]), steps[n]);
    }
  }

  /** After any run of edits, openings and closings, a product that no open promotion covers sells at its
      own price, in both currencies, provided every opening was safe. */
  lemma OwnPricesComeBack(steps: seq<Step>, s: Slug)
    requires AllSafe(steps)
    requires s in Run(EMPTY, steps).products && !Covered(Run(EMPTY, steps), s)
    ensures var m := Run(EMPTY, steps);
      && s in m.own && m.products[s].priceUsd == m.own[s]
      && m.products[s].priceVnd == USD_TO_VND * m.own[s]
  {
    RunKeeps(steps);
  }

  // ---------- Where the clash check is not enough ----------

  lemma {:induction false} OnlyCloses(m: Market, steps: seq<Step>, id: nat)
    requires id < |m.promos|
    requires forall k :: 0 <= k < |steps| ==> steps[k].Close? && steps[k].id != id
    ensures var m' := Run(m, steps);
      && |m'.promos| == |m.promos| && m'.promos[id] == m.promos[id]
      && m'.own == m.own && m'.products.Keys == m.products.Keys
  {
    if steps != [] {
      OnlyCloses(m, steps[..|steps| - 1], id);
    }
  }

  /** Some listed product does not sell at its own price. */
  ghost predicate PriceLost(m: Market, slugs: seq<Slug>) {
    exists s :: s in slugs && s in m.products && s in m.own && m.products[s].priceUsd != m.own[s]
  }

  /** Closing a promotion whose snapshot is not clean sells some product at another price. */
  lemma CloseUnclean(m: Market, id: nat)
    requires id < |m.promos| && m.promos[id].active && !Clean(m, id)
    requires m.promos[id].snapshot.Keys <= m.products.Keys && m.own.Keys == m.products.Keys
    requires forall s :: s in m.promos[id].snapshot ==> s in m.promos[id].slugs
    ensures PriceLost(Closed(m, id), m.promos[id].slugs)
  {
    var s :| s in m.promos[id].snapshot && !(s in m.own && m.promos[id].snapshot[s] == m.own[s]);
    assert s in m.products.Keys;
    assert Closed(m, id).products[s].priceUsd == m.promos[id].snapshot[s];
  }

  /** An unsafe opening loses an own price for good: once everything is closed, the new promotion last,
      some product it lists is not back at its own price. */
  lemma UnsafeOpeningLosesAPrice(m: Market, d: Draft, closes: seq<Step>)
    requires Inv(m) && Refused(m, d).None? && !Safe(m, d)
    requires forall k :: 0 <= k < |closes| ==> closes[k].Close? && closes[k].id != |m.promos|
    ensures PriceLost(Closed(Run(Opened(m, d), closes), |m.promos|), Named(d.slugs))
  {
    var n := |m.promos|;
    OpenedCleanIff(m, d);
    OnlyCloses(Opened(m, d), closes, n);
    CloseUnclean(Run(Opened(m, d), closes), n);
  }

  /** A run that does it: a promotion ends but is not yet closed, a second one is opened on its product
      at the reduced price, and closing both leaves the reduced price. */
  lemma EndedButOpenOverlap()
    ensures var first := Draft("spring", ["tourbillon"], 50.0, 0, 10);
      var second := Draft("summer", ["tourbillon"], 20.0, 11, 20);
      var m := Run(EMPTY, [AddProduct("tourbillon", 100), Open(first), SetPrice("tourbillon", 50), Wait(11)]);
      var n := Closed(Closed(Apply(m, Open(second)), 0), 1);
      && m.now == 11 && Refused(m, second).None?
      && "tourbillon" in n.products && n.products["tourbillon"].priceUsd == 50 && !Covered(n, "tourbillon")
      && "tourbillon" in n.own && n.own["tourbillon"] == 100
  {
    var s := "tourbillon";
    FirstEnded();
    var m := Run(EMPTY, [AddProduct(s, 100), Open(Draft("spring", [s], 50.0, 0, 10)), SetPrice(s, 50), Wait(11)]);
    SecondOpened(m, s);
    ClosingBoth(Opened(m, Draft("summer", [s], 20.0, 11, 20)), s);
  }

  lemma SecondOpened(m: Market, s: Slug)
    requires s != "" && s in m.products && m.products[s].priceUsd == 50
    requires |m.promos| == 1 && m.now == 11 && m.promos[0].endsAt == 10
    ensures var second := Draft("summer", [s], 20.0, 11, 20);
      && Refused(m, second).None?
      && |Opened(m, second).promos| == 2 && Opened(m, second).promos[0] == m.promos[0]
      && Opened(m, second).promos[1].active && Opened(m, second).promos[1].snapshot == map[s := 50]
  {
    var second := Draft("summer", [s], 20.0, 11, 20);
    NamedOne(s);
    assert second.slugs[0] != "" && Trim("summer") == "summer";
    assert !Clashes(m, [s]);
  }

  lemma FirstEnded()
    ensures var s := "tourbillon";
      var m := Run(EMPTY, [AddProduct(s, 100), Open(Draft("spring", [s], 50.0, 0, 10)), SetPrice(s, 50), Wait(11)]);
      && m.now == 11 && |m.promos| == 1 && m.promos[0].active && m.promos[0].endsAt == 10
      && m.promos[0].snapshot == map[s := 100]
      && s in m.products && m.products[s].priceUsd == 50 && s in m.own && m.own[s] == 100
  {
    var s := "tourbillon";
    var first := Draft("spring", [s], 50.0, 0, 10);
    NamedOne(s);
    var steps := [AddProduct(s, 100), Open(first), SetPrice(s, 50), Wait(11)];
    assert first.slugs[0] != "" && Trim("spring") == "spring";
    var m1 := Apply(EMPTY, steps[0]);
    var m2 := Apply(m1, Open(first));
    assert m2.promos[0].snapshot == map[s := 100];
    assert Covered(m2, s);
    Unroll4(steps);
  }

  lemma ClosingBoth(m: Market, s: Slug)
    requires s in m.products && m.products[s].priceUsd == 50 && |m.promos| == 2
    requires m.promos[0].active && m.promos[0].snapshot == map[s := 100]
    requires m.promos[1].active && m.promos[1].snapshot == map[s := 50]
    ensures var n := Closed(Closed(m, 0), 1);
      s in n.products && n.products[s].priceUsd == 50 && !Covered(n, s) && n.own == m.own
  {
    assert Closed(m, 0).products[s].priceUsd == 100;
  }

  lemma NamedOne(s: Slug)
    requires s != ""
    ensures Named([s]) == [s]
  {
    assert [s][..0] == [];
  }

  lemma Unroll4(steps: seq<Step>)
    requires |steps| == 4
    ensures Run(EMPTY, steps)
      == Apply(Apply(Apply(Apply(EMPTY, steps[0]), steps[1]), steps[2]), steps[3])
  {
    assert steps[..3][..2] == steps[..2] && steps[..2][..1] == steps[..1] && steps[..1][..0] == [];
    assert Run(EMPTY, steps[..1]) == Apply(EMPTY, steps[0]);
    assert Run(EMPTY, steps[..2]) == Apply(Run(EMPTY, steps[..1]), steps[1]);
    assert Run(EMPTY, steps[..3]) == Apply(Run(EMPTY, steps[..2]), steps[2]);
  }

  lemma Unroll2(first: Step, second: Step)
    ensures Run(EMPTY, [first]) == Apply(EMPTY, first)
    ensures Run(EMPTY, [first, second]) == Apply(Apply(EMPTY, first), second)
  {
    assert [first, second][..1] == [first] && [first][..0] == [];
    assert Run(EMPTY, [first][..0]) == EMPTY;
  }

  // ---------- One promotion, staged by the agent ----------

  datatype ChangeItem = ChangeItem(target: Slug, before: nat, after: int)

  /** Rounds to the nearest integer, halves to the even one. */
  function RoundHalfEven(x: real): int {
    var down := x.Floor;
    var part := x - down as real;
    if part < 0.5 then down
    else if part > 0.5 then down + 1
    else if down % 2 == 0 then down else down + 1
  }

  function Discounted(usd: nat, pct: real): real {
    usd as real * (1.0 - pct / 100.0)
  }

  function StageItems(m: Market, slugs: seq<Slug>, pct: real): seq<ChangeItem>
    requires forall i :: 0 <= i < |slugs| ==> slugs[i] in m.products
  {
    seq(|slugs|, i requires 0 <= i < |slugs| =>
      var before := m.products[slugs[i]].priceUsd;
      ChangeItem(slugs[i], before, RoundHalfEven(Discounted(before, pct))))
  }

  /** `n` is the integer nearest to `x`, the even one of two equally near. */
  ghost predicate Nearest(x: real, n: int) {
    && -1.0 <= 2.0 * (x - n as real) <= 1.0
    && (2.0 * (x - n as real) == 1.0 || 2.0 * (x - n as real) == -1.0 ==> n % 2 == 0)
  }

  lemma RoundsToNearest(x: real, top: nat)
    ensures Nearest(x, RoundHalfEven(x))
    ensures 0.0 <= x <= top as real ==> 0 <= RoundHalfEven(x) <= top
  {
  }

  lemma DiscountedIs(usd: nat, pct: real)
    ensures 100.0 * Discounted(usd, pct) == usd as real * (100.0 - pct)
    ensures 0.0 <= pct <= 100.0 ==> 0.0 <= Discounted(usd, pct) <= usd as real
  {
    if 0.0 <= pct <= 100.0 {
      assert 0.0 <= usd as real * pct;
      assert 0.0 <= usd as real * (100.0 - pct);
    }
  }

  /** What is staged: one price change per listed product, in the order listed, from the current price to
      the discounted one, rounded to a whole number. A discount never raises a price or makes it negative. */
  lemma StagedPrices(m: Market, slugs: seq<Slug>, pct: real, i: nat)
    requires i < |slugs| && forall k :: 0 <= k < |slugs| ==> slugs[k] in m.products
    ensures var items, usd := StageItems(m, slugs, pct), m.products[slugs[i]].priceUsd;
      && |items| == |slugs| && items[i].target == slugs[i] && items[i].before == usd
      && Nearest(Discounted(usd, pct), items[i].after) && 100.0 * Discounted(usd, pct) == usd as real * (100.0 - pct)
      && (0.0 <= pct <= 100.0 ==> 0 <= items[i].after <= usd)
  {
    var usd := m.products[slugs[i]].priceUsd;
    DiscountedIs(usd, pct);
    RoundsToNearest(Discounted(usd, pct), usd);
  }

  /** A tenth off a hundred is ninety. */
  lemma StagedExample(m: Market)
    requires "tourbillon" in m.products && m.products["tourbillon"].priceUsd == 100
    ensures StageItems(m, ["tourbillon"], 10.0) == [ChangeItem("tourbillon", 100, 90)]
  {
  }

  /** Every recorded price that could be read must be unchanged; `seen` is what the check read, product by
      product, and a product it could not read is missing from it. */
  predicate NoDrift(items: seq<ChangeItem>, seen: map<Slug, nat>) {
    forall i :: 0 <= i < |items| && items[i].target in seen ==> seen[items[i].target] == items[i].before
  }

  /** The price updates of an apply stop at the first one the shop refuses. */
  function SetPrices(m: Market, items: seq<ChangeItem>): Market
    decreases |items|
  {
    if items == [] || items[0].target !in m.products || items[0].after <= 0 then m
    else SetPrices(Apply(m, SetPrice(items[0].target, items[0].after)), items[1..])
  }

  /** The drift check comes first and the promotion is opened later, on whatever market it then finds. */
  function ApplyChange(m: Market, items: seq<ChangeItem>, d: Draft, seen: map<Slug, nat>): Result<Market, Refusal> {
    if !NoDrift(items, seen) then Err(Drifted)
    else
      match Refused(m, d)
      case Some(e) => Err(e)
      case None => Ok(SetPrices(Opened(m, d), items))
  }

  /** Which changes are refused, each exactly when: a recorded price that was read has moved, and after
      that what refuses the promotion itself. */
  lemma ApplyRefusedIff(m: Market, items: seq<ChangeItem>, d: Draft, seen: map<Slug, nat>)
    ensures var r := ApplyChange(m, items, d, seen);
      var moved := exists i :: 0 <= i < |items| && items[i].target in seen && seen[items[i].target] != items[i].before;
      && (r == Err(Drifted) <==> moved)
      && (r.Ok? <==> !moved && Refused(m, d).None?)
  {
  }

  /** The apply can set every price: each target exists, is listed once, and gets a positive price. */
  ghost predicate Settable(m: Market, items: seq<ChangeItem>) {
    && (forall i :: 0 <= i < |items| ==> items[i].target in m.products && items[i].after > 0)
    && (forall i, j :: 0 <= i < j < |items| ==> items[i].target != items[j].target)
  }

  lemma {:induction false} PricesSet(m: Market, items: seq<ChangeItem>, s: Slug)
    requires Settable(m, items) && s in m.products
    ensures var after := SetPrices(m, items).products;
      && s in after
      && (forall i :: 0 <= i < |items| && items[i].target == s ==>
            after[s].priceUsd == items[i].after && after[s].priceVnd == 25200 * items[i].after)
      && ((forall i :: 0 <= i < |items| ==> items[i].target != s) ==> after[s] == m.products[s])
    decreases |items|
  {
    if items != [] {
      var next := Apply(m, SetPrice(items[0].target, items[0].after));
      forall i | 0 <= i < |items[1..]| ensures items[1..][i].target in next.products {
      }
      PricesSet(next, items[1..], s);
      forall i | 1 <= i < |items| ensures items[i] == items[1..][i - 1] {
      }
      if items[0].target == s {
        assert forall i :: 0 <= i < |items[1..]| ==> items[1..][i].target != s;
      }
    }
  }

  /** This step neither sets the product's price nor closes a promotion that remembers it. */
  ghost predicate Spares(m: Market, step: Step, s: Slug) {
    && !(step.SetPrice? && step.slug == s)
    && (step.Close? && step.id < |m.promos| ==> s !in m.promos[step.id].snapshot)
  }

  lemma {:induction false} PriceHolds(m: Market, steps: seq<Step>, s: Slug)
    requires s in m.products
    requires forall k :: 0 <= k < |steps| ==> Spares(Run(m, steps[..k]), steps[k], s)
    ensures s in Run(m, steps).products && Run(m, steps).products[s] == m.products[s]
  {
    if steps != [] {
      var n := |steps| - 1;
      forall k | 0 <= k < n ensures Spares(Run(m, steps[..n][..k]), steps[..n][k], s) {
        assert steps[..n][..k] == steps[..k] && Spares(Run(m, steps[..k]), steps[k], s);
      }
      PriceHolds(m, steps[..n], s);
      assert Spares(Run(m, steps[..n]), steps[n], s);
    }
  }

  /** While a promotion runs: after an apply that could set every price, each listed product sells at its
      staged price, in both currencies, until its price is set again or a promotion that remembers it is
      closed. A product that was not listed keeps its price. */
  lemma ListedSellAtStagedPrice(
    m: Market, items: seq<ChangeItem>, d: Draft, seen: map<Slug, nat>, steps: seq<Step>, s: Slug)
    requires ApplyChange(m, items, d, seen).Ok? && Settable(m, items) && s in m.products
    requires var applied := ApplyChange(m, items, d, seen).value;
      forall k :: 0 <= k < |steps| ==> Spares(Run(applied, steps[..k]), steps[k], s)
    ensures var later := Run(ApplyChange(m, items, d, seen).value, steps).products;
      && s in later
      && (forall i :: 0 <= i < |items| && items[i].target == s ==>
            later[s].priceUsd == items[i].after && later[s].priceVnd == 25200 * items[i].after)
      && ((forall i :: 0 <= i < |items| ==> items[i].target != s) ==> later[s] == m.products[s])
  {
    PricesSet(Opened(m, d), items, s);
    PriceHolds(ApplyChange(m, items, d, seen).value, steps, s);
  }

  lemma {:induction false} SetPricesKeepPromos(m: Market, items: seq<ChangeItem>)
    requires Vnd(m.products)
    ensures var m' := SetPrices(m, items);
      m'.promos == m.promos && m.products.Keys <= m'.products.Keys && Vnd(m'.products)
    decreases |items|
  {
    if items != [] && items[0].target in m.products && items[0].after > 0 {
      SetPricesKeepPromos(Apply(m, SetPrice(items[0].target, items[0].after)), items[1..]);
    }
  }

  lemma {:induction false} PromoStays(m: Market, steps: seq<Step>, id: nat)
    requires id < |m.promos| && Vnd(m.products)
    requires forall k :: 0 <= k < |steps| ==> steps[k] != Close(id)
    ensures var m' := Run(m, steps);
      id < |m'.promos| && m'.promos[id] == m.promos[id] && m.products.Keys <= m'.products.Keys && Vnd(m'.products)
  {
    if steps != [] {
      PromoStays(m, steps[..|steps| - 1], id);
      StepVnd(Run(m, steps[..|steps| - 1]), steps[|steps| - 1]);
    }
  }

  lemma StepVnd(m: Market, step: Step)
    requires Vnd(m.products)
    ensures Vnd(Apply(m, step).products) && m.products.Keys <= Apply(m, step).products.Keys
  {
  }

  /** Whatever the drift check saw: after an apply, any later steps that do not close this promotion, and
      closing it, the product sells at the price recorded at staging exactly when it sold at that price at
      the moment the promotion was opened. */
  lemma {:induction false} ClosingRestoresStagedPriceIff(
    m: Market, items: seq<ChangeItem>, d: Draft, steps: seq<Step>, i: nat)
    requires Vnd(m.products) && Refused(m, d).None?
    requires i < |items| && items[i].target in m.products && items[i].target in Named(d.slugs)
    requires forall k :: 0 <= k < |steps| ==> steps[k] != Close(|m.promos|)
    ensures var after := Closed(Run(SetPrices(Opened(m, d), items), steps), |m.promos|);
      var s := items[i].target;
      && s in after.products
      && after.products[s].priceVnd == USD_TO_VND * after.products[s].priceUsd
      && (after.products[s].priceUsd == items[i].before <==> m.products[s].priceUsd == items[i].before)
  {
    var id, s := |m.promos|, items[i].target;
    var begun := Opened(m, d);
    SetPricesKeepPromos(begun, items);
    var applied := SetPrices(begun, items);
    PromoStays(applied, steps, id);
    var later := Run(applied, steps);
    assert s in begun.products.Keys && s in later.products.Keys;
    assert later.promos[id].active && later.promos[id].snapshot[s] == m.products[s].priceUsd;
    assert Closed(later, id).products[s].priceUsd == m.products[s].priceUsd;
  }

  lemma {:induction false} NamedKeeps(slugs: seq<Slug>, s: Slug)
    requires s in slugs && s != ""
    ensures s in Named(slugs)
  {
    if slugs[|slugs| - 1] != s {
      assert s in slugs[..|slugs| - 1];
      NamedKeeps(slugs[..|slugs| - 1], s);
    }
  }

  /** The whole trip, from staging on one market to applying on a later one, edits and closing: a listed
      product is back at its price when staged exactly when it had that price when the promotion was
      opened. The drift check has no part in the condition: it may have been unable to read the product,
      or the product may have been edited after it. */
  lemma PromotionRoundTripIff(
    staged: Market, m: Market, d: Draft, seen: map<Slug, nat>, steps: seq<Step>, i: nat)
    requires forall k :: 0 <= k < |d.slugs| ==> d.slugs[k] in staged.products
    requires var items := StageItems(staged, d.slugs, d.discountPct); ApplyChange(m, items, d, seen).Ok?
    requires Vnd(m.products) && i < |d.slugs| && d.slugs[i] != "" && d.slugs[i] in m.products
    requires forall k :: 0 <= k < |steps| ==> steps[k] != Close(|m.promos|)
    ensures var items := StageItems(staged, d.slugs, d.discountPct);
      var after := Closed(Run(ApplyChange(m, items, d, seen).value, steps), |m.promos|);
      var s := d.slugs[i];
      && s in after.products
      && after.products[s].priceVnd == USD_TO_VND * after.products[s].priceUsd
      && (after.products[s].priceUsd == staged.products[s].priceUsd
          <==> m.products[s].priceUsd == staged.products[s].priceUsd)
  {
    NamedKeeps(d.slugs, d.slugs[i]);
    ClosingRestoresStagedPriceIff(m, StageItems(staged, d.slugs, d.discountPct), d, steps, i);
  }

  /** So a product the drift check read, and nobody edited between that and the opening, makes the trip. */
  lemma PromotionRoundTrip(
    staged: Market, m: Market, d: Draft, seen: map<Slug, nat>, steps: seq<Step>, i: nat)
    requires forall k :: 0 <= k < |d.slugs| ==> d.slugs[k] in staged.products
    requires var items := StageItems(staged, d.slugs, d.discountPct); ApplyChange(m, items, d, seen).Ok?
    requires Vnd(m.products) && i < |d.slugs| && d.slugs[i] != "" && d.slugs[i] in m.products
    requires d.slugs[i] in seen && seen[d.slugs[i]] == m.products[d.slugs[i]].priceUsd
    requires forall k :: 0 <= k < |steps| ==> steps[k] != Close(|m.promos|)
    ensures var items := StageItems(staged, d.slugs, d.discountPct);
      var after := Closed(Run(ApplyChange(m, items, d, seen).value, steps), |m.promos|);
      var s := d.slugs[i];
      && s in after.products && after.products[s].priceUsd == staged.products[s].priceUsd
      && after.products[s].priceVnd == USD_TO_VND * staged.products[s].priceUsd
  {
    var items := StageItems(staged, d.slugs, d.discountPct);
    assert items[i].target in seen && seen[items[i].target] == items[i].before;
    PromotionRoundTripIff(staged, m, d, seen, steps, i);
  }

  /** A product staged at 100 and edited to 120 before the promotion is opened. The check passes when it
      read the product before the edit, and also when it could not read it at all; closing then leaves 120,
      and the staged price is gone. */
  lemma LateEditLosesStagedPrice(seen: map<Slug, nat>)
    requires seen == map["tourbillon" := 100] || seen == map[]
    ensures var s, d := "tourbillon", Draft("spring", ["tourbillon"], 10.0, 0, 10);
      var staged := Run(EMPTY, [AddProduct(s, 100)]);
      var m := Run(EMPTY, [AddProduct(s, 100), SetPrice(s, 120)]);
      && s in staged.products && staged.products[s].priceUsd == 100
      && var items := StageItems(staged, d.slugs, d.discountPct);
      && ApplyChange(m, items, d, seen).Ok?
      && var after := Closed(ApplyChange(m, items, d, seen).value, 0);
      && s in after.products && after.products[s].priceUsd == 120
  {
    var s, d := "tourbillon", Draft("spring", ["tourbillon"], 10.0, 0, 10);
    var add, edit := AddProduct(s, 100), SetPrice(s, 120);
    Unroll2(add, edit);
    var staged, m := Run(EMPTY, [add]), Run(EMPTY, [add, edit]);
    NamedOne(s);
    assert d.slugs[0] != "" && Trim("spring") == "spring";
    assert Refused(m, d).None?;
    var items := StageItems(staged, d.slugs, d.discountPct);
    assert |items| == 1 && items[0].target == s && items[0].before == 100;
    var begun := Opened(m, d);
    assert begun.promos[0].snapshot == map[s := 120];
    SetPricesKeepPromos(begun, items);
    assert SetPrices(begun, items).promos == begun.promos;
  }

  /** Closing twice is closing once. */
  lemma CloseTwice(m: Market, id: nat)
    ensures Closed(Closed(m, id), id) == Closed(m, id)
  {
  }

  // ---------- The services ----------

  /** Restoring one more product of the snapshot. */
  lemma OneMore(products: map<Slug, Product>, snapshot: map<Slug, nat>, todo: set<Slug>, s: Slug)
    requires s in todo && todo <= snapshot.Keys
    ensures var mid, after := Restored(products, snapshot - todo), Restored(products, snapshot - (todo - {s}));
      && (s in products <==> s in mid) && (s in products ==> mid[s] == products[s])
      && after == if s in products && products[s].priceUsd != snapshot[s]
                  then mid[s := Priced(products[s], snapshot[s])] else mid
    ensures Moved(products, snapshot) - (todo - {s})
      == Moved(products, snapshot) - todo + if s in Moved(products, snapshot) then {s} else {}
  {
    assert s !in snapshot - todo;
    forall k | k != s ensures k in snapshot - todo <==> k in snapshot - (todo - {s}) {
    }
  }

  /** Everything but `todo` has been restored and counted. */
  ghost predicate Progress(
    before: map<Slug, Product>, snapshot: map<Slug, nat>, todo: set<Slug>, now: map<Slug, Product>, restored: nat)
  {
    now == Restored(before, snapshot - todo) && restored == |Moved(before, snapshot) - todo|
  }

  lemma ProgressStep(
    before: map<Slug, Product>, snapshot: map<Slug, nat>, todo: set<Slug>, s: Slug,
    now: map<Slug, Product>, restored: nat)
    requires s in todo && todo <= snapshot.Keys && Progress(before, snapshot, todo, now, restored)
    ensures if s in now && now[s].priceUsd != snapshot[s]
            then Progress(before, snapshot, todo - {s}, now[s := Priced(now[s], snapshot[s])], restored + 1)
            else Progress(before, snapshot, todo - {s}, now, restored)
  {
    OneMore(before, snapshot, todo, s);
  }

  class AdminPromotionsService {
    var products: map<Slug, Product>
    var promos: seq<Promo>

    constructor (products: map<Slug, Product>, promos: seq<Promo>)
      ensures this.products == products && this.promos == promos
    {
      this.products, this.promos := products, promos;
    }

    function Tables(now: int): Market
      reads this
    {
      Market(products, promos, now, map[])
    }

    /** Looks through the running promotions, and each one's listing, for a slug that is also asked for. */
    method FindClash(slugs: seq<Slug>, now: int) returns (clash: Option<nat>)
      ensures clash.Some? <==> Clashes(Tables(now), slugs)
      ensures clash.Some? ==> clash.value < |promos| && Overlaps(promos[clash.value].slugs, slugs)
    {
      for j := 0 to |promos|
        invariant forall k :: 0 <= k < j && promos[k].active && now < promos[k].endsAt ==>
          !Overlaps(promos[k].slugs, slugs)
      {
        var p := promos[j];
        if p.active && now < p.endsAt {
          for i := 0 to |p.slugs|
            invariant forall k :: 0 <= k < i ==> p.slugs[k] !in slugs
          {
            if p.slugs[i] in slugs {
              assert Overlaps(promos[j].slugs, slugs);
              return Some(j);
            }
          }
        }
      }
      return None;
    }

    /** Collects the prices of the listed products that exist, one row at a time. */
    method TakeSnapshot(slugs: seq<Slug>) returns (snapshot: map<Slug, nat>)
      ensures forall s :: s in snapshot <==> s in slugs && s in products
      ensures forall s :: s in snapshot ==> snapshot[s] == products[s].priceUsd
    {
      snapshot := map[];
      for i := 0 to |slugs|
        invariant forall s :: s in snapshot <==> s in slugs[..i] && s in products
        invariant forall s :: s in snapshot ==> snapshot[s] == products[s].priceUsd
      {
        assert slugs[..i + 1] == slugs[..i] + [slugs[i]];
        if slugs[i] in products {
          snapshot := snapshot[slugs[i] := products[slugs[i]].priceUsd];
        }
      }
      assert slugs[..|slugs|] == slugs;
    }

    /** Refuses a bad body or a clash; otherwise adds one active promotion that remembers the current price
        of every listed product and of nothing else. No price changes. */
    method CreatePromotion(d: Draft, now: int) returns (e: Option<Refusal>)
      modifies this`promos
      ensures e == Some(BadBody) <==>
        || Trim(d.name) == "" || (forall i :: 0 <= i < |d.slugs| ==> d.slugs[i] == "")
        || d.discountPct == 0.0 || d.discountPct < -90.0 || d.discountPct > 90.0 || d.startsAt >= d.endsAt
      ensures e == Some(Clash) <==> e != Some(BadBody) && exists j, i ::
        0 <= j < |old(promos)| && old(promos)[j].active && now < old(promos)[j].endsAt
        && 0 <= i < |old(promos)[j].slugs| && old(promos)[j].slugs[i] in Named(d.slugs)
      ensures e.Some? ==> promos == old(promos) && (e == Some(BadBody) || e == Some(Clash))
      ensures e.None? ==>
        && |promos| == |old(promos)| + 1 && promos[..|old(promos)|] == old(promos)
        && var p := promos[|old(promos)|];
        && p.active && p.endsAt == d.endsAt && p.name == Take(Trim(d.name), 80) && p.slugs == Named(d.slugs)
        && (forall s :: s in p.snapshot <==> s in Named(d.slugs) && s in products)
        && (forall s :: s in p.snapshot ==> p.snapshot[s] == products[s].priceUsd)
      ensures Tables(now) == if e.None? then Opened(old(Tables(now)), d) else old(Tables(now))
    {
      if !BodyOk(d) {
        return Some(BadBody);
      }
      var slugs := Named(d.slugs);
      var clash := FindClash(slugs, now);
      if clash.Some? {
        return Some(Clash);
      }
      var snapshot := TakeSnapshot(slugs);
      assert snapshot == Snapshot(products, slugs);
      promos := promos + [Promo(Take(Trim(d.name), 80), slugs, d.endsAt, true, snapshot)];
      return None;
    }

    /** Restores the listed prices one product at a time, in whatever order the snapshot lists them. */
    method RestorePrices(snapshot: map<Slug, nat>) returns (restored: nat)
      modifies this`products
      ensures products == Restored(old(products), snapshot)
      ensures restored == |Moved(old(products), snapshot)|
    {
      var todo: set<Slug>, before := snapshot.Keys, products;
      restored := 0;
      assert snapshot - snapshot.Keys == map[];
      while todo != {}
        invariant todo <= snapshot.Keys && Progress(before, snapshot, todo, products, restored)
        decreases todo
      {
        var s :| s in todo;
        ProgressStep(before, snapshot, todo, s, products, restored);
        if s in products && products[s].priceUsd != snapshot[s] {
          products := products[s := Priced(products[s], snapshot[s])];
          restored := restored + 1;
        }
        todo := todo - {s};
      }
      assert snapshot - todo == snapshot;
    }

    method ClosePromotion(id: nat) returns (r: Result<nat, Refusal>)
      modifies this
      ensures id >= |old(promos)| ==> r == Err(NoSuchPromotion) && Tables(0) == old(Tables(0))
      ensures id < |old(promos)| ==>
        && Tables(0) == Closed(old(Tables(0)), id)
        && r == Ok(if old(promos)[id].active then |Moved(old(products), old(promos)[id].snapshot)| else 0)
    {
      if id >= |promos| {
        return Err(NoSuchPromotion);
      }
      var promo := promos[id];
      if !promo.active {
        return Ok(0);
      }
      var restored := RestorePrices(promo.snapshot);
      promos := promos[id := promo.(active := false)];
      return Ok(restored);
    }
  }

  const MAX_PER_SWEEP := 50

  /** Positions of the active promotions past their end. */
  function Due(promos: seq<Promo>, now: int): (ids: seq<nat>)
    ensures forall i :: 0 <= i < |ids| ==> ids[i] < |promos| && promos[ids[i]].active && promos[ids[i]].endsAt < now
    ensures forall id :: 0 <= id < |promos| && promos[id].active && promos[id].endsAt < now ==> id in ids
  {
    if promos == [] then []
    else
      var n := |promos| - 1;
      Due(promos[..n], now) + if promos[n].active && promos[n].endsAt < now then [n] else []
  }

  function CloseAll(m: Market, ids: seq<nat>): Market {
    if ids == [] then m else Closed(CloseAll(m, ids[..|ids| - 1]), ids[|ids| - 1])
  }

  lemma {:induction false} CloseAllShape(m: Market, ids: seq<nat>)
    ensures |CloseAll(m, ids).promos| == |m.promos|
    ensures forall j :: 0 <= j < |m.promos| ==>
      CloseAll(m, ids).promos[j] == if j in ids then m.promos[j].(active := false) else m.promos[j]
  {
    if ids != [] {
      CloseAllShape(m, ids[..|ids| - 1]);
      assert ids == ids[..|ids| - 1] + [ids[|ids| - 1]];
    }
  }

  /** A sweep with at most fifty promotions due leaves none of them open. */
  lemma SweepLeavesNoneDue(m: Market)
    requires |Due(m.promos, m.now)| <= 50
    ensures Due(CloseAll(m, Take(Due(m.promos, m.now), MAX_PER_SWEEP)).promos, m.now) == []
  {
    var ids := Due(m.promos, m.now);
    var m' := CloseAll(m, ids);
    CloseAllShape(m, ids);
    if Due(m'.promos, m.now) != [] {
      var id := Due(m'.promos, m.now)[0];
      assert m'.promos[id].active;
    }
  }

  class PromotionExpireService {
    const admin: AdminPromotionsService

    constructor (admin: AdminPromotionsService)
      ensures this.admin == admin
    {
      this.admin := admin;
    }

    method ExpireDue(now: int) returns (closed: nat)
      modifies admin
      ensures var ids := Take(Due(old(admin.promos), now), MAX_PER_SWEEP);
        closed == |ids| && admin.Tables(0) == CloseAll(old(admin.Tables(0)), ids)
    {
      var due := Take(Due(admin.promos, now), MAX_PER_SWEEP);
      closed := 0;
      for i := 0 to |due|
        invariant closed == i && |admin.promos| == |old(admin.promos)|
        invariant admin.Tables(0) == CloseAll(old(admin.Tables(0)), due[..i])
      {
        assert due[..i + 1][..i] == due[..i];
        var r := admin.ClosePromotion(due[i]);
        if r.Ok? {
          closed := closed + 1;
        }
      }
      assert due[..|due|] == due;
    }
  }
}
