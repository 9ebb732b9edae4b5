/** Pricing a cart on the server, and the order row a checkout writes. */
module Checkout {
  import opened Prelude
  import opened Pricing
  import opened Shop

  datatype Error =
    | MissingField | TermsNotAgreed | KeyConflict | BadMethod | MethodDisabled | EmptyCart
    | NotOnShow(slug: Slug) | ShortStock(slug: Slug) | BadTotal
    | IntentForbidden | IntentInvalid | IntentTaken | SoldOut | CodesExhausted
    | NotFound | NotPending | NotOwner | TooManyLinks | BadStatus | BadTransition | RefMissing | LostRace

  datatype ItemInput = ItemInput(slug: string, priceUsd: real, strap: Option<string>, qty: Option<real>)

  datatype Quote = Quote(lines: seq<Line>, totalUsd: nat, totalVnd: nat, hasCustom: bool)

  const MAX_ITEMS := 50
  const DEFAULT_STRAP := "Tiêu chuẩn Atelier"

  function ClampQty(qty: Option<real>): nat {
    var n := match qty case None => 1 case Some(x) => x.Floor;
    if n < 1 then 1 else if n > 99 then 99 else n
  }

  /** One cart item against the product rows read for this cart. */
  function PriceItem(products: map<Slug, Product>, item: ItemInput): Result<Line, Error> {
    var qty := ClampQty(item.qty);
    var strap := Some(match item.strap case None => DEFAULT_STRAP case Some(name) => name);
    if item.slug != "" && item.slug in products then
      var row := products[item.slug];
      if !row.inBoutique then Err(NotOnShow(item.slug))
      else if row.stock < qty then Err(ShortStock(item.slug))
      else
        var p := PriceOf(row.priceUsd as real, strap);
        Ok(Line(Some(item.slug), p.priceUsd, p.priceVnd, qty))
    else
      var p := PriceOf(AtLeastZero(item.priceUsd.Floor) as real, strap);
      Ok(Line(None, p.priceUsd, p.priceVnd, qty))
  }

  /** Only a non-empty slug that no product has marks the cart as custom work. */
  predicate IsCustom(products: map<Slug, Product>, item: ItemInput) {
    item.slug != "" && item.slug !in products
  }

  function Amount(price: nat, qty: nat): nat {
    price * qty
  }

  function PriceItems(products: map<Slug, Product>, items: seq<ItemInput>): Result<Quote, Error> {
    if items == [] then Ok(Quote([], 0, 0, false))
    else
      match PriceItems(products, items[..|items| - 1])
      case Err(e) => Err(e)
      case Ok(q) =>
        var item := items[|items| - 1];
        match PriceItem(products, item)
        case Err(e) => Err(e)
        case Ok(l) =>
          Ok(Quote(q.lines + [l], q.totalUsd + Amount(l.priceUsd, l.qty), q.totalVnd + Amount(l.priceVnd, l.qty),
                   q.hasCustom || IsCustom(products, item)))
  }

  function PriceCart(products: map<Slug, Product>, items: seq<ItemInput>): Result<Quote, Error> {
    match PriceItems(products, items)
    case Err(e) => Err(e)
    case Ok(q) => if q.totalUsd == 0 then Err(BadTotal) else Ok(q)
  }

  /** The cart loop, with its running totals, computes PriceItems. */
  method PriceLines(products: map<Slug, Product>, items: seq<ItemInput>) returns (r: Result<Quote, Error>)
    ensures r == PriceItems(products, items)
  {
    var lines: seq<Line> := [];
    var totalUsd: nat, totalVnd: nat, hasCustom := 0, 0, false;
    for i := 0 to |items|
      invariant PriceItems(products, items[..i]) == Ok(Quote(lines, totalUsd, totalVnd, hasCustom))
    {
      assert items[..i + 1][..i] == items[..i];
      if IsCustom(products, items[i]) {
        hasCustom := true;
      }
      match PriceItem(products, items[i]) {
        case Err(e) =>
          ErrorsPersist(products, items, i + 1);
          return Err(e);
        case Ok(l) =>
          totalUsd := totalUsd + Amount(l.priceUsd, l.qty);
          totalVnd := totalVnd + Amount(l.priceVnd, l.qty);
          lines := lines + [l];
      }
    }
    assert items[..|items|] == items;
    return Ok(Quote(lines, totalUsd, totalVnd, hasCustom));
  }

  lemma {:induction false} ErrorsPersist(products: map<Slug, Product>, items: seq<ItemInput>, n: nat)
    requires n <= |items| && PriceItems(products, items[..n]).Err?
    ensures PriceItems(products, items) == PriceItems(products, items[..n])
  {
    if n == |items| {
      assert items[..n] == items;
    } else {
      assert items[..|items| - 1][..n] == items[..n];
      ErrorsPersist(products, items[..|items| - 1], n);
    }
  }

  // ---------- What every quote satisfies ----------

  ghost predicate LinesKnown(lines: seq<Line>, products: map<Slug, Product>) {
    forall i :: 0 <= i < |lines| && lines[i].slug.Some? ==> lines[i].slug.value in products
  }

  function SumUsd(lines: seq<Line>): nat {
    if lines == [] then 0
    else SumUsd(lines[..|lines| - 1]) + lines[|lines| - 1].priceUsd * lines[|lines| - 1].qty
  }

  /** How a quoted line relates to the cart item it prices. */
  ghost predicate Prices(products: map<Slug, Product>, item: ItemInput, l: Line) {
    && 1 <= l.qty <= 99
    && l.priceVnd == USD_TO_VND * l.priceUsd
    && match l.slug
       case None => item.slug == "" || item.slug !in products
       case Some(s) =>
         s == item.slug && s != "" && s in products && products[s].inBoutique && products[s].stock >= l.qty
  }

  /** Every quoted line prices its own cart item, in order, and a product-backed one was on show with
      enough stock. */
  lemma {:induction false} QuoteLines(products: map<Slug, Product>, items: seq<ItemInput>)
    requires PriceItems(products, items).Ok?
    ensures var q := PriceItems(products, items).value;
      |q.lines| == |items| && forall i :: 0 <= i < |items| ==> Prices(products, items[i], q.lines[i])
  {
    if items != [] {
      var n := |items| - 1;
      QuoteLines(products, items[..n]);
      var q, q0 := PriceItems(products, items).value, PriceItems(products, items[..n]).value;
      assert Prices(products, items[n], q.lines[n]);
      forall i | 0 <= i < n ensures Prices(products, items[i], q.lines[i]) {
        assert Prices(products, items[..n][i], q0.lines[i]);
      }
    }
  }

  /** The quantity charged for an asked one: whole, at least 1, at most 99, and 1 when none was given. */
  ghost predicate ChargedQuantity(asked: Option<real>, n: nat) {
    match asked
    case None => n == 1
    case Some(x) => if x < 1.0 then n == 1 else if x >= 99.0 then n == 99 else n as real <= x < n as real + 1.0
  }

  /** The client's price rounded down, and nothing for a negative one. */
  ghost predicate RoundedDown(price: real, usd: nat) {
    if price < 0.0 then usd == 0 else usd as real <= price < usd as real + 1.0
  }

  /** What a line costs: a listed product its own price, whatever the client sent; an unlisted item the
      client's price rounded down; and in both cases the strap's surcharge on top. */
  ghost predicate Costs(products: map<Slug, Product>, item: ItemInput, l: Line) {
    && ChargedQuantity(item.qty, l.qty)
    && l.priceVnd == 25200 * l.priceUsd
    && l.priceUsd >= Surcharge(item.strap)
    && if item.slug != "" && item.slug in products
       then l.slug == Some(item.slug) && l.priceUsd == products[item.slug].priceUsd + Surcharge(item.strap)
       else l.slug == None && RoundedDown(item.priceUsd, l.priceUsd - Surcharge(item.strap))
  }

  lemma StandardStrap()
    ensures Surcharge(Some(DEFAULT_STRAP)) == 0
  {
    assert DEFAULT_STRAP[0] == 'T';
  }

  lemma {:induction false} LineCosts(products: map<Slug, Product>, items: seq<ItemInput>, i: nat)
    requires PriceItems(products, items).Ok? && i < |items|
    ensures i < |PriceItems(products, items).value.lines|
    ensures Costs(products, items[i], PriceItems(products, items).value.lines[i])
  {
    var n := |items| - 1;
    QuoteLines(products, items[..n]);
    if i < n {
      LineCosts(products, items[..n], i);
    } else {
      var strap := Some(match items[n].strap case None => DEFAULT_STRAP case Some(name) => name);
      StrapDeltaIs(strap);
      StandardStrap();
    }
  }

  /** The client's price of a listed product plays no part: carts that differ only there get one quote. */
  lemma {:induction false} ListedPricesIgnored(products: map<Slug, Product>, a: seq<ItemInput>, b: seq<ItemInput>)
    requires |a| == |b|
    requires forall i :: 0 <= i < |a| ==>
      b[i] == if a[i].slug != "" && a[i].slug in products then a[i].(priceUsd := b[i].priceUsd) else a[i]
    ensures PriceItems(products, a) == PriceItems(products, b)
  {
    if a != [] {
      var n := |a| - 1;
      ListedPricesIgnored(products, a[..n], b[..n]);
      assert PriceItem(products, a[n]) == PriceItem(products, b[n]);
    }
  }

  /** The item names a product that is not on show, or has fewer in stock than would be charged. */
  ghost predicate Blocked(products: map<Slug, Product>, item: ItemInput) {
    && item.slug != "" && item.slug in products
    && (|| !products[item.slug].inBoutique
        || exists n: nat :: ChargedQuantity(item.qty, n) && products[item.slug].stock < n)
  }

  lemma BlockedIff(products: map<Slug, Product>, item: ItemInput)
    ensures Blocked(products, item) <==> PriceItem(products, item).Err?
    ensures Blocked(products, item) ==>
      PriceItem(products, item)
      == Err(if products[item.slug].inBoutique then ShortStock(item.slug) else NotOnShow(item.slug))
  {
    assert ChargedQuantity(item.qty, ClampQty(item.qty));
    forall n: nat | ChargedQuantity(item.qty, n) ensures n == ClampQty(item.qty) {
    }
  }

  /** A cart is refused exactly when some item is blocked, and the first blocked item gives the reason. */
  lemma {:induction false} CartRefusedIff(products: map<Slug, Product>, items: seq<ItemInput>) returns (first: nat)
    ensures PriceItems(products, items).Err? <==> exists i :: 0 <= i < |items| && Blocked(products, items[i])
    ensures PriceItems(products, items).Err? ==>
      && first < |items| && Blocked(products, items[first])
      && (forall i :: 0 <= i < first ==> !Blocked(products, items[i]))
      && PriceItems(products, items) == Err(
        if products[items[first].slug].inBoutique then ShortStock(items[first].slug) else NotOnShow(items[first].slug))
  {
    first := 0;
    if items != [] {
      var n := |items| - 1;
      first := CartRefusedIff(products, items[..n]);
      assert forall i :: 0 <= i < n ==> items[..n][i] == items[i];
      BlockedIff(products, items[n]);
      if PriceItems(products, items[..n]).Ok? {
        forall i | 0 <= i < n ensures !Blocked(products, items[i]) {
          assert !Blocked(products, items[..n][i]);
        }
        first := n;
      } else {
        assert Blocked(products, items[first]);
      }
    }
  }

  /** Money over any cart: the USD total is the sum of its lines and the VND total is exactly 25200
      times it. */
  lemma {:induction false} QuoteTotals(products: map<Slug, Product>, items: seq<ItemInput>)
    requires PriceItems(products, items).Ok?
    ensures var q := PriceItems(products, items).value;
      q.totalVnd == USD_TO_VND * q.totalUsd && q.totalUsd == SumUsd(q.lines)
  {
    if items != [] {
      var n := |items| - 1;
      QuoteTotals(products, items[..n]);
      var q, q0 := PriceItems(products, items).value, PriceItems(products, items[..n]).value;
      var l := PriceItem(products, items[n]).value;
      assert q.lines[..|q.lines| - 1] == q0.lines;
      AddLine(q0.totalUsd, l.priceUsd, l.qty);
    }
  }

  lemma AddLine(total: nat, price: nat, qty: nat)
    ensures USD_TO_VND * total + Amount(price * USD_TO_VND, qty) == USD_TO_VND * (total + Amount(price, qty))
  {
    assert (price * USD_TO_VND) * qty == USD_TO_VND * (price * qty);
  }

  lemma {:induction false} CustomIff(products: map<Slug, Product>, items: seq<ItemInput>)
    requires PriceItems(products, items).Ok?
    ensures PriceItems(products, items).value.hasCustom
      <==> exists i :: 0 <= i < |items| && IsCustom(products, items[i])
  {
    if items != [] {
      var n := |items| - 1;
      CustomIff(products, items[..n]);
      assert forall i :: 0 <= i < n ==> items[i] == items[..n][i];
      if exists i :: 0 <= i < n && IsCustom(products, items[..n][i]) {
        var i :| 0 <= i < n && IsCustom(products, items[..n][i]);
        assert IsCustom(products, items[i]);
      }
    }
  }

  // ---------- The order row ----------

  datatype Draft = Draft(userId: Option<UserId>, contact: string, paidBy: Method, quote: Quote)

  /** Simulated methods collect at once, unless the cart holds custom work awaiting review. */
  predicate Simulated(d: Draft) {
    d.paidBy != Vnpay && !d.quote.hasCustom
  }

  predicate MethodAccepted(m: Method) {
    m != Manual
  }

  /** Nothing in the cart is awaiting review: every line is backed by a product row. */
  predicate FullyListed(q: Quote) {
    forall i :: 0 <= i < |q.lines| ==> q.lines[i].slug.Some?
  }

  /** Custom work is meant to wait for review, but `hasCustom` only sees non-empty unknown slugs. An
      order settles at once while still holding an unreviewed line exactly when the method is a
      simulated one, every unlisted item has an empty slug, and there is such an item. */
  lemma UnreviewedLineCollectedIff(products: map<Slug, Product>, items: seq<ItemInput>, d: Draft)
    requires PriceItems(products, items) == Ok(d.quote)
    ensures (Simulated(d) && !FullyListed(d.quote)) <==>
      && d.paidBy != Vnpay
      && (forall i :: 0 <= i < |items| ==> items[i].slug == "" || items[i].slug in products)
      && (exists i :: 0 <= i < |items| && items[i].slug == "")
  {
    QuoteLines(products, items);
    CustomIff(products, items);
    if Simulated(d) && !FullyListed(d.quote) {
      var i :| 0 <= i < |d.quote.lines| && d.quote.lines[i].slug.None?;
      assert !IsCustom(products, items[i]);
      assert items[i].slug == "";
      forall j | 0 <= j < |items| ensures items[j].slug == "" || items[j].slug in products {
        assert !IsCustom(products, items[j]);
      }
    }
  }

  /** The order a checkout writes. It is confirmed and collected at once when the method is simulated and
      every named product exists, and otherwise waits with nothing paid; a deposit collects the fifth
      nearest in dollars and exactly in dong, any other simulated method everything. */
  lemma OrderPlaced(products: map<Slug, Product>, items: seq<ItemInput>, d: Draft, code: string, now: int)
    requires PriceItems(products, items) == Ok(d.quote)
    ensures var o := NewOrder(d, code, now);
      && o.code == code && o.userId == d.userId && o.contact == d.contact && o.createdAt == now
      && o.lines == d.quote.lines && o.totalUsd == d.quote.totalUsd && o.totalVnd == d.quote.totalVnd
      && o.events == [Event(None, o.status, None, NoNote)]
      && (o.status == Confirmed || o.status == Pending)
      && (o.status == Confirmed <==>
           d.paidBy != Vnpay && forall i :: 0 <= i < |items| ==> items[i].slug == "" || items[i].slug in products)
      && (o.status == Pending ==>
           o.paidUsd == 0 && o.paidVnd == 0 && o.payments == [Payment(d.paidBy, 0, Unsettled, None, None)])
      && (o.status == Confirmed ==>
           o.payments == [Payment(d.paidBy, o.paidUsd, Success, Some("SIM-" + code), None)])
      && (o.status == Confirmed && d.paidBy != Deposit ==> o.paidUsd == o.totalUsd && o.paidVnd == o.totalVnd)
      && (o.status == Confirmed && d.paidBy == Deposit ==>
           -5 < 2 * (o.totalUsd - 5 * o.paidUsd) <= 5 && o.paidVnd == 5040 * o.totalUsd)
  {
    CustomIff(products, items);
    QuoteTotals(products, items);
    DepositSplits(d.quote.totalUsd);
    RoundFifthIsNearest(d.quote.totalUsd);
  }

  function CollectedFor(d: Draft): Collected {
    CollectedNow(Simulated(d), d.paidBy == Deposit, d.quote.totalUsd, d.quote.totalVnd)
  }

  function NewOrder(d: Draft, code: string, now: int): Order {
    var simulated := Simulated(d);
    var status := if simulated then Confirmed else Pending;
    var paid := CollectedFor(d);
    var payment := Payment(
      d.paidBy, paid.usd, if simulated then Success else Unsettled,
      if simulated then Some("SIM-" + code) else None, None);
    Order(code, d.userId, d.contact, now, status, d.quote.totalUsd, d.quote.totalVnd, paid.usd, paid.vnd,
          d.quote.lines, [payment], [Event(None, status, None, NoNote)])
  }
}
