/** A whole create request from validation to reply, and what an Idempotency-Key guarantees when
    requests do not overlap. */
module CreateOrder {
  import opened Prelude
  import opened Text
  import opened Pricing
  import opened Shop
  import opened Checkout
  import opened Transactions
  import opened OrderServices

  /** `intent` is the position of the named payment intent; a method text the code does not know is None. */
  datatype Request = Request(
    userId: Option<UserId>, customerName: string, contact: string, address: string, agreedTerms: bool,
    key: string, paidBy: Option<Method>, items: seq<ItemInput>, intent: Option<nat>, viaAgent: bool)

  /** What the request finds around it: the clock, the demo switch, the random draws and the digest. */
  datatype Env = Env(now: int, simulatedEnabled: bool, codes: seq<string>, txnRef: string, digest: string -> string)

  datatype Outcome = Outcome(db: Db, reply: Result<nat, Error>)

  predicate KeyChar(c: char) {
    'A' <= c <= 'Z' || 'a' <= c <= 'z' || '0' <= c <= '9' || c == '_' || c == '-'
  }

  function NormalizeKey(raw: string): Option<string> {
    var k := Trim(raw);
    if 8 <= |k| <= 64 && forall i :: 0 <= i < |k| ==> KeyChar(k[i]) then Some(k) else None
  }

  function ContactHash(contact: string, digest: string -> string): string {
    digest(Lower(Trim(contact)))
  }

  predicate OwnsKey(rec: KeyRecord, req: Request, digest: string -> string) {
    match rec.userId
    case Some(u) => req.userId == Some(u)
    case None => req.userId.None? && rec.contactHash == Some(ContactHash(req.contact, digest))
  }

  /** The order an earlier request recorded under this key, if there is one. */
  function ReplayKey(db: Db, key: Option<string>, req: Request, env: Env): Result<Option<nat>, Error> {
    if key.None? || key.value !in db.keys then Ok(None)
    else
      var rec := db.keys[key.value];
      if !OwnsKey(rec, req, env.digest) then Err(KeyConflict)
      else if rec.orderId < |db.orders| then Ok(Some(rec.orderId))
      else Ok(None)
  }

  function FieldsRefused(req: Request): Option<Error> {
    if Trim(req.customerName) == "" || Trim(req.contact) == "" || Trim(req.address) == "" then Some(MissingField)
    else if !req.agreedTerms then Some(TermsNotAgreed)
    else None
  }

  function MethodRefused(req: Request, env: Env): Option<Error> {
    match req.paidBy
    case None => Some(BadMethod)
    case Some(m) =>
      if !MethodAccepted(m) then Some(BadMethod)
      else if m != Vnpay && !env.simulatedEnabled then Some(MethodDisabled)
      else None
  }

  function Basket(req: Request): seq<ItemInput> {
    Text.Take(req.items, MAX_ITEMS)
  }

  function StoredContact(req: Request): string {
    Text.Take(Trim(req.contact), 200)
  }

  /** The checked and priced order, or why there is none. */
  function Prepare(db: Db, req: Request, env: Env): Result<Draft, Error> {
    match MethodRefused(req, env)
    case Some(e) => Err(e)
    case None =>
      if Basket(req) == [] then Err(EmptyCart)
      else
        match PriceCart(db.products, Basket(req))
        case Err(e) => Err(e)
        case Ok(q) => Ok(Draft(req.userId, StoredContact(req), req.paidBy.value, q))
  }

  /** Locks the named intent, when there is one. */
  function ConsumeIntent(db: Db, req: Request, d: Draft, env: Env): Result<Db, Error> {
    match req.intent
    case None => Ok(db)
    case Some(j) =>
      if !req.viaAgent || req.userId.None? then Err(IntentForbidden)
      else if !IntentFits(db, j, d, env.now) then Err(IntentInvalid)
      else
        match LockIntent(db, j)
        case None => Err(IntentTaken)
        case Some(db') => Ok(db')
  }

  // ---------- Content deduplication ----------

  const DEDUP_WINDOW_MS := 180000

  /** Some item of the cart names this product. */
  predicate InCart(cart: seq<ItemInput>, slug: Slug) {
    exists i :: 0 <= i < |cart| && cart[i].slug != "" && cart[i].slug == slug
  }

  predicate LooksAlike(o: Order, req: Request, d: Draft, now: int) {
    && o.userId == req.userId
    && (o.status == Pending || o.status == Confirmed)
    && now - DEDUP_WINDOW_MS <= o.createdAt
    && o.totalUsd == d.quote.totalUsd
    && (exists k :: 0 <= k < |o.payments| && o.payments[k].paidBy == d.paidBy)
    && (forall k :: 0 <= k < |o.lines| ==>
          o.lines[k].slug.Some? && InCart(Basket(req), o.lines[k].slug.value))
  }

  /** The newest look-alike order. */
  function Newest(orders: seq<Order>, req: Request, d: Draft, now: int): (r: Option<nat>)
    ensures r.Some? ==> r.value < |orders| && LooksAlike(orders[r.value], req, d, now)
    ensures forall i :: (if r.Some? then r.value else -1) < i < |orders| ==> !LooksAlike(orders[i], req, d, now)
  {
    if orders == [] then None
    else
      var n := |orders| - 1;
      if LooksAlike(orders[n], req, d, now) then Some(n) else Newest(orders[..n], req, d, now)
  }

  function Listed(lines: seq<Line>): nat {
    if lines == [] then 0 else Listed(lines[1..]) + if lines[0].slug.Some? then 1 else 0
  }

  function Duplicate(db: Db, req: Request, d: Draft, now: int): Option<nat> {
    if req.userId.None? then None
    else
      match Newest(db.orders, req, d, now)
      case None => None
      case Some(n) => if |db.orders[n].lines| == Listed(d.quote.lines) then Some(n) else None
  }

  /** What a deduplicated answer promises about the order it names. */
  lemma DuplicateMeans(db: Db, req: Request, d: Draft, now: int, n: nat)
    requires Duplicate(db, req, d, now) == Some(n)
    ensures n < |db.orders|
    ensures var o := db.orders[n];
      && o.userId.Some? && o.userId == req.userId && (o.status == Pending || o.status == Confirmed)
      && now - 180000 <= o.createdAt && (exists k :: 0 <= k < |o.payments| && o.payments[k].paidBy == d.paidBy)
      && o.totalUsd == d.quote.totalUsd && |o.lines| == Listed(d.quote.lines)
    ensures forall l :: l in db.orders[n].lines ==> l.slug.Some?
    ensures forall l :: l in db.orders[n].lines ==> exists item :: item in Basket(req) && Some(item.slug) == l.slug
  {
    var o, cart := db.orders[n], Basket(req);
    assert LooksAlike(o, req, d, now);
    forall l | l in o.lines
      ensures l.slug.Some? && exists item :: item in cart && Some(item.slug) == l.slug
    {
      var k :| 0 <= k < |o.lines| && o.lines[k] == l;
      assert InCart(cart, o.lines[k].slug.value);
      var i :| 0 <= i < |cart| && cart[i].slug != "" && cart[i].slug == o.lines[k].slug.value;
      assert cart[i] in cart;
    }
  }

  /** For a cart of one product line, the order it is taken for has the cart's own line exactly when the
      unit price is still what it was: the equal totals then leave only one quantity. */
  lemma DuplicateOneLineIff(
    db: Db, req: Request, d: Draft, now: int, n: nat, products: map<Slug, Product>, items: seq<ItemInput>)
    requires Duplicate(db, req, d, now) == Some(n) && n < |db.orders|
    requires |Basket(req)| == 1 && PriceCart(db.products, Basket(req)) == Ok(d.quote)
    requires |d.quote.lines| == 1 && d.quote.lines[0].slug.Some?
    requires PriceItems(products, items).Ok?
    requires db.orders[n].lines == PriceItems(products, items).value.lines
    requires db.orders[n].totalUsd == PriceItems(products, items).value.totalUsd
    ensures var o := db.orders[n];
      |o.lines| == 1 && (o.lines == d.quote.lines <==> o.lines[0].priceUsd == d.quote.lines[0].priceUsd)
  {
    var o, q := db.orders[n], d.quote;
    DuplicateMeans(db, req, d, now, n);
    QuoteLines(products, items);
    QuoteTotals(products, items);
    QuoteLines(db.products, Basket(req));
    QuoteTotals(db.products, Basket(req));
    assert |o.lines| == 1;
    assert Prices(db.products, Basket(req)[0], q.lines[0]) && Prices(products, items[0], o.lines[0]);
    assert o.lines[..0] == [] && q.lines[..0] == [];
    assert SumUsd(o.lines) == Amount(o.lines[0].priceUsd, o.lines[0].qty);
    assert SumUsd(q.lines) == Amount(q.lines[0].priceUsd, q.lines[0].qty);
    if o.lines[0].priceUsd == q.lines[0].priceUsd {
      SameQuantity(q.lines[0].priceUsd, o.lines[0].qty, q.lines[0].qty);
    }
  }

  lemma SameQuantity(price: nat, m: nat, n: nat)
    requires 0 < price * n && price * m == price * n
    ensures m == n
  {
    assert price * (m - n) == 0;
  }

  function Slugs(lines: seq<Line>): set<Slug> {
    set i | 0 <= i < |lines| && lines[i].slug.Some? :: lines[i].slug.value
  }

  /** No product appears in two lines. */
  ghost predicate NoRepeats(lines: seq<Line>) {
    forall i, j :: 0 <= i < j < |lines| && lines[i].slug.Some? ==> lines[i].slug != lines[j].slug
  }

  lemma {:induction false} SlugsCounted(lines: seq<Line>)
    requires NoRepeats(lines)
    ensures |Slugs(lines)| == Listed(lines)
  {
    if lines != [] {
      var rest := lines[1..];
      SlugsCounted(rest);
      forall s ensures s in Slugs(lines) <==> s in Slugs(rest) || lines[0].slug == Some(s) {
        if i :| 0 <= i < |rest| && rest[i].slug == Some(s) {
          assert lines[i + 1].slug == Some(s);
        }
        if i :| 1 <= i < |lines| && lines[i].slug == Some(s) {
          assert rest[i - 1].slug == Some(s);
        }
      }
      if lines[0].slug.Some? {
        assert Slugs(lines) == Slugs(rest) + {lines[0].slug.value};
      } else {
        assert Slugs(lines) == Slugs(rest);
      }
    }
  }

  lemma {:induction false} SubsetOfSameSize(a: set<Slug>, b: set<Slug>)
    requires a <= b && |a| == |b|
    ensures a == b
  {
    if a != {} {
      var x :| x in a;
      SubsetOfSameSize(a - {x}, b - {x});
    }
  }

  /** When neither side lists a product twice, the order holds exactly the cart's products, though not
      necessarily in the cart's quantities. */
  lemma DuplicateSameProducts(db: Db, req: Request, d: Draft, now: int, n: nat)
    requires Duplicate(db, req, d, now) == Some(n) && n < |db.orders|
    requires PriceItems(db.products, Basket(req)) == Ok(d.quote) && LinesKnown(db.orders[n].lines, db.products)
    requires NoRepeats(db.orders[n].lines) && NoRepeats(d.quote.lines)
    ensures Slugs(db.orders[n].lines) == Slugs(d.quote.lines)
  {
    var o, q := db.orders[n], d.quote;
    assert LooksAlike(o, req, d, now);
    QuoteLines(db.products, Basket(req));
    forall s | s in Slugs(o.lines) ensures s in Slugs(q.lines) {
      var k :| 0 <= k < |o.lines| && o.lines[k].slug == Some(s);
      assert InCart(Basket(req), s);
      var i :| 0 <= i < |Basket(req)| && Basket(req)[i].slug != "" && Basket(req)[i].slug == s;
      assert Prices(db.products, Basket(req)[i], q.lines[i]);
      assert q.lines[i].slug == Some(s);
    }
    SlugsCounted(o.lines);
    SlugsCounted(q.lines);
    AllListed(o.lines);
    SubsetOfSameSize(Slugs(o.lines), Slugs(q.lines));
  }

  lemma {:induction false} AllListed(lines: seq<Line>)
    requires forall k :: 0 <= k < |lines| ==> lines[k].slug.Some?
    ensures Listed(lines) == |lines|
  {
    if lines != [] {
      AllListed(lines[1..]);
    }
  }

  /** With repeated products another cart is taken for the order: twice three of one watch at 100, against
      three of it and one of another at 300. */
  lemma DuplicateOfAnotherCart()
    ensures var strap := Some(STRAP_OPTIONS[0].name);
      var three, one := ItemInput("a", 0.0, strap, Some(3.0)), ItemInput("b", 0.0, strap, Some(1.0));
      var products := map["a" := Product(100, 2520000, 9, true), "b" := Product(300, 7560000, 9, true)];
      && PriceItems(products, [three, three]).Ok? && PriceItems(products, [three, one]).Ok?
      && var placed := Draft(Some("ana"), "", Vnpay, PriceItems(products, [three, three]).value);
      var d := Draft(Some("ana"), "", Vnpay, PriceItems(products, [three, one]).value);
      var db := Db(products, [NewOrder(placed, "AC-1", 0)], [], map[]);
      var req := Request(Some("ana"), "Ana", "", "Hanoi", true, "", Some(Vnpay), [three, one], None, false);
      && Duplicate(db, req, d, 1) == Some(0)
      && Units(db.orders[0].lines, "b") == 0 && Units(d.quote.lines, "b") == 1
  {
    var strap := Some(STRAP_OPTIONS[0].name);
    var three, one := ItemInput("a", 0.0, strap, Some(3.0)), ItemInput("b", 0.0, strap, Some(1.0));
    var products := map["a" := Product(100, 2520000, 9, true), "b" := Product(300, 7560000, 9, true)];
    var a3, b1 := Line(Some("a"), 100, 2520000, 3), Line(Some("b"), 300, 7560000, 1);
    assert PriceItem(products, three) == Ok(a3) && PriceItem(products, one) == Ok(b1);
    PriceTwo(products, three, three, a3, a3);
    PriceTwo(products, three, one, a3, b1);
    TwoLines(a3, a3);
    TwoLines(a3, b1);
    var req := Request(Some("ana"), "Ana", "", "Hanoi", true, "", Some(Vnpay), [three, one], None, false);
    var d := Draft(Some("ana"), "", Vnpay, PriceItems(products, [three, one]).value);
    var o := NewOrder(Draft(Some("ana"), "", Vnpay, PriceItems(products, [three, three]).value), "AC-1", 0);
    assert Basket(req)[0].slug == "a" && InCart(Basket(req), "a") && o.payments[0].paidBy == Vnpay;
    assert LooksAlike(o, req, d, 1);
  }

  lemma PriceTwo(products: map<Slug, Product>, x: ItemInput, y: ItemInput, l: Line, m: Line)
    requires PriceItem(products, x) == Ok(l) && PriceItem(products, y) == Ok(m)
    ensures PriceItems(products, [x, y]).Ok?
    ensures var q := PriceItems(products, [x, y]).value;
      q.lines == [l, m] && q.totalUsd == Amount(l.priceUsd, l.qty) + Amount(m.priceUsd, m.qty)
  {
    assert [x, y][..1] == [x] && [x][..0] == [];
    assert PriceItems(products, [x]).Ok? && PriceItems(products, [x]).value.lines == [l];
  }

  lemma TwoLines(l: Line, m: Line)
    ensures Listed([l, m]) == (if l.slug.Some? then 1 else 0) + (if m.slug.Some? then 1 else 0)
    ensures Units([l, m], "b")
      == (if l.slug == Some("b") then l.qty else 0) + (if m.slug == Some("b") then m.qty else 0)
  {
    assert [l, m][1..] == [m] && [m][1..] == [];
    assert Listed([m]) == if m.slug.Some? then 1 else 0;
    assert Units([m], "b") == if m.slug == Some("b") then m.qty else 0;
  }

  // ---------- After the order exists ----------

  /** A key is kept for its owner: the user, or for a guest the digest of the contact. */
  function KeyFor(req: Request, env: Env, order: nat): KeyRecord {
    var hash := if req.userId.Some? then None else Some(ContactHash(req.contact, env.digest));
    KeyRecord(req.userId, hash, order, env.now)
  }

  function RecordKey(db: Db, key: Option<string>, req: Request, env: Env, order: nat): Db {
    if key.None? || key.value in db.keys then db
    else
      db.(keys := db.keys[key.value := KeyFor(req, env, order)])
  }

  function AttachIntent(db: Db, req: Request, env: Env, order: nat): Db {
    match req.intent
    case None => db
    case Some(j) =>
      var used := UseIntent(db, j, order);
      if order < |used.orders| && MayPay(used.orders[order], Claimant(req.userId, None)) then
        InsertLink(used, order, used.orders[order], env.txnRef)
      else used
  }

  function Create(db: Db, req: Request, env: Env): Outcome {
    match FieldsRefused(req)
    case Some(e) => Outcome(db, Err(e))
    case None =>
      var key := NormalizeKey(req.key);
      match ReplayKey(db, key, req, env)
      case Err(e) => Outcome(db, Err(e))
      case Ok(Some(n)) => Outcome(db, Ok(n))
      case Ok(None) =>
        match Prepare(db, req, env)
        case Err(e) => Outcome(db, Err(e))
        case Ok(d) =>
          match ConsumeIntent(db, req, d, env)
          case Err(e) => Outcome(db, Err(e))
          case Ok(locked) =>
            match Duplicate(locked, req, d, env.now)
            case Some(n) => Outcome(locked, Ok(n))
            case None =>
              match TryCodes(locked, d, env.codes, env.now)
              case Err(e) => Outcome(locked, Err(e))
              case Ok(placed) =>
                var n := |locked.orders|;
                Outcome(AttachIntent(RecordKey(placed, key, req, env, n), req, env, n), Ok(n))
  }

  /** The request handler, changing the tables statement by statement. */
  method HandleCreate(prisma: Database, service: OrdersService, req: Request, env: Env)
    returns (reply: Result<nat, Error>)
    requires service.prisma == prisma && |env.codes| == 6
    modifies prisma
    ensures Outcome(prisma.State(), reply) == Create(old(prisma.State()), req, env)
  {
    var refused := FieldsRefused(req);
    if refused.Some? {
      return Err(refused.value);
    }
    var key := NormalizeKey(req.key);
    var replay := ReplayKey(prisma.State(), key, req, env);
    match replay {
      case Err(e) => return Err(e);
      case Ok(Some(n)) => return Ok(n);
      case Ok(None) =>
    }
    var prepared := Prepare(prisma.State(), req, env);
    if prepared.Err? {
      return Err(prepared.error);
    }
    var d := prepared.value;
    if req.intent.Some? {
      var j := req.intent.value;
      if !req.viaAgent || req.userId.None? {
        return Err(IntentForbidden);
      }
      if !IntentFits(prisma.State(), j, d, env.now) {
        return Err(IntentInvalid);
      }
      prisma.intents := prisma.intents[j := prisma.intents[j].(status := Locked)];
    }
    var duplicate := Duplicate(prisma.State(), req, d, env.now);
    if duplicate.Some? {
      return Ok(duplicate.value);
    }
    var n := |prisma.orders|;
    var placed := service.Place(d, env.codes, env.now);
    if placed.Err? {
      return Err(placed.error);
    }
    if key.Some? && key.value !in prisma.keys {
      var hash := if req.userId.Some? then None else Some(ContactHash(req.contact, env.digest));
      prisma.keys := prisma.keys[key.value := KeyRecord(req.userId, hash, n, env.now)];
    }
    if req.intent.Some? {
      var j := req.intent.value;
      if j < |prisma.intents| {
        prisma.intents := prisma.intents[j := prisma.intents[j].(status := Used, orderId := Some(n))];
      }
      if n < |prisma.orders| && MayPay(prisma.orders[n], Claimant(req.userId, None)) {
        prisma.orders := InsertLink(prisma.State(), n, prisma.orders[n], env.txnRef).orders;
      }
    }
    return Ok(n);
  }

  // ---------- Which requests are refused ----------

  /** The key a request carries: its text, trimmed, when that is 8 to 64 letters, digits, dashes and
      underscores; any other text is as good as none. */
  ghost predicate Carries(raw: string, key: string) {
    && key == Trim(raw) && 8 <= |key| <= 64
    && forall i :: 0 <= i < |key| ==>
         '0' <= key[i] <= '9' || 'A' <= key[i] <= 'Z' || 'a' <= key[i] <= 'z' || key[i] == '_' || key[i] == '-'
  }

  lemma NormalizeKeyIff(raw: string, key: string)
    ensures NormalizeKey(raw) == Some(key) <==> Carries(raw, key)
  {
  }

  ghost predicate FieldBlank(req: Request) {
    Trim(req.customerName) == "" || Trim(req.contact) == "" || Trim(req.address) == ""
  }

  /** The record is the caller's: the same user, or for a guest's record a guest whose contact has the same
      digest, blanks around it and letter case aside. */
  ghost predicate Theirs(rec: KeyRecord, req: Request, env: Env) {
    if rec.userId.Some? then req.userId == rec.userId
    else req.userId.None? && rec.contactHash == Some(env.digest(Lower(Trim(req.contact))))
  }

  /** The request gets past its fields and its key: nothing is on file under the key, or only an order of
      theirs that is gone. */
  ghost predicate GoesOn(db: Db, req: Request, env: Env) {
    && !FieldBlank(req) && req.agreedTerms
    && forall key :: Carries(req.key, key) && key in db.keys ==>
         Theirs(db.keys[key], req, env) && |db.orders| <= db.keys[key].orderId
  }

  lemma GoesOnIff(db: Db, req: Request, env: Env)
    ensures GoesOn(db, req, env)
      <==> FieldsRefused(req).None? && ReplayKey(db, NormalizeKey(req.key), req, env) == Ok(None)
  {
    forall key ensures NormalizeKey(req.key) == Some(key) <==> Carries(req.key, key) {
      NormalizeKeyIff(req.key, key);
    }
  }

  /** The refusals that come before any price is looked at, each exactly when. */
  lemma EarlyRefusalsIff(db: Db, req: Request, env: Env)
    ensures var reply := Create(db, req, env).reply;
      var usable := req.paidBy.Some? && req.paidBy != Some(Manual)
        && (req.paidBy == Some(Vnpay) || env.simulatedEnabled);
      && (reply == Err(MissingField) <==> FieldBlank(req))
      && (reply == Err(TermsNotAgreed) <==> !FieldBlank(req) && !req.agreedTerms)
      && (reply == Err(KeyConflict) <==>
            !FieldBlank(req) && req.agreedTerms
            && exists key :: Carries(req.key, key) && key in db.keys && !Theirs(db.keys[key], req, env))
      && (reply == Err(BadMethod) <==> GoesOn(db, req, env) && (req.paidBy.None? || req.paidBy == Some(Manual)))
      && (reply == Err(MethodDisabled) <==>
            GoesOn(db, req, env) && req.paidBy.Some? && req.paidBy != Some(Manual) && !usable)
      && (reply == Err(EmptyCart) <==> GoesOn(db, req, env) && usable && req.items == [])
  {
    GoesOnIff(db, req, env);
    var key := NormalizeKey(req.key);
    forall k ensures key == Some(k) <==> Carries(req.key, k) {
      NormalizeKeyIff(req.key, k);
    }
    if GoesOn(db, req, env) && Prepare(db, req, env).Ok? {
      var d := Prepare(db, req, env).value;
      if ConsumeIntent(db, req, d, env).Ok? {
        TryCodesErrors(ConsumeIntent(db, req, d, env).value, d, env.codes, env.now);
      }
    } else if GoesOn(db, req, env) && MethodRefused(req, env).None? && req.items != [] {
      CartErrors(db.products, Basket(req));
    }
  }

  lemma {:induction false} TryCodesErrors(db: Db, d: Draft, codes: seq<string>, now: int)
    ensures var r := TryCodes(db, d, codes, now); r.Err? ==> r.error == SoldOut || r.error == CodesExhausted
  {
    if codes != [] && CommitCreate(db, d, codes[0], now).CodeTaken? {
      TryCodesErrors(db, d, codes[1..], now);
    }
  }

  lemma CartErrors(products: map<Slug, Product>, items: seq<ItemInput>)
    requires PriceCart(products, items).Err?
    ensures var e := PriceCart(products, items).error; e == BadTotal || e.NotOnShow? || e.ShortStock?
  {
    var first := CartRefusedIff(products, items);
  }

  /** The cart a request is priced by, and when it is refused: only its first fifty items count; a blocked
      item refuses it, and so does a total of nothing. */
  lemma PreparedIff(db: Db, req: Request, env: Env)
    requires MethodRefused(req, env).None? && req.items != []
    ensures var cart := if |req.items| <= 50 then req.items else req.items[..50];
      var quote, prepared := PriceItems(db.products, cart), Prepare(db, req, env);
      && (prepared == Err(BadTotal) <==> quote.Ok? && SumUsd(quote.value.lines) == 0)
      && (quote.Err? ==> prepared == Err(quote.error))
      && (prepared.Ok? <==> quote.Ok? && SumUsd(quote.value.lines) > 0)
      && (prepared.Ok? ==>
            && prepared.value.quote == quote.value && prepared.value.userId == req.userId
            && Some(prepared.value.paidBy) == req.paidBy
            && prepared.value.contact == Text.Take(Trim(req.contact), 200))
  {
    var cart := Basket(req);
    if PriceItems(db.products, cart).Ok? {
      QuoteTotals(db.products, cart);
    } else {
      var first := CartRefusedIff(db.products, cart);
    }
  }

  /** What naming a spending limit needs: an agent acting for a signed-in user, and a limit of that user's,
      active, unexpired, at least the total, for a VNPay order. It is then locked, and nothing else
      changes. */
  lemma ConsumeIntentIff(db: Db, req: Request, d: Draft, env: Env, j: nat)
    requires req.intent == Some(j) && d.userId == req.userId
    ensures var r := ConsumeIntent(db, req, d, env);
      var agent := req.viaAgent && req.userId.Some?;
      var fits := j < |db.intents| && req.userId == Some(db.intents[j].userId) && db.intents[j].status == Active
        && env.now < db.intents[j].expiresAt && d.quote.totalUsd <= db.intents[j].maxUsd && d.paidBy == Vnpay;
      && (r == Err(IntentForbidden) <==> !agent)
      && (r == Err(IntentInvalid) <==> agent && !fits)
      && (r.Ok? <==> agent && fits)
      && (r.Ok? ==> r.value == db.(intents := db.intents[j := db.intents[j].(status := Locked)]))
  {
  }

  /** A double submit is caught: a signed-in user who sends the same cart again within three minutes, at the
      same prices, is given the order just placed, as long as it is still open and every line has a
      product. */
  lemma DoubleSubmitIsCaught(db: Db, req: Request, d: Draft, now: int, n: nat)
    requires |db.orders| == n + 1 && req.userId.Some? && d.userId == req.userId
    requires PriceItems(db.products, Basket(req)) == Ok(d.quote) && FullyListed(d.quote)
    requires var o := db.orders[n];
      && (o.status == Pending || o.status == Confirmed) && now - 180000 <= o.createdAt
      && o.userId == d.userId && o.lines == d.quote.lines && o.totalUsd == d.quote.totalUsd
      && exists k :: 0 <= k < |o.payments| && o.payments[k].paidBy == d.paidBy
    ensures Duplicate(db, req, d, now) == Some(n)
  {
    var o := db.orders[n];
    ListedLinesNamed(db.products, Basket(req), d.quote);
    forall k | 0 <= k < |o.lines| ensures o.lines[k].slug.Some? && InCart(Basket(req), o.lines[k].slug.value) {
      assert Basket(req)[k].slug == o.lines[k].slug.value;
    }
    assert LooksAlike(o, req, d, now);
    AllListed(o.lines);
  }

  lemma ListedLinesNamed(products: map<Slug, Product>, items: seq<ItemInput>, q: Quote)
    requires PriceItems(products, items) == Ok(q) && FullyListed(q)
    ensures |q.lines| == |items|
    ensures forall k :: 0 <= k < |q.lines| ==>
      q.lines[k].slug.Some? && items[k].slug != "" && items[k].slug == q.lines[k].slug.value
  {
    QuoteLines(products, items);
    forall k | 0 <= k < |q.lines|
      ensures q.lines[k].slug.Some? && items[k].slug != "" && items[k].slug == q.lines[k].slug.value
    {
      assert Prices(products, items[k], q.lines[k]);
    }
  }

  // ---------- What a key guarantees ----------

  /** A recorded key decides the request: nothing changes, the owner gets the recorded order, anyone
      else a conflict. */
  lemma RecordedKeyDecides(db: Db, req: Request, env: Env, key: string)
    requires NormalizeKey(req.key) == Some(key) && key in db.keys && db.keys[key].orderId < |db.orders|
    ensures Create(db, req, env) == Outcome(db,
      if FieldsRefused(req).Some? then Err(FieldsRefused(req).value)
      else if OwnsKey(db.keys[key], req, env.digest) then Ok(db.keys[key].orderId)
      else Err(KeyConflict))
  {
  }

  /** A request adds at most one order, at the end of the table; it adds one exactly when it replies with
      an order that was not there, and then its key is recorded for it. No key is ever lost or changed. */
  lemma CreateAddsOne(db: Db, req: Request, env: Env)
    ensures var out, key := Create(db, req, env), NormalizeKey(req.key);
      && |db.orders| <= |out.db.orders| <= |db.orders| + 1
      && (|out.db.orders| == |db.orders| + 1 <==> out.reply == Ok(|db.orders|))
      && (forall k :: k in db.keys ==> k in out.db.keys && out.db.keys[k] == db.keys[k])
      && (out.reply == Ok(|db.orders|) && key.Some? && key.value !in db.keys ==>
            && key.value in out.db.keys
            && out.db.keys[key.value] == KeyFor(req, env, |db.orders|)
            && OwnsKey(out.db.keys[key.value], req, env.digest))
  {
    var key := NormalizeKey(req.key);
    if FieldsRefused(req).None? && ReplayKey(db, key, req, env) == Ok(None) && Prepare(db, req, env).Ok? {
      var d := Prepare(db, req, env).value;
      if ConsumeIntent(db, req, d, env).Ok? {
        var locked := ConsumeIntent(db, req, d, env).value;
        assert locked.orders == db.orders && locked.keys == db.keys;
        if Duplicate(locked, req, d, env.now).None? && TryCodes(locked, d, env.codes, env.now).Ok? {
          TryCodesAdds(locked, d, env.codes, env.now);
          var placed, n := TryCodes(locked, d, env.codes, env.now).value, |db.orders|;
          KeyRecorded(placed, key, req, env, n);
          IntentAttached(RecordKey(placed, key, req, env, n), req, env, n);
          assert Create(db, req, env)
            == Outcome(AttachIntent(RecordKey(placed, key, req, env, n), req, env, n), Ok(n));
        }
      }
    }
  }

  lemma KeyRecorded(db: Db, key: Option<string>, req: Request, env: Env, n: nat)
    ensures var db' := RecordKey(db, key, req, env, n);
      && db'.orders == db.orders
      && (forall k :: k in db.keys ==> k in db'.keys && db'.keys[k] == db.keys[k])
      && (key.Some? && key.value !in db.keys ==>
            && key.value in db'.keys && OwnsKey(db'.keys[key.value], req, env.digest)
            && db'.keys[key.value] == KeyFor(req, env, n))
  {
  }

  lemma IntentAttached(db: Db, req: Request, env: Env, n: nat)
    ensures |AttachIntent(db, req, env, n).orders| == |db.orders| && AttachIntent(db, req, env, n).keys == db.keys
  {
  }

  lemma {:induction false} TryCodesAdds(db: Db, d: Draft, codes: seq<string>, now: int)
    ensures TryCodes(db, d, codes, now).Ok? ==>
      && |TryCodes(db, d, codes, now).value.orders| == |db.orders| + 1
      && TryCodes(db, d, codes, now).value.keys == db.keys
      && TryCodes(db, d, codes, now).value.intents == db.intents
  {
    if codes != [] {
      TryCodesAdds(db, d, codes[1..], now);
    }
  }

  /** What happens between two table states: a create request, the key sweep, or anything else that
      neither touches keys nor deletes orders. */
  datatype Op = Asked(req: Request, env: Env) | Swept(cutoff: int) | Other

  ghost predicate StepOk(before: Db, op: Op, after: Db) {
    match op
    case Asked(req, env) => after == Create(before, req, env).db
    case Swept(cutoff) => after == before.(keys := RecentKeys(before.keys, cutoff))
    case Other => after.keys == before.keys && |before.orders| <= |after.orders|
  }

  ghost predicate Trace(states: seq<Db>, ops: seq<Op>) {
    && |states| == |ops| + 1
    && (forall i :: 0 <= i < |ops| ==> StepOk(states[i], ops[i], states[i + 1]))
  }

  /** The sweep drops a key that was recorded before its cutoff. */
  predicate Drops(before: Db, op: Op, key: string) {
    op.Swept? && key in before.keys && before.keys[key].createdAt < op.cutoff
  }

  lemma {:induction false} KeyLasts(states: seq<Db>, ops: seq<Op>, from: nat, to: nat, key: string)
    requires Trace(states, ops) && from <= to < |states| && key in states[from].keys
    requires forall m :: from <= m < to ==> !Drops(states[m], ops[m], key)
    ensures key in states[to].keys && states[to].keys[key] == states[from].keys[key]
    ensures |states[from].orders| <= |states[to].orders|
  {
    if from < to {
      KeyLasts(states, ops, from, to - 1, key);
      assert StepOk(states[to - 1], ops[to - 1], states[to]);
      assert !Drops(states[to - 1], ops[to - 1], key);
      if ops[to - 1].Asked? {
        CreateAddsOne(states[to - 1], ops[to - 1].req, ops[to - 1].env);
      }
    }
  }

  /** Each key creates at most one order: between two requests with one key that both created an order
      there was a sweep that dropped the key. */
  lemma KeyCreatesOnce(states: seq<Db>, ops: seq<Op>, i: nat, k: nat, key: string)
    requires Trace(states, ops) && i < k < |ops|
    requires ops[i].Asked? && ops[k].Asked?
    requires NormalizeKey(ops[i].req.key) == Some(key) && NormalizeKey(ops[k].req.key) == Some(key)
    requires key !in states[i].keys
    requires |states[i + 1].orders| > |states[i].orders|
    ensures |states[k + 1].orders| > |states[k].orders|
      ==> exists m :: i < m < k && Drops(states[m], ops[m], key)
  {
    if forall m :: i < m < k ==> !Drops(states[m], ops[m], key) {
      RetryIsHarmless(states, ops, i, k, key);
    }
  }

  /** Until such a sweep, every later request with the key leaves every table unchanged and answers with
      the first order, or a refusal. */
  lemma RetryIsHarmless(states: seq<Db>, ops: seq<Op>, i: nat, k: nat, key: string)
    requires Trace(states, ops) && i < k < |ops|
    requires ops[i].Asked? && ops[k].Asked?
    requires NormalizeKey(ops[i].req.key) == Some(key) && NormalizeKey(ops[k].req.key) == Some(key)
    requires key !in states[i].keys
    requires |states[i + 1].orders| > |states[i].orders|
    requires forall m :: i < m < k ==> !Drops(states[m], ops[m], key)
    ensures states[k + 1] == states[k]
    ensures var reply := Create(states[k], ops[k].req, ops[k].env).reply;
      reply == Ok(|states[i].orders|)
      || reply == Err(KeyConflict) || reply == Err(MissingField) || reply == Err(TermsNotAgreed)
    ensures FieldsRefused(ops[k].req).None? && ops[k].req.userId.Some? ==>
      (Create(states[k], ops[k].req, ops[k].env).reply == Ok(|states[i].orders|)
       <==> ops[k].req.userId == ops[i].req.userId)
    ensures FieldsRefused(ops[k].req).None? && ops[k].req.userId.None? ==>
      (Create(states[k], ops[k].req, ops[k].env).reply == Ok(|states[i].orders|)
       <==> ops[i].req.userId.None?
            && ContactHash(ops[k].req.contact, ops[k].env.digest) == ContactHash(ops[i].req.contact, ops[i].env.digest))
  {
    assert StepOk(states[i], ops[i], states[i + 1]);
    assert StepOk(states[k], ops[k], states[k + 1]);
    CreateAddsOne(states[i], ops[i].req, ops[i].env);
    KeyLasts(states, ops, i + 1, k, key);
    RecordedKeyDecides(states[k], ops[k].req, ops[k].env, key);
  }
}
