/** Trusted-proxy entries: an address, or an IPv4 prefix as in section 3.1 of RFC 4632. */
module TrustProxy {
  import opened Prelude
  import opened Text

  function Pow2(n: nat): nat
    ensures Pow2(n) > 0
  {
    if n == 0 then 1 else 2 * Pow2(n - 1)
  }

  /** Bitwise and of unsigned numbers. */
  function BitAnd(a: nat, b: nat): nat
    decreases a
  {
    if a == 0 || b == 0 then 0 else 2 * BitAnd(a / 2, b / 2) + (a % 2) * (b % 2)
  }

  const ALL_ONES := 0xffff_ffff

  /** The netmask, shifted left within 32 bits. */
  function Mask(bits: nat): nat
    requires bits <= 32
  {
    if bits == 0 then 0 else (ALL_ONES * Pow2(32 - bits)) % Pow2(32)
  }

  // ---------- Numbers as text ----------

  function DigitValue(c: char): nat
    requires IsDigit(c)
  {
    c as int - '0' as int
  }

  function DigitsValue(s: string): nat
    requires forall i :: 0 <= i < |s| ==> IsDigit(s[i])
  {
    if s == "" then 0 else 10 * DigitsValue(s[..|s| - 1]) + DigitValue(s[|s| - 1])
  }

  /** JavaScript's Number on plain decimal text; the empty text is zero. */
  function Number(s: string): Option<nat> {
    if forall i :: 0 <= i < |s| ==> IsDigit(s[i]) then Some(DigitsValue(s)) else None
  }

  function Decimal(n: nat): string {
    (if n < 10 then "" else Decimal(n / 10)) + [('0' as int + n % 10) as char]
  }

  lemma DigitAppended(s: string, d: nat)
    requires d < 10 && Number(s).Some?
    ensures Number(s + [('0' as int + d) as char]) == Some(10 * Number(s).value + d)
  {
    var t := s + [('0' as int + d) as char];
    assert t[..|t| - 1] == s;
  }

  lemma {:induction false} DecimalRoundTrip(n: nat)
    ensures Number(Decimal(n)) == Some(n)
    ensures '.' !in Decimal(n) && '/' !in Decimal(n)
  {
    if n >= 10 {
      DecimalRoundTrip(n / 10);
    }
    DigitAppended(if n < 10 then "" else Decimal(n / 10), n % 10);
  }

  // ---------- Addresses ----------

  /** Base 256, one part at a time; any part that is not a number up to 255 spoils it. */
  function Fold(parts: seq<string>): Option<nat> {
    if parts == [] then Some(0)
    else
      match (Fold(parts[..|parts| - 1]), Number(parts[|parts| - 1]))
      case (Some(n), Some(x)) => if x > 255 then None else Some(n * 256 + x)
      case _ => None
  }

  function IpToLong(ip: string): Option<nat> {
    var parts := Split(ip, '.');
    if |parts| != 4 then None else Fold(parts)
  }

  lemma {:induction false} SpoiledStays(parts: seq<string>, i: nat)
    requires i <= |parts| && Fold(parts[..i]).None?
    ensures Fold(parts).None?
  {
    if i == |parts| {
      assert parts[..i] == parts;
    } else {
      assert parts[..|parts| - 1][..i] == parts[..i];
      SpoiledStays(parts[..|parts| - 1], i);
    }
  }

  method ParseIp(ip: string) returns (r: Option<nat>)
    ensures r == IpToLong(ip)
  {
    var p := Split(ip, '.');
    if |p| != 4 {
      return None;
    }
    var n: nat := 0;
    for i := 0 to |p|
      invariant Fold(p[..i]) == Some(n)
    {
      assert p[..i + 1][..i] == p[..i];
      var x := Number(p[i]);
      if x.None? || x.value > 255 {
        SpoiledStays(p, i + 1);
        return None;
      }
      n := n * 256 + x.value;
    }
    assert p[..|p|] == p;
    return Some(n);
  }

  function IndexOf(s: string, c: char): (i: nat)
    ensures i <= |s| && c !in s[..i] && (i < |s| ==> s[i] == c)
  {
    if s == "" || s[0] == c then 0
    else
      var i := 1 + IndexOf(s[1..], c);
      assert s[..i] == [s[0]] + s[1..][..i - 1];
      i
  }

  lemma {:induction false} IndexOfFirst(a: string, b: string, c: char)
    requires c !in a
    ensures IndexOf(a + [c] + b, c) == |a|
  {
    if a != "" {
      assert (a + [c] + b)[1..] == a[1..] + [c] + b;
      IndexOfFirst(a[1..], b, c);
    }
  }

  predicate Matches(ip: string, entry: string) {
    || entry == ip
    || (var slash := IndexOf(entry, '/');
        slash < |entry| &&
        match (IpToLong(entry[..slash]), Number(entry[slash + 1..]), IpToLong(ip))
        case (Some(base), Some(bits), Some(val)) =>
          bits <= 32 && BitAnd(val, Mask(bits)) == BitAnd(base, Mask(bits))
        case _ => false)
  }

  // ---------- Masking is dividing ----------

  lemma HalveQuotient(v: nat, p: nat)
    requires p > 0
    ensures (v / 2) / p == v / (2 * p)
  {
    var q := (v / 2) / p;
    assert q * p <= v / 2 < (q + 1) * p by {
      assert v / 2 == q * p + (v / 2) % p;
    }
    assert (2 * p) * q == 2 * (q * p) && (2 * p) * (q + 1) == 2 * ((q + 1) * p);
    assert (2 * p) * q <= v < (2 * p) * (q + 1);
    QuotientUnique(v, 2 * p, q);
  }

  lemma QuotientUnique(v: nat, d: nat, q: nat)
    requires d > 0 && d * q <= v < d * (q + 1)
    ensures v / d == q
  {
    var r := v / d;
    assert d * r <= v < d * (r + 1);
    assert r < q ==> d * (r + 1) <= d * q;
    assert r > q ==> d * (q + 1) <= d * r;
  }

  lemma AndEven(v: nat, half: nat)
    ensures BitAnd(v, 2 * half) == 2 * BitAnd(v / 2, half)
  {
    assert (2 * half) / 2 == half && (2 * half) % 2 == 0;
    if half > 0 && v > 0 {
      assert (v % 2) * ((2 * half) % 2) == 0;
    }
  }

  lemma AndOdd(v: nat, half: nat)
    ensures BitAnd(v, 2 * half + 1) == 2 * BitAnd(v / 2, half) + v % 2
  {
    assert (2 * half + 1) / 2 == half && (2 * half + 1) % 2 == 1;
  }

  /** Shifting right `k` times. */
  function Shift(v: nat, k: nat): nat {
    if k == 0 then v else Shift(v / 2, k - 1)
  }

  lemma {:induction false} ShiftIsQuotient(v: nat, k: nat)
    ensures Shift(v, k) == v / Pow2(k)
  {
    if k > 0 {
      ShiftIsQuotient(v / 2, k - 1);
      HalveQuotient(v, Pow2(k - 1));
    }
  }

  lemma {:induction false} Pow2Grows(k: nat, w: nat)
    requires k <= w
    ensures Pow2(k) <= Pow2(w)
  {
    if k < w {
      Pow2Grows(k, w - 1);
    }
  }

  lemma {:induction false} AndAllOnes(v: nat, w: nat)
    requires v < Pow2(w)
    ensures BitAnd(v, Pow2(w) - 1) == v
  {
    if w > 0 {
      AndAllOnes(v / 2, w - 1);
      AndOdd(v, Pow2(w - 1) - 1);
    }
  }

  /** Under the `w`-bit ones from position `k` up, two values agree exactly when their shifts do. */
  lemma {:induction false} AndHighBitsIff(v: nat, u: nat, w: nat, k: nat)
    requires v < Pow2(w) && u < Pow2(w) && k <= w
    ensures Pow2(k) <= Pow2(w)
    ensures BitAnd(v, Pow2(w) - Pow2(k)) == BitAnd(u, Pow2(w) - Pow2(k)) <==> Shift(v, k) == Shift(u, k)
  {
    Pow2Grows(k, w);
    if k == 0 {
      AndAllOnes(v, w);
      AndAllOnes(u, w);
    } else {
      AndHighBitsIff(v / 2, u / 2, w - 1, k - 1);
      var half := Pow2(w - 1) - Pow2(k - 1);
      AndEven(v, half);
      AndEven(u, half);
    }
  }

  lemma {:induction false} Pow2Splits(a: nat, b: nat)
    ensures Pow2(a + b) == Pow2(a) * Pow2(b)
  {
    if a > 0 {
      Pow2Splits(a - 1, b);
      assert 2 * (Pow2(a - 1) * Pow2(b)) == Pow2(a) * Pow2(b);
    }
  }

  lemma Pow2Of32()
    ensures Pow2(32) == 0x1_0000_0000
  {
    Pow2Splits(16, 16);
    assert Pow2(8) == 256;
    Pow2Splits(8, 8);
  }

  lemma MaskIs(bits: nat)
    requires bits <= 32
    ensures Pow2(32 - bits) <= Pow2(32) && Mask(bits) == Pow2(32) - Pow2(32 - bits)
  {
    Pow2Of32();
    Pow2Splits(bits, 32 - bits);
    var p := Pow2(32 - bits);
    assert p <= Pow2(32) by {
      assert Pow2(bits) * p >= 1 * p;
    }
    if bits > 0 {
      assert ALL_ONES * p == (p - 1) * Pow2(32) + (Pow2(32) - p);
      QuotientUnique(ALL_ONES * p, Pow2(32), p - 1);
    }
  }

  /** Two 32-bit values agree under the mask exactly when they have the same quotient by 2^(32-bits). */
  lemma MaskedEqualIff(val: nat, base: nat, bits: nat)
    requires val < Pow2(32) && base < Pow2(32) && bits <= 32
    ensures BitAnd(val, Mask(bits)) == BitAnd(base, Mask(bits))
      <==> val / Pow2(32 - bits) == base / Pow2(32 - bits)
  {
    MaskIs(bits);
    AndHighBitsIff(val, base, 32, 32 - bits);
    ShiftIsQuotient(val, 32 - bits);
    ShiftIsQuotient(base, 32 - bits);
  }

  // ---------- Dotted quads ----------

  datatype Quad = Quad(a: nat, b: nat, c: nat, d: nat)

  predicate QuadOk(q: Quad) {
    q.a <= 255 && q.b <= 255 && q.c <= 255 && q.d <= 255
  }

  function Value(q: Quad): nat {
    ((q.a * 256 + q.b) * 256 + q.c) * 256 + q.d
  }

  function PartsOf(q: Quad): seq<string> {
    [Decimal(q.a), Decimal(q.b), Decimal(q.c), Decimal(q.d)]
  }

  function Dotted(q: Quad): string {
    Join(PartsOf(q), ".")
  }

  lemma FoldFour(parts: seq<string>, q: Quad)
    requires |parts| == 4 && QuadOk(q)
    requires Number(parts[0]) == Some(q.a) && Number(parts[1]) == Some(q.b)
    requires Number(parts[2]) == Some(q.c) && Number(parts[3]) == Some(q.d)
    ensures Fold(parts) == Some(Value(q))
  {
    assert parts[..3][..2] == parts[..2] && parts[..2][..1] == parts[..1] && parts[..1][..0] == [];
    assert Fold(parts[..1]) == Some(q.a);
    assert Fold(parts[..2]) == Some(q.a * 256 + q.b);
  }

  /** A canonical dotted quad is read as its 32-bit value. */
  lemma QuadIsRead(q: Quad)
    requires QuadOk(q)
    ensures IpToLong(Dotted(q)) == Some(Value(q)) && Value(q) < Pow2(32)
  {
    DecimalRoundTrip(q.a);
    DecimalRoundTrip(q.b);
    DecimalRoundTrip(q.c);
    DecimalRoundTrip(q.d);
    SplitUndoesJoin(PartsOf(q), '.');
    FoldFour(PartsOf(q), q);
    Pow2Of32();
  }

  lemma {:induction false} JoinClean(parts: seq<string>, c: char)
    requires c != '.' && forall i :: 0 <= i < |parts| ==> c !in parts[i]
    ensures c !in Join(parts, ".")
  {
    if |parts| > 1 {
      JoinClean(parts[1..], c);
    }
  }

  lemma QuadHasNoSlash(q: Quad)
    ensures '/' !in Dotted(q)
  {
    DecimalRoundTrip(q.a);
    DecimalRoundTrip(q.b);
    DecimalRoundTrip(q.c);
    DecimalRoundTrip(q.d);
    JoinClean(PartsOf(q), '/');
  }

  lemma LastDigit(x: nat, d: nat, y: nat, e: nat)
    requires d < 256 && e < 256 && x * 256 + d == y * 256 + e
    ensures x == y && d == e
  {
  }

  /** Different quads have different values. */
  lemma ValueInjective(p: Quad, q: Quad)
    requires QuadOk(p) && QuadOk(q) && Value(p) == Value(q)
    ensures p == q
  {
    LastDigit((p.a * 256 + p.b) * 256 + p.c, p.d, (q.a * 256 + q.b) * 256 + q.c, q.d);
    LastDigit(p.a * 256 + p.b, p.c, q.a * 256 + q.b, q.c);
    LastDigit(p.a, p.b, q.a, q.b);
  }

  function Entry(base: Quad, bits: nat): string {
    Dotted(base) + "/" + Decimal(bits)
  }

  lemma EntrySplits(base: Quad, bits: nat)
    ensures var entry, slash := Entry(base, bits), |Dotted(base)|;
      && '/' in entry && slash < |entry| && IndexOf(entry, '/') == slash
      && entry[..slash] == Dotted(base) && Number(entry[slash + 1..]) == Some(bits)
  {
    var entry, slash := Entry(base, bits), |Dotted(base)|;
    DecimalRoundTrip(bits);
    QuadHasNoSlash(base);
    assert entry == Dotted(base) + ['/'] + Decimal(bits);
    IndexOfFirst(Dotted(base), Decimal(bits), '/');
    assert entry[..slash] == Dotted(base) && entry[slash + 1..] == Decimal(bits);
    assert entry[slash] == '/';
  }

  /** An address matches a prefix entry exactly when both have the same quotient by 2^(32-bits). */
  lemma MatchesIffSamePrefix(ip: Quad, base: Quad, bits: nat)
    requires QuadOk(ip) && QuadOk(base) && bits <= 32
    ensures Matches(Dotted(ip), Entry(base, bits))
      <==> Value(ip) / Pow2(32 - bits) == Value(base) / Pow2(32 - bits)
  {
    QuadIsRead(ip);
    QuadIsRead(base);
    QuadHasNoSlash(ip);
    EntrySplits(base, bits);
    MaskedEqualIff(Value(ip), Value(base), bits);
  }

  /** A prefix longer than 32 bits, or one whose base is not a quad of numbers up to 255, matches nothing but
      its own text. */
  lemma BadEntryMatchesNothing(ip: string, base: Quad, bits: nat)
    requires !QuadOk(base) || bits > 32
    ensures Matches(ip, Entry(base, bits)) <==> ip == Entry(base, bits)
  {
    QuadReadIff(base);
    EntrySplits(base, bits);
  }

  /** A quad is read as an address exactly when all four numbers are at most 255. */
  lemma QuadReadIff(q: Quad)
    ensures IpToLong(Dotted(q)).Some? <==> QuadOk(q)
  {
    if QuadOk(q) {
      QuadIsRead(q);
    } else {
      DecimalRoundTrip(q.a);
      DecimalRoundTrip(q.b);
      DecimalRoundTrip(q.c);
      DecimalRoundTrip(q.d);
      var parts := PartsOf(q);
      SplitUndoesJoin(parts, '.');
      var i := if q.a > 255 then 0 else if q.b > 255 then 1 else if q.c > 255 then 2 else 3;
      assert parts[..i + 1][..i] == parts[..i];
      assert Fold(parts[..i + 1]).None?;
      SpoiledStays(parts, i + 1);
    }
  }

  /** Text that is not four parts is no address. */
  lemma OnlyFourParts(ip: string)
    requires |Split(ip, '.')| != 4
    ensures IpToLong(ip).None?
  {
  }

  /** An entry without a slash matches exactly the same text, and every text matches itself. */
  lemma PlainEntryIff(ip: string, entry: string)
    ensures Matches(ip, ip)
    ensures '/' !in entry ==> (Matches(ip, entry) <==> ip == entry)
  {
  }

  lemma {:induction false} ShiftFurther(v: nat, j: nat, k: nat)
    requires j <= k
    ensures Shift(v, k) == Shift(Shift(v, j), k - j)
  {
    if j > 0 {
      ShiftFurther(v / 2, j - 1, k - 1);
    }
  }

  lemma CoarserPrefix(u: nat, v: nat, j: nat, k: nat)
    requires j <= k && u / Pow2(j) == v / Pow2(j)
    ensures u / Pow2(k) == v / Pow2(k)
  {
    ShiftIsQuotient(u, j);
    ShiftIsQuotient(v, j);
    ShiftIsQuotient(u, k);
    ShiftIsQuotient(v, k);
    ShiftFurther(u, j, k);
    ShiftFurther(v, j, k);
  }

  /** A longer prefix of the same base matches no address that a shorter one does not. */
  lemma LongerPrefixNarrower(ip: Quad, base: Quad, short: nat, long: nat)
    requires QuadOk(ip) && QuadOk(base) && short <= long <= 32
    requires Matches(Dotted(ip), Entry(base, long))
    ensures Matches(Dotted(ip), Entry(base, short))
  {
    MatchesIffSamePrefix(ip, base, long);
    MatchesIffSamePrefix(ip, base, short);
    CoarserPrefix(Value(ip), Value(base), 32 - long, 32 - short);
  }
}
