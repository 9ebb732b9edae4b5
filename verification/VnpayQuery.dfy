/** The query VNPay signs: sorted, percent-encoded, and decodable, so it is a canonical and injective
    form of the parameters. Texts are byte sequences (UTF-8); the query itself is ASCII. */
module VnpayQuery {
  import opened Prelude
  import opened Text

  newtype byte = x: int | 0 <= x < 256

  type Bytes = seq<byte>

  type Params = map<Bytes, Bytes>

  // ---------- Percent-encoding ----------

  /** The characters encodeURIComponent leaves alone. */
  predicate Unreserved(b: byte) {
    var c := b as int as char;
    || 'A' <= c <= 'Z' || 'a' <= c <= 'z' || '0' <= c <= '9'
    || c == '-' || c == '_' || c == '.' || c == '!' || c == '~' || c == '*' || c == '\'' || c == '(' || c == ')'
  }

  const HEX := "0123456789ABCDEF"

  function HexChar(n: int): char
    requires 0 <= n < 16
  {
    HEX[n]
  }

  function HexValue(c: char): Option<int> {
    if '0' <= c <= '9' then Some(c as int - '0' as int)
    else if 'A' <= c <= 'F' then Some(c as int - 'A' as int + 10)
    else None
  }

  lemma HexRoundTrip(n: int)
    requires 0 <= n < 16
    ensures HexValue(HexChar(n)) == Some(n)
    ensures HexChar(n) != '%' && HexChar(n) != '&' && HexChar(n) != '=' && HexChar(n) != '+'
  {
  }

  function EncodeByte(b: byte): string {
    if Unreserved(b) then [b as int as char]
    else ['%', HexChar(b as int / 16), HexChar(b as int % 16)]
  }

  function EncodeURIComponent(v: Bytes): string {
    if v == [] then "" else EncodeByte(v[0]) + EncodeURIComponent(v[1..])
  }

  /** Replaces every "%20" by "+", left to right. */
  function SpacesToPlus(s: string): string {
    if s == "" then ""
    else if "%20" <= s then "+" + SpacesToPlus(s[3..])
    else [s[0]] + SpacesToPlus(s[1..])
  }

  function Encode(v: Bytes): string {
    SpacesToPlus(EncodeURIComponent(v))
  }

  const SPACE: byte := 0x20

  function Token(b: byte): string {
    if b == SPACE then "+" else EncodeByte(b)
  }

  lemma PlusSkips(c: char, s: string)
    requires c != '%'
    ensures SpacesToPlus([c] + s) == [c] + SpacesToPlus(s)
  {
    assert ([c] + s)[0] != "%20"[0];
    assert ([c] + s)[1..] == s;
  }

  lemma PlusSkipsEscape(hi: char, lo: char, tail: string)
    requires hi != '%' && lo != '%' && !("%20" <= ['%', hi, lo] + tail)
    ensures SpacesToPlus(['%', hi, lo] + tail) == ['%', hi, lo] + SpacesToPlus(tail)
  {
    var s := ['%', hi, lo] + tail;
    assert s[1..] == [hi] + ([lo] + tail);
    PlusSkips(hi, [lo] + tail);
    PlusSkips(lo, tail);
    assert ['%'] + ([hi] + ([lo] + SpacesToPlus(tail))) == ['%', hi, lo] + SpacesToPlus(tail);
  }

  /** The textual replacement acts byte by byte: no encoded byte other than the space holds "%20". */
  lemma EncodeStep(b: byte, rest: Bytes)
    ensures Encode([b] + rest) == Token(b) + Encode(rest)
  {
    var tail := EncodeURIComponent(rest);
    assert ([b] + rest)[1..] == rest;
    if Unreserved(b) {
      PlusSkips(b as int as char, tail);
    } else {
      var hi, lo := HexChar(b as int / 16), HexChar(b as int % 16);
      HexRoundTrip(b as int / 16);
      HexRoundTrip(b as int % 16);
      var s := ['%', hi, lo] + tail;
      assert s[3..] == tail && s[1..] == [hi] + ([lo] + tail);
      if b == SPACE {
        assert s[..3] == "%20";
      } else {
        assert !("%20" <= s) by {
          assert HexValue('2') == Some(2) && HexValue('0') == Some(0);
          assert s[1] == hi && s[2] == lo && "%20"[1] == '2' && "%20"[2] == '0';
        }
        PlusSkipsEscape(hi, lo, tail);
      }
    }
  }

  function Decode(s: string): Option<Bytes> {
    if s == "" then Some([])
    else if s[0] == '+' then Prepend(SPACE, Decode(s[1..]))
    else if s[0] == '%' then
      if |s| < 3 then None
      else
        match (HexValue(s[1]), HexValue(s[2]))
        case (Some(hi), Some(lo)) => Prepend((hi * 16 + lo) as byte, Decode(s[3..]))
        case _ => None
    else if s[0] as int < 256 then Prepend(s[0] as int as byte, Decode(s[1..]))
    else None
  }

  function Prepend(b: byte, rest: Option<Bytes>): Option<Bytes> {
    match rest case None => None case Some(v) => Some([b] + v)
  }

  lemma DecodeToken(b: byte, s: string)
    ensures Decode(Token(b) + s) == Prepend(b, Decode(s))
  {
    var t := Token(b) + s;
    if b == SPACE {
      assert t[1..] == s;
    } else if Unreserved(b) {
      assert t[1..] == s;
      assert t[0] as int == b as int;
    } else {
      HexRoundTrip(b as int / 16);
      HexRoundTrip(b as int % 16);
      assert t[0] == '%' && t[3..] == s;
    }
  }

  /** Encoding is reversible. */
  lemma {:induction false} DecodeUndoesEncode(v: Bytes)
    ensures Decode(Encode(v)) == Some(v)
  {
    if v != [] {
      assert v == [v[0]] + v[1..];
      EncodeStep(v[0], v[1..]);
      DecodeToken(v[0], Encode(v[1..]));
      DecodeUndoesEncode(v[1..]);
    }
  }

  /** Encoded text never holds the query's own separators. */
  lemma {:induction false} EncodeIsClean(v: Bytes)
    ensures '&' !in Encode(v) && '=' !in Encode(v)
  {
    if v != [] {
      assert v == [v[0]] + v[1..];
      EncodeStep(v[0], v[1..]);
      EncodeIsClean(v[1..]);
      if !Unreserved(v[0]) {
        HexRoundTrip(v[0] as int / 16);
        HexRoundTrip(v[0] as int % 16);
      }
    }
  }

  /** How each byte is written: letters, digits and -_.!~*'() as they are, a space as a plus, and every
      other byte as a percent sign and its two hexadecimal digits in capitals. */
  lemma ByteText(b: byte)
    ensures var n := b as int;
      var kept := 48 <= n <= 57 || 65 <= n <= 90 || 97 <= n <= 122
        || n == 45 || n == 95 || n == 46 || n == 33 || n == 126 || n == 42 || n == 39 || n == 40 || n == 41;
      Encode([b]) == if kept then [n as char]
                     else if n == 32 then "+"
                     else ['%', "0123456789ABCDEF"[n / 16], "0123456789ABCDEF"[n % 16]]
  {
    EncodeStep(b, []);
    assert [b] + [] == [b];
  }

  /** A text is written byte by byte. */
  lemma EncodeHead(b: byte, rest: Bytes)
    ensures Encode([b] + rest) == Encode([b]) + Encode(rest)
  {
    EncodeStep(b, rest);
    EncodeStep(b, []);
    assert [b] + [] == [b];
  }

  // ---------- Sorting keys ----------

  predicate Below(a: Bytes, b: Bytes) {
    b != [] && (a == [] || a[0] < b[0] || (a[0] == b[0] && Below(a[1..], b[1..])))
  }

  lemma {:induction false} BelowTransitive(a: Bytes, b: Bytes, c: Bytes)
    requires Below(a, b) && Below(b, c)
    ensures Below(a, c)
  {
    if a != [] && a[0] == b[0] && b[0] == c[0] {
      BelowTransitive(a[1..], b[1..], c[1..]);
    }
  }

  lemma {:induction false} BelowTotal(a: Bytes, b: Bytes)
    ensures a == b || Below(a, b) || Below(b, a)
    ensures !(Below(a, b) && Below(b, a)) && !Below(a, a)
  {
    if a != [] && b != [] && a[0] == b[0] {
      assert a == [a[0]] + a[1..] && b == [b[0]] + b[1..];
      BelowTotal(a[1..], b[1..]);
    }
    if a != [] {
      BelowTotal(a[1..], a[1..]);
    }
  }

  ghost predicate Ascending(ks: seq<Bytes>) {
    forall i, j :: 0 <= i < j < |ks| ==> Below(ks[i], ks[j])
  }

  function Insert(k: Bytes, ks: seq<Bytes>): seq<Bytes> {
    if ks == [] || Below(k, ks[0]) then [k] + ks else [ks[0]] + Insert(k, ks[1..])
  }

  function SortKeys(ks: seq<Bytes>): seq<Bytes> {
    if ks == [] then [] else Insert(ks[0], SortKeys(ks[1..]))
  }

  function Elements<T>(s: seq<T>): set<T> {
    set x | x in s
  }

  lemma {:induction false} InsertSorted(k: Bytes, ks: seq<Bytes>)
    requires Ascending(ks) && k !in ks
    ensures Ascending(Insert(k, ks))
    ensures Elements(Insert(k, ks)) == Elements(ks) + {k}
  {
    if ks == [] {
    } else if Below(k, ks[0]) {
      forall j | 0 <= j < |ks| ensures Below(k, ks[j]) {
        if j > 0 {
          BelowTransitive(k, ks[0], ks[j]);
        }
      }
    } else {
      BelowTotal(k, ks[0]);
      var rest := Insert(k, ks[1..]);
      InsertSorted(k, ks[1..]);
      assert Elements(rest) == Elements(ks[1..]) + {k};
      forall j | 0 <= j < |rest| ensures Below(ks[0], rest[j]) {
        assert rest[j] in Elements(rest);
        if rest[j] != k {
          var m :| 0 <= m < |ks[1..]| && ks[1..][m] == rest[j];
          assert Below(ks[0], ks[m + 1]);
        }
      }
      assert Elements(ks) == {ks[0]} + Elements(ks[1..]);
      assert Elements([ks[0]] + rest) == {ks[0]} + Elements(rest);
    }
  }

  lemma {:induction false} SortKeysSorts(ks: seq<Bytes>)
    requires Distinct(ks)
    ensures Ascending(SortKeys(ks)) && Elements(SortKeys(ks)) == Elements(ks)
  {
    if ks != [] {
      SortKeysSorts(ks[1..]);
      assert ks[0] !in ks[1..];
      assert ks[0] !in SortKeys(ks[1..]) by {
        assert ks[0] !in Elements(ks[1..]);
      }
      InsertSorted(ks[0], SortKeys(ks[1..]));
      assert Elements(ks) == {ks[0]} + Elements(ks[1..]);
    }
  }

  /** `x` comes before `y` byte by byte: it is a proper beginning of it, or has the smaller byte where they
      first differ. */
  ghost predicate Before(x: Bytes, y: Bytes) {
    exists k: nat :: k <= |x| && k < |y| && x[..k] == y[..k] && (k == |x| || x[k] < y[k])
  }

  lemma {:induction false} BelowIff(x: Bytes, y: Bytes)
    ensures Below(x, y) <==> Before(x, y)
  {
    if x != [] && y != [] && x[0] == y[0] {
      BelowIff(x[1..], y[1..]);
      if Below(x[1..], y[1..]) {
        var k: nat :| k < |y| && k + 1 < |y| && k < |x| && x[1..][..k] == y[1..][..k]
          && (k == |x| - 1 || x[1..][k] < y[1..][k]);
        assert x[..k + 1] == [x[0]] + x[1..][..k] && y[..k + 1] == [y[0]] + y[1..][..k];
        assert k + 1 <= |x| && (k + 1 == |x| || x[k + 1] < y[k + 1]);
      }
      if Before(x, y) {
        var k: nat :| k <= |x| && k < |y| && x[..k] == y[..k] && (k == |x| || x[k] < y[k]);
        assert x[1..][..k - 1] == x[..k][1..] && y[1..][..k - 1] == y[..k][1..];
      }
    } else if x == [] && y != [] {
      assert x[..0] == y[..0];
    } else if x != [] && y != [] {
      if Before(x, y) {
        var k: nat :| k <= |x| && k < |y| && x[..k] == y[..k] && (k == |x| || x[k] < y[k]);
        assert k == 0;
      }
      assert x[..0] == y[..0];
    }
  }

  /** The parameters are signed in the byte order of their names. */
  lemma KeysInByteOrder(ks: seq<Bytes>, i: nat, j: nat)
    requires Distinct(ks) && i < j < |SortKeys(ks)|
    ensures Before(SortKeys(ks)[i], SortKeys(ks)[j])
  {
    SortKeysSorts(ks);
    BelowIff(SortKeys(ks)[i], SortKeys(ks)[j]);
  }

  /** A set of keys has one ascending listing. */
  lemma {:induction false} AscendingUnique(a: seq<Bytes>, b: seq<Bytes>)
    requires Ascending(a) && Ascending(b) && Elements(a) == Elements(b)
    ensures a == b
  {
    NoElements(a);
    NoElements(b);
    if a != [] {
      SameHead(a, b);
      assert Elements(a[1..]) == Elements(a) - {a[0]} by { TailElements(a); }
      assert Elements(b[1..]) == Elements(b) - {b[0]} by { TailElements(b); }
      AscendingUnique(a[1..], b[1..]);
    }
  }

  lemma NoElements(a: seq<Bytes>)
    ensures Elements(a) == {} <==> a == []
  {
    if a != [] {
      assert a[0] in Elements(a);
    }
  }

  lemma TailElements(a: seq<Bytes>)
    requires a != [] && Ascending(a)
    ensures Elements(a[1..]) == Elements(a) - {a[0]}
  {
    forall i | 1 <= i < |a| ensures a[i] != a[0] {
      BelowTotal(a[0], a[i]);
    }
    forall k | k in Elements(a) && k != a[0] ensures k in Elements(a[1..]) {
      var i :| 0 <= i < |a| && a[i] == k;
      assert a[1..][i - 1] == k;
    }
  }

  lemma SameHead(a: seq<Bytes>, b: seq<Bytes>)
    requires a != [] && b != [] && Ascending(a) && Ascending(b) && Elements(a) == Elements(b)
    ensures a[0] == b[0]
  {
    assert a[0] in Elements(b) && b[0] in Elements(a);
    var i :| 0 <= i < |b| && b[i] == a[0];
    var j :| 0 <= j < |a| && a[j] == b[0];
    BelowTotal(a[0], b[0]);
  }

  // ---------- The query ----------

  /** An enumeration of the parameters' keys, as a JavaScript object would list them. */
  ghost predicate Lists(order: seq<Bytes>, params: Params) {
    Distinct(order) && Elements(order) == params.Keys
  }

  function Pairs(params: Params, keys: seq<Bytes>): seq<string>
    requires forall i :: 0 <= i < |keys| ==> keys[i] in params
  {
    seq(|keys|, i requires 0 <= i < |keys| => Encode(keys[i]) + "=" + Encode(params[keys[i]]))
  }

  function Query(params: Params, order: seq<Bytes>): string
    requires Lists(order, params)
  {
    SortKeysSorts(order);
    assert forall i :: 0 <= i < |SortKeys(order)| ==> SortKeys(order)[i] in Elements(SortKeys(order));
    Join(Pairs(params, SortKeys(order)), "&")
  }

  /** The query does not depend on the order in which the parameters were given. */
  lemma QueryIgnoresOrder(params: Params, order: seq<Bytes>, order': seq<Bytes>)
    requires Lists(order, params) && Lists(order', params)
    ensures Query(params, order) == Query(params, order')
  {
    SortKeysSorts(order);
    SortKeysSorts(order');
    AscendingUnique(SortKeys(order), SortKeys(order'));
  }

  lemma TwoSorted(a: Bytes, b: Bytes)
    requires Below(a, b)
    ensures SortKeys([b, a]) == [a, b]
  {
    assert [b, a][1..] == [a] && [a][1..] == [];
    BelowTotal(a, b);
    assert SortKeys([a]) == [a];
    assert Insert(b, [a]) == [a] + Insert(b, []);
  }

  lemma JoinTwo(x: string, y: string)
    ensures Join([x, y], "&") == x + "&" + y
  {
    assert [x, y][1..] == [y];
  }

  /** A whole query: names and values are escaped and joined by "=", the pairs by "&", the name that comes
      first in byte order in front. */
  lemma QueryOfTwo(a: Bytes, b: Bytes, x: Bytes, y: Bytes)
    requires Before(a, b)
    ensures Lists([b, a], map[a := x, b := y])
    ensures Query(map[a := x, b := y], [b, a])
      == Encode(a) + "=" + Encode(x) + "&" + (Encode(b) + "=" + Encode(y))
  {
    BelowIff(a, b);
    BelowTotal(a, b);
    TwoSorted(a, b);
    assert Elements([b, a]) == {a, b} by {
      assert [b, a][0] == b && [b, a][1] == a;
    }
    assert Pairs(map[a := x, b := y], [a, b]) == [Encode(a) + "=" + Encode(x), Encode(b) + "=" + Encode(y)];
    JoinTwo(Encode(a) + "=" + Encode(x), Encode(b) + "=" + Encode(y));
  }

  /** For example a=1&b=2. */
  lemma SmallQuery()
    ensures Lists([[98], [97]], map[[97] := [49], [98] := [50]])
    ensures Query(map[[97] := [49], [98] := [50]], [[98], [97]]) == "a=1&b=2"
  {
    var a: Bytes, b: Bytes := [97], [98];
    assert a[..0] == b[..0];
    QueryOfTwo(a, b, [49], [50]);
    ByteText(97);
    ByteText(98);
    ByteText(49);
    ByteText(50);
  }

  function ParsePair(piece: string): Option<(Bytes, Bytes)> {
    var kv := Split(piece, '=');
    if |kv| != 2 then None
    else
      match (Decode(kv[0]), Decode(kv[1]))
      case (Some(k), Some(v)) => Some((k, v))
      case _ => None
  }

  function ParsePairs(pieces: seq<string>): Option<Params> {
    if pieces == [] then Some(map[])
    else
      match (ParsePairs(pieces[..|pieces| - 1]), ParsePair(pieces[|pieces| - 1]))
      case (Some(m), Some(kv)) => Some(m[kv.0 := kv.1])
      case _ => None
  }

  /** Reads a query back into parameters. */
  function ParseQuery(query: string): Option<Params> {
    if query == "" then Some(map[]) else ParsePairs(Split(query, '&'))
  }

  lemma PairRoundTrip(k: Bytes, v: Bytes)
    ensures ParsePair(Encode(k) + "=" + Encode(v)) == Some((k, v))
    ensures '&' !in Encode(k) + "=" + Encode(v)
  {
    EncodeIsClean(k);
    EncodeIsClean(v);
    DecodeUndoesEncode(k);
    DecodeUndoesEncode(v);
    SplitFirst(Encode(k), Encode(v), '=');
    SplitPiece(Encode(v), '=');
  }

  function Only(params: Params, keys: seq<Bytes>): Params {
    map k | k in Elements(keys) && k in params :: params[k]
  }

  lemma OnlyGrows(params: Params, keys: seq<Bytes>, k: Bytes)
    requires k in params
    ensures Only(params, keys + [k]) == Only(params, keys)[k := params[k]]
  {
    assert Elements(keys + [k]) == Elements(keys) + {k};
  }

  /** Pieces that parse to these parameters one by one parse to all of them. */
  lemma {:induction false} PiecesParse(pieces: seq<string>, params: Params, keys: seq<Bytes>)
    requires |pieces| == |keys|
    requires forall i :: 0 <= i < |keys| ==>
      keys[i] in params && ParsePair(pieces[i]) == Some((keys[i], params[keys[i]]))
    ensures ParsePairs(pieces) == Some(Only(params, keys))
  {
    if keys == [] {
      assert Only(params, keys) == map[];
    } else {
      var n := |keys| - 1;
      PiecesParse(pieces[..n], params, keys[..n]);
      OnlyGrows(params, keys[..n], keys[n]);
      assert keys[..n] + [keys[n]] == keys;
    }
  }

  lemma PairsRoundTrip(params: Params, keys: seq<Bytes>)
    requires forall i :: 0 <= i < |keys| ==> keys[i] in params
    ensures ParsePairs(Pairs(params, keys)) == Some(Only(params, keys))
  {
    forall i | 0 <= i < |keys| ensures ParsePair(Pairs(params, keys)[i]) == Some((keys[i], params[keys[i]])) {
      PairRoundTrip(keys[i], params[keys[i]]);
    }
    PiecesParse(Pairs(params, keys), params, keys);
  }

  /** Reading the query gives the parameters back, so it is injective. */
  lemma ParseUndoesQuery(params: Params, order: seq<Bytes>)
    requires Lists(order, params)
    ensures ParseQuery(Query(params, order)) == Some(params)
  {
    var keys := SortKeys(order);
    SortKeysSorts(order);
    assert forall i :: 0 <= i < |keys| ==> keys[i] in Elements(keys);
    PairsRoundTrip(params, keys);
    assert Only(params, keys) == params;
    var pairs := Pairs(params, keys);
    if keys != [] {
      forall i | 0 <= i < |pairs| ensures '&' !in pairs[i] && pairs[i] != "" {
        PairRoundTrip(keys[i], params[keys[i]]);
      }
      SplitUndoesJoin(pairs, '&');
      JoinNonEmpty(pairs);
    }
  }

  lemma JoinNonEmpty(pieces: seq<string>)
    requires pieces != [] && pieces[0] != ""
    ensures Join(pieces, "&") != ""
  {
  }

  lemma QueryInjective(p: Params, p': Params, order: seq<Bytes>, order': seq<Bytes>)
    requires Lists(order, p) && Lists(order', p')
    ensures Query(p, order) == Query(p', order') <==> p == p'
  {
    ParseUndoesQuery(p, order);
    ParseUndoesQuery(p', order');
    if p == p' {
      QueryIgnoresOrder(p, order, order');
    }
  }

  // ---------- Signing and verifying ----------

  function Ascii(s: string): Bytes
    requires forall i :: 0 <= i < |s| ==> s[i] as int < 128
  {
    seq(|s|, i requires 0 <= i < |s| => s[i] as int as byte)
  }

  const HASH_KEY := Ascii("vnp_SecureHash")
  const TYPE_KEY := Ascii("vnp_SecureHashType")

  function LowerBytes(v: Bytes): Bytes {
    seq(|v|, i requires 0 <= i < |v| => if 'A' as int <= v[i] as int <= 'Z' as int then v[i] + 32 else v[i])
  }

  function Rest(params: Params): Params {
    params - {HASH_KEY, TYPE_KEY}
  }

  function RestOrder(order: seq<Bytes>): seq<Bytes> {
    if order == [] then []
    else
      var n := |order| - 1;
      if order[n] == HASH_KEY || order[n] == TYPE_KEY then RestOrder(order[..n])
      else RestOrder(order[..n]) + [order[n]]
  }

  lemma {:induction false} RestOrderLists(order: seq<Bytes>)
    requires Distinct(order)
    ensures Distinct(RestOrder(order))
    ensures Elements(RestOrder(order)) == Elements(order) - {HASH_KEY, TYPE_KEY}
  {
    if order != [] {
      var n := |order| - 1;
      RestOrderLists(order[..n]);
      var rest := RestOrder(order[..n]);
      assert order[n] !in Elements(rest);
      assert forall i :: 0 <= i < |rest| ==> rest[i] in Elements(rest);
      assert Elements(order) == Elements(order[..n]) + {order[n]};
      assert Elements(rest + [order[n]]) == Elements(rest) + {order[n]};
    }
  }

  /** A keyed digest, of which nothing is assumed. */
  type Hmac = (Bytes, string) -> Bytes

  function Sign(params: Params, order: seq<Bytes>, secret: Bytes, hmac: Hmac): Bytes
    requires Lists(order, params)
  {
    hmac(secret, Query(params, order))
  }

  ghost predicate Verifies(params: Params, order: seq<Bytes>, secret: Bytes, hmac: Hmac)
    requires Lists(order, params)
  {
    RestOrderLists(order);
    && secret != []
    && LowerBytes(if HASH_KEY in params then params[HASH_KEY] else [])
       == LowerBytes(Sign(Rest(params), RestOrder(order), secret, hmac))
  }

  /** The callback check: copy every parameter but the two signature ones, sign again, compare. */
  method VerifyReturn(params: Params, order: seq<Bytes>, secret: Bytes, hmac: Hmac) returns (ok: bool)
    requires Lists(order, params)
    ensures ok == Verifies(params, order, secret, hmac)
  {
    if secret == [] {
      return false;
    }
    var received := if HASH_KEY in params then params[HASH_KEY] else [];
    var rest: Params, kept: seq<Bytes> := map[], [];
    for i := 0 to |order|
      invariant kept == RestOrder(order[..i]) && rest == Only(params, kept)
    {
      assert order[..i + 1][..i] == order[..i];
      assert order[i] in Elements(order);
      if order[i] != HASH_KEY && order[i] != TYPE_KEY {
        OnlyGrows(params, kept, order[i]);
        rest := rest[order[i] := params[order[i]]];
        kept := kept + [order[i]];
      }
    }
    assert order[..|order|] == order;
    RestOrderLists(order);
    assert rest == Rest(params);
    var hash := Sign(rest, kept, secret, hmac);
    return LowerBytes(received) == LowerBytes(hash);
  }

  /** Whatever was signed is accepted back, in any parameter order, with or without the hash type. */
  lemma SignedIsAccepted(
    params: Params, order: seq<Bytes>, hashType: Option<Bytes>, order': seq<Bytes>, secret: Bytes, hmac: Hmac)
    requires Lists(order, params) && HASH_KEY !in params && TYPE_KEY !in params && secret != []
    requires var signed := params[HASH_KEY := Sign(params, order, secret, hmac)];
      Lists(order', if hashType.Some? then signed[TYPE_KEY := hashType.value] else signed)
    ensures var signed := params[HASH_KEY := Sign(params, order, secret, hmac)];
      Verifies(if hashType.Some? then signed[TYPE_KEY := hashType.value] else signed, order', secret, hmac)
  {
    var signed := params[HASH_KEY := Sign(params, order, secret, hmac)];
    var sent := if hashType.Some? then signed[TYPE_KEY := hashType.value] else signed;
    assert |HASH_KEY| != |TYPE_KEY|;
    assert Rest(sent) == params;
    RestOrderLists(order');
    QueryIgnoresOrder(params, order, RestOrder(order'));
  }

  /** Without a secret nothing is accepted. */
  lemma NoSecretNoCallback(params: Params, order: seq<Bytes>, hmac: Hmac)
    requires Lists(order, params)
    ensures !Verifies(params, order, [], hmac)
  {
  }

  /** The letter case of the received signature does not matter. */
  lemma SignatureCaseIgnored(params: Params, order: seq<Bytes>, hash: Bytes, secret: Bytes, hmac: Hmac)
    requires Lists(order, params) && HASH_KEY in params && Lists(order, params[HASH_KEY := hash])
    requires |hash| == |params[HASH_KEY]|
    requires forall i :: 0 <= i < |hash| ==>
      || hash[i] == params[HASH_KEY][i]
      || (97 <= hash[i] as int <= 122 && params[HASH_KEY][i] as int == hash[i] as int - 32)
    ensures Verifies(params[HASH_KEY := hash], order, secret, hmac) <==> Verifies(params, order, secret, hmac)
  {
    assert Rest(params[HASH_KEY := hash]) == Rest(params);
    assert LowerBytes(hash) == LowerBytes(params[HASH_KEY]);
  }

  /** The two parameters that are not signed. */
  lemma UnsignedNames()
    ensures AsText(HASH_KEY) == "vnp_SecureHash" && AsText(TYPE_KEY) == "vnp_SecureHashType"
  {
    AsciiText("vnp_SecureHash");
    AsciiText("vnp_SecureHashType");
  }

  /** Under one secret, different queries have different digests, whatever the letter case. */
  ghost predicate CollisionFree(secret: Bytes, hmac: Hmac) {
    forall q, q' :: LowerBytes(hmac(secret, q)) == LowerBytes(hmac(secret, q')) ==> q == q'
  }

  /** If the digest has no collisions, a signature fits one set of parameters only: a callback that
      carries the signature of `params` is accepted exactly when its other parameters are `params`. */
  lemma SignatureBindsParams(
    params: Params, order: seq<Bytes>, sent: Params, order': seq<Bytes>, secret: Bytes, hmac: Hmac)
    requires Lists(order, params) && Lists(order', sent) && secret != [] && CollisionFree(secret, hmac)
    requires HASH_KEY in sent && sent[HASH_KEY] == Sign(params, order, secret, hmac)
    ensures Verifies(sent, order', secret, hmac) <==> Rest(sent) == params
  {
    RestOrderLists(order');
    QueryInjective(params, Rest(sent), order, RestOrder(order'));
  }

  // ---------- The payment link ----------

  function AsText(v: Bytes): string {
    seq(|v|, i requires 0 <= i < |v| => v[i] as int as char)
  }

  predicate Plain(v: Bytes) {
    forall i :: 0 <= i < |v| ==> Unreserved(v[i]) && v[i] != SPACE
  }

  lemma {:induction false} EncodePlain(v: Bytes)
    requires Plain(v)
    ensures Encode(v) == AsText(v)
  {
    if v != [] {
      assert v == [v[0]] + v[1..];
      EncodeStep(v[0], v[1..]);
      EncodePlain(v[1..]);
      assert AsText(v) == [v[0] as int as char] + AsText(v[1..]);
    }
  }

  const HASH_PARAM := "&vnp_SecureHash="

  /** What follows the question mark of a payment link. */
  function LinkQuery(params: Params, order: seq<Bytes>, secret: Bytes, hmac: Hmac): string
    requires Lists(order, params)
  {
    Query(params, order) + HASH_PARAM + AsText(Sign(params, order, secret, hmac))
  }

  lemma {:induction false} JoinAppend(pieces: seq<string>, last: string)
    requires pieces != []
    ensures Join(pieces + [last], "&") == Join(pieces, "&") + "&" + last
  {
    if |pieces| == 1 {
      assert (pieces + [last])[1..] == [last];
    } else {
      assert (pieces + [last])[1..] == pieces[1..] + [last];
      JoinAppend(pieces[1..], last);
    }
  }

  lemma AsciiText(s: string)
    requires forall i :: 0 <= i < |s| ==> s[i] as int < 128
    ensures AsText(Ascii(s)) == s
  {
    forall i | 0 <= i < |s| ensures AsText(Ascii(s))[i] == s[i] {
      assert Ascii(s)[i] as int == s[i] as int;
    }
  }

  predicate NameChar(c: char) {
    'A' <= c <= 'Z' || 'a' <= c <= 'z' || c == '_'
  }

  lemma PlainName(name: string)
    requires forall i :: 0 <= i < |name| ==> name[i] as int < 128
    requires forall i :: 0 <= i < |name| ==> NameChar(name[i])
    ensures Plain(Ascii(name)) && Encode(Ascii(name)) == name
  {
    var v := Ascii(name);
    forall i | 0 <= i < |v| ensures Unreserved(v[i]) && v[i] != SPACE {
      assert v[i] as int == name[i] as int && NameChar(name[i]);
    }
    EncodePlain(v);
    AsciiText(name);
  }

  lemma HashKeyText()
    ensures Encode(HASH_KEY) == "vnp_SecureHash"
  {
    var name := "vnp_SecureHash";
    assert NameChar(name[0]) && NameChar(name[1]) && NameChar(name[2]) && NameChar(name[3]) && NameChar(name[4]);
    assert NameChar(name[5]) && NameChar(name[6]) && NameChar(name[7]) && NameChar(name[8]) && NameChar(name[9]);
    assert NameChar(name[10]) && NameChar(name[11]) && NameChar(name[12]) && NameChar(name[13]);
    PlainName(name);
  }

  /** The gateway reads back from a link exactly the parameters and their signature, provided the digest
      is printed in plain characters, as hexadecimal is; and what it reads verifies. */
  lemma LinkCarriesParams(params: Params, order: seq<Bytes>, order': seq<Bytes>, secret: Bytes, hmac: Hmac)
    requires Lists(order, params) && params != map[] && HASH_KEY !in params && TYPE_KEY !in params
    requires secret != [] && Plain(Sign(params, order, secret, hmac))
    requires Lists(order', params[HASH_KEY := Sign(params, order, secret, hmac)])
    ensures ParseQuery(LinkQuery(params, order, secret, hmac))
      == Some(params[HASH_KEY := Sign(params, order, secret, hmac)])
    ensures Verifies(params[HASH_KEY := Sign(params, order, secret, hmac)], order', secret, hmac)
  {
    var hash, keys := Sign(params, order, secret, hmac), SortKeys(order);
    SortKeysSorts(order);
    NoElements(keys);
    assert forall i :: 0 <= i < |keys| ==> keys[i] in Elements(keys);
    LinkText(params, keys, hash);
    LinkParses(params, keys, Encode(HASH_KEY) + "=" + Encode(hash), hash);
    SignedIsAccepted(params, order, None, order', secret, hmac);
  }

  lemma LinkText(params: Params, keys: seq<Bytes>, hash: Bytes)
    requires keys != [] && (forall i :: 0 <= i < |keys| ==> keys[i] in params) && Plain(hash)
    ensures Join(Pairs(params, keys), "&") + HASH_PARAM + AsText(hash)
      == Join(Pairs(params, keys) + [Encode(HASH_KEY) + "=" + Encode(hash)], "&")
  {
    HashKeyText();
    EncodePlain(hash);
    JoinAppend(Pairs(params, keys), Encode(HASH_KEY) + "=" + Encode(hash));
    Glue(Join(Pairs(params, keys), "&"), AsText(hash));
  }

  lemma Glue(query: string, hash: string)
    ensures query + HASH_PARAM + hash == query + "&" + ("vnp_SecureHash" + "=" + hash)
  {
    assert HASH_PARAM == "&" + "vnp_SecureHash" + "=";
  }

  lemma LinkParses(params: Params, keys: seq<Bytes>, last: string, hash: Bytes)
    requires keys != [] && Elements(keys) == params.Keys && forall i :: 0 <= i < |keys| ==> keys[i] in params
    requires last == Encode(HASH_KEY) + "=" + Encode(hash)
    ensures ParseQuery(Join(Pairs(params, keys) + [last], "&")) == Some(params[HASH_KEY := hash])
  {
    var pairs := Pairs(params, keys);
    var all := pairs + [last];
    PairRoundTrip(HASH_KEY, hash);
    forall i | 0 <= i < |all| ensures '&' !in all[i] && all[i] != "" {
      if i < |keys| {
        PairRoundTrip(keys[i], params[keys[i]]);
      }
    }
    SplitUndoesJoin(all, '&');
    JoinNonEmpty(all);
    PairsRoundTrip(params, keys);
    assert Only(params, keys) == params;
    assert all[..|all| - 1] == pairs;
  }
}
