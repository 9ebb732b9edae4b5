/** Contact matching: one Vietnamese mobile number has many spellings. */
module Phone {
  import opened Prelude
  import opened Text

  predicate IsSeparator(c: char) {
    IsSpace(c) || c == '.' || c == '-' || c == '(' || c == ')'
  }

  function Strip(s: string): string {
    Remove(s, IsSeparator)
  }

  predicate AllDigits(s: string) {
    forall i :: 0 <= i < |s| ==> IsDigit(s[i])
  }

  /** A canonical mobile number: ten digits, starting 03, 05, 07, 08 or 09. */
  predicate IsMobile(s: string) {
    |s| == 10 && AllDigits(s) && s[0] == '0'
    && (s[1] == '3' || s[1] == '5' || s[1] == '7' || s[1] == '8' || s[1] == '9')
  }

  function LocalForm(s: string): string {
    if StartsWith(s, "+84") then "0" + s[3..]
    else if StartsWith(s, "0084") then "0" + s[4..]
    else if StartsWith(s, "84") && |s| == 11 then "0" + s[2..]
    else s
  }

  function NormalizeVnPhone(raw: string): Option<string> {
    var s := Trim(raw);
    if s == "" then None
    else
      var local := LocalForm(Strip(s));
      if IsMobile(local) then Some(local) else None
  }

  predicate SameContact(a: string, b: string) {
    var x, y := Trim(a), Trim(b);
    x != "" && y != "" &&
    match (NormalizeVnPhone(x), NormalizeVnPhone(y))
    case (Some(px), Some(py)) => px == py
    case _ => Lower(x) == Lower(y)
  }

  // ---------- Spellings ----------

  /** The ways of writing a canonical number once separators are gone. */
  predicate IsSpelling(s: string, mobile: string)
    requires |mobile| > 0
  {
    s == mobile || s == "+84" + mobile[1..] || s == "84" + mobile[1..] || s == "0084" + mobile[1..]
  }

  lemma {:induction false} StripTrimLeft(s: string)
    ensures Strip(TrimLeft(s)) == Strip(s)
  {
    if s != "" && IsSpace(s[0]) {
      StripTrimLeft(s[1..]);
    }
  }

  lemma {:induction false} StripTrimRight(s: string)
    ensures Strip(TrimRight(s)) == Strip(s)
  {
    if s != "" && IsSpace(s[|s| - 1]) {
      var n := |s| - 1;
      StripTrimRight(s[..n]);
      assert s[..n] + [s[n]] == s;
      RemoveSplit(s[..n], [s[n]], IsSeparator);
      assert [s[n]][1..] == "";
    }
  }

  lemma StripTrim(s: string)
    ensures Strip(Trim(s)) == Strip(s)
  {
    StripTrimLeft(s);
    StripTrimRight(TrimLeft(s));
  }

  lemma AfterPrefix(prefix: string, s: string)
    requires prefix <= s
    ensures s == prefix + s[|prefix|..]
  {
  }

  lemma BeforeSuffix(prefix: string, suffix: string)
    ensures (prefix + suffix)[|prefix|..] == suffix
  {
  }

  lemma LocalFormSpellings(s: string, mobile: string)
    requires IsMobile(mobile)
    ensures LocalForm(s) == mobile <==> IsSpelling(s, mobile)
  {
    var tail := mobile[1..];
    assert "0" + tail == mobile;
    if LocalForm(s) == mobile {
      assert LocalForm(s)[1..] == tail;
      if StartsWith(s, "+84") {
        AfterPrefix("+84", s);
        BeforeSuffix("0", s[3..]);
      } else if StartsWith(s, "0084") {
        AfterPrefix("0084", s);
        BeforeSuffix("0", s[4..]);
      } else if StartsWith(s, "84") && |s| == 11 {
        AfterPrefix("84", s);
        BeforeSuffix("0", s[2..]);
      }
    }
    if s == "+84" + tail {
      BeforeSuffix("+84", tail);
    } else if s == "84" + tail {
      BeforeSuffix("84", tail);
      assert s[0] == '8';
    } else if s == "0084" + tail {
      BeforeSuffix("0084", tail);
      assert s[0] == '0';
    } else if s == mobile {
      assert s[0] == '0' && s[1] != '0';
    }
  }

  /** A text normalises to a number exactly when, with its separators removed, it is one of the four
      spellings of that number. */
  lemma NormalizesIff(raw: string, mobile: string)
    requires IsMobile(mobile)
    ensures NormalizeVnPhone(raw) == Some(mobile) <==> IsSpelling(Strip(raw), mobile)
  {
    StripTrim(raw);
    LocalFormSpellings(Strip(raw), mobile);
  }

  lemma {:induction false} StripKeeps(s: string)
    requires forall i :: 0 <= i < |s| ==> !IsSeparator(s[i])
    ensures Strip(s) == s
  {
    if s != "" {
      StripKeeps(s[1..]);
    }
  }

  /** What separators are: white space, full stops, dashes and round brackets. They go, wherever they stand,
      and every other character stays. */
  lemma StripIs(a: string, c: char, b: string)
    ensures var separator := c == ' ' || 9 <= c as int <= 13 || c == '.' || c == '-' || c == '(' || c == ')';
      Strip(a + [c] + b) == Strip(a) + (if separator then "" else [c]) + Strip(b)
    ensures Strip("") == ""
  {
    RemoveSplit(a + [c], b, IsSeparator);
    RemoveSplit(a, [c], IsSeparator);
    assert [c][1..] == "";
  }

  /** What is a number: ten digits, the first 0 and the second 3, 5, 7, 8 or 9; written, separators aside,
      like that or with the country code +84, 84 or 0084 in place of the leading zero. Nothing else is. */
  lemma NumberIff(raw: string, m: string)
    ensures NormalizeVnPhone(raw) == Some(m) <==>
      && |m| == 10 && (forall i :: 0 <= i < 10 ==> '0' <= m[i] <= '9')
      && m[0] == '0' && (m[1] == '3' || m[1] == '5' || m[1] == '7' || m[1] == '8' || m[1] == '9')
      && var bare := Strip(raw);
      (bare == m || bare == "+84" + m[1..] || bare == "84" + m[1..] || bare == "0084" + m[1..])
  {
    if IsMobile(m) {
      NormalizesIff(raw, m);
    }
  }

  lemma NormalizeIdempotent(raw: string)
    requires NormalizeVnPhone(raw).Some?
    ensures NormalizeVnPhone(NormalizeVnPhone(raw).value) == NormalizeVnPhone(raw)
  {
    var mobile := NormalizeVnPhone(raw).value;
    StripKeeps(mobile);
    NormalizesIff(mobile, mobile);
  }

  // ---------- Same contact ----------

  /** Letter-free text is determined by its lower-case form. */
  lemma LowerFixes(a: string, b: string)
    requires forall i :: 0 <= i < |a| ==> !('a' <= a[i] <= 'z') && !('A' <= a[i] <= 'Z')
    requires Lower(a) == Lower(b)
    ensures a == b
  {
    assert |a| == |b|;
    forall i | 0 <= i < |a| ensures a[i] == b[i] {
      assert Lower(a)[i] == LowerChar(a[i]) && Lower(b)[i] == LowerChar(b[i]);
    }
  }

  lemma {:induction false} StripMembers(s: string, c: char)
    requires c in s && !IsSeparator(c)
    ensures c in Strip(s)
  {
    if s[0] != c {
      assert c in s[1..];
      StripMembers(s[1..], c);
    }
  }

  /** A text that normalises to a number holds no letters. */
  lemma PhonesHaveNoLetters(s: string)
    requires NormalizeVnPhone(s).Some?
    ensures forall i :: 0 <= i < |s| ==> !('a' <= s[i] <= 'z') && !('A' <= s[i] <= 'Z')
  {
    var mobile := NormalizeVnPhone(s).value;
    NormalizesIff(s, mobile);
    assert forall c :: c in mobile[1..] ==> IsDigit(c);
    forall i | 0 <= i < |s| && !IsSeparator(s[i]) ensures IsDigit(s[i]) || s[i] == '+' {
      StripMembers(s, s[i]);
    }
  }

  /** Texts equal up to case agree on whether, and to what, they normalise. */
  lemma CaseDoesNotMatter(x: string, y: string)
    requires Lower(x) == Lower(y)
    ensures NormalizeVnPhone(x) == NormalizeVnPhone(y)
  {
    if NormalizeVnPhone(x).Some? {
      PhonesHaveNoLetters(x);
      LowerFixes(x, y);
    } else if NormalizeVnPhone(y).Some? {
      PhonesHaveNoLetters(y);
      LowerFixes(y, x);
    }
  }

  /** Two contacts are the same exactly when neither is blank and either they are the same text, blanks
      around it and letter case aside, or both are spellings of one number. */
  lemma SameContactIff(a: string, b: string)
    ensures SameContact(a, b) <==>
      && !Blank(a) && !Blank(b)
      && (|| Lower(Trim(a)) == Lower(Trim(b))
          || (NormalizeVnPhone(a).Some? && NormalizeVnPhone(a) == NormalizeVnPhone(b)))
  {
    TrimEmptyIff(a);
    TrimEmptyIff(b);
    NormalizeTrimmed(a);
    NormalizeTrimmed(b);
    if Lower(Trim(a)) == Lower(Trim(b)) {
      CaseDoesNotMatter(Trim(a), Trim(b));
    }
  }

  lemma NormalizeTrimmed(raw: string)
    ensures NormalizeVnPhone(Trim(raw)) == NormalizeVnPhone(raw)
  {
    StripTrim(raw);
    StripTrim(Trim(raw));
    forall m | IsMobile(m) ensures NormalizeVnPhone(raw) == Some(m) <==> NormalizeVnPhone(Trim(raw)) == Some(m) {
      NormalizesIff(raw, m);
      NormalizesIff(Trim(raw), m);
    }
  }

  /** On texts that are not blank, sameContact is reflexive, symmetric and transitive. */
  lemma SameContactIsEquivalence(a: string, b: string, c: string)
    ensures Trim(a) != "" ==> SameContact(a, a)
    ensures SameContact(a, b) ==> SameContact(b, a)
    ensures SameContact(a, b) && SameContact(b, c) ==> SameContact(a, c)
  {
    var x, y, z := Trim(a), Trim(b), Trim(c);
    if SameContact(a, b) && SameContact(b, c) {
      if Lower(x) == Lower(y) {
        CaseDoesNotMatter(x, y);
      }
      if Lower(y) == Lower(z) {
        CaseDoesNotMatter(y, z);
      }
    }
  }

  /** Two spellings of one number, with separators anywhere, are the same contact. */
  lemma SpellingsMatch(a: string, b: string, mobile: string)
    requires IsMobile(mobile)
    requires IsSpelling(Strip(a), mobile) && IsSpelling(Strip(b), mobile)
    ensures SameContact(a, b)
  {
    StripTrim(a);
    StripTrim(b);
    NormalizesIff(Trim(a), mobile);
    NormalizesIff(Trim(b), mobile);
  }
}
