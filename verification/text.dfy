/** String helpers shared by the worker and the backend handlers: substring search
    (JavaScript `includes`, SQL `LIKE '%x%'`), Python's `split(',')[0]` and `strip()`. */
module Text {

  /** `sub` occurs in `s` at position `i`. */
  ghost predicate OccursAt(s: string, sub: string, i: int) {
    0 <= i && i + |sub| <= |s| && s[i..i + |sub|] == sub
  }

  /** Substring containment, computed by sliding `sub` along `s`. */
  predicate Contains(s: string, sub: string)
    decreases |s|
  {
    sub <= s || (|s| > 0 && Contains(s[1..], sub))
  }

  /** `Contains` holds exactly when `sub` occurs somewhere in `s`. */
  lemma ContainsIff(s: string, sub: string)
    ensures Contains(s, sub) <==> exists i :: OccursAt(s, sub, i)
  {
    if Contains(s, sub) {
      ContainsOccurs(s, sub);
    }
    if i :| OccursAt(s, sub, i) {
      OccursContains(s, sub, i);
    }
  }

  lemma {:induction false} ContainsOccurs(s: string, sub: string)
    requires Contains(s, sub)
    ensures exists i :: OccursAt(s, sub, i)
    decreases |s|
  {
    if sub <= s {
      assert s[0..|sub|] == sub;
      assert OccursAt(s, sub, 0);
    } else {
      ContainsOccurs(s[1..], sub);
      var i :| OccursAt(s[1..], sub, i);
      assert s[1..][i..i + |sub|] == s[i + 1..i + 1 + |sub|];
      assert OccursAt(s, sub, i + 1);
    }
  }

  lemma {:induction false} OccursContains(s: string, sub: string, i: int)
    requires OccursAt(s, sub, i)
    ensures Contains(s, sub)
    decreases i
  {
    if i == 0 {
      assert s[..|sub|] == sub;
    } else {
      assert s[1..][i - 1..i - 1 + |sub|] == s[i..i + |sub|];
      OccursContains(s[1..], sub, i - 1);
    }
  }

  /** The characters Python's `str.isspace` accepts. */
  predicate IsSpace(c: char) {
    c in {' ', '\U{0009}', '\U{000A}', '\U{000D}', '\U{000B}', '\U{000C}', '\U{001C}', '\U{001D}',
          '\U{001E}', '\U{001F}', '\U{0085}', '\U{00A0}', '\U{1680}', '\U{2000}', '\U{2001}', '\U{2002}',
          '\U{2003}', '\U{2004}', '\U{2005}', '\U{2006}', '\U{2007}', '\U{2008}', '\U{2009}', '\U{200A}',
          '\U{2028}', '\U{2029}', '\U{202F}', '\U{205F}', '\U{3000}'}
  }

  function TrimStart(s: string): (r: string)
    ensures |r| <= |s| && r == s[|s| - |r|..]
    ensures |r| > 0 ==> !IsSpace(r[0])
    ensures forall i :: 0 <= i < |s| - |r| ==> IsSpace(s[i])
    decreases |s|
  {
    if |s| > 0 && IsSpace(s[0]) then TrimStart(s[1..]) else s
  }

  function TrimEnd(s: string): (r: string)
    ensures |r| <= |s| && r == s[..|r|]
    ensures |r| > 0 ==> !IsSpace(r[|r| - 1])
    ensures forall i :: |r| <= i < |s| ==> IsSpace(s[i])
    decreases |s|
  {
    if |s| > 0 && IsSpace(s[|s| - 1]) then TrimEnd(s[..|s| - 1]) else s
  }

  /** How many whitespace characters `s` begins with. */
  function LeadingSpaces(s: string): (n: nat)
    ensures n <= |s| && forall i :: 0 <= i < n ==> IsSpace(s[i])
    ensures n < |s| ==> !IsSpace(s[n])
  {
    |s| - |TrimStart(s)|
  }

  /** Python's `s.strip()`: `s` with its leading and trailing whitespace cut off. The result is
      the slice of `s` after its leading whitespace, it neither starts nor ends in whitespace,
      and it is empty exactly when `s` is all whitespace. */
  function Strip(s: string): (r: string)
    ensures LeadingSpaces(s) + |r| <= |s| && r == s[LeadingSpaces(s)..LeadingSpaces(s) + |r|]
    ensures |r| > 0 ==> !IsSpace(r[0]) && !IsSpace(r[|r| - 1])
    ensures (forall i :: 0 <= i < |s| ==> IsSpace(s[i])) <==> r == ""
  {
    StripFacts(s);
    TrimEnd(TrimStart(s))
  }

  lemma StripFacts(s: string)
    ensures var r := TrimEnd(TrimStart(s));
      && LeadingSpaces(s) + |r| <= |s| && r == s[LeadingSpaces(s)..LeadingSpaces(s) + |r|]
      && ((forall i :: 0 <= i < |s| ==> IsSpace(s[i])) <==> r == "")
  {
    StripSlice(s);
    StripEmpty(s);
  }

  lemma StripSlice(s: string)
    ensures var r := TrimEnd(TrimStart(s));
      LeadingSpaces(s) + |r| <= |s| && r == s[LeadingSpaces(s)..LeadingSpaces(s) + |r|]
  {
    var t := TrimStart(s);
    var r := TrimEnd(t);
    var a := |s| - |t|;
    assert a == LeadingSpaces(s);
    assert r == t[..|r|] && t == s[a..];
    assert s[a..][..|r|] == s[a..a + |r|];
  }

  lemma StripEmpty(s: string)
    ensures (forall i :: 0 <= i < |s| ==> IsSpace(s[i])) <==> TrimEnd(TrimStart(s)) == ""
  {
    var t := TrimStart(s);
    var r := TrimEnd(t);
    if r == "" {
      assert |t| == 0;
    } else {
      assert !IsSpace(t[|r| - 1]);
    }
  }

  /** Stripping adds no character. */
  lemma StripOmits(s: string, c: char)
    requires c !in s
    ensures c !in Strip(s)
  {
    var r := Strip(s);
    var a := LeadingSpaces(s);
    forall i | 0 <= i < |r| ensures r[i] != c {
      assert r[i] == s[a + i];
    }
  }

  /** Python's `s.split(sep)[0]`: everything before the first `sep`, or all of `s`. */
  function BeforeFirst(s: string, sep: char): (r: string)
    ensures r <= s
    ensures sep !in r
    ensures |r| < |s| ==> s[|r|] == sep
    decreases |s|
  {
    if |s| == 0 || s[0] == sep then "" else [s[0]] + BeforeFirst(s[1..], sep)
  }

  predicate IsDecimalDigit(c: char) {
    '0' <= c <= '9'
  }

  predicate AllDecimal(s: string) {
    forall i :: 0 <= i < |s| ==> IsDecimalDigit(s[i])
  }

  /** The decimal numeral of `n` without leading zeros, as `String(n)` and `str(n)` write it. */
  function Decimal(n: nat): (k: string)
    ensures |k| > 0 && AllDecimal(k)
    ensures |k| > 1 ==> k[0] != '0'
  {
    if n < 10 then [('0' as int + n) as char] else Decimal(n / 10) + [('0' as int + n % 10) as char]
  }

  /** The number a string of decimal digits denotes. */
  function DecimalValue(k: string): (v: nat)
    requires AllDecimal(k)
  {
    if |k| == 0 then 0 else DecimalValue(k[..|k| - 1]) * 10 + (k[|k| - 1] as int - '0' as int)
  }

  /** Reading back a numeral gives its number; in particular `Decimal` is injective. */
  lemma {:induction false} DecimalRoundTrip(n: nat)
    ensures DecimalValue(Decimal(n)) == n
  {
    var k := Decimal(n);
    if n >= 10 {
      DecimalRoundTrip(n / 10);
      assert k[..|k| - 1] == Decimal(n / 10);
    }
  }
}
