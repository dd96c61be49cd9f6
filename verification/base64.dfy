/** Standard base64 (section 4 of RFC 4648) as the browser exposes it: `btoa` encodes a
    binary string with `=` padding, `atob` is the forgiving decoder of the HTML standard
    (whitespace removed, one or two trailing `=` dropped, leftover bits ignored). */
module Base64 {

  import opened Wrappers

  type byte = x: int | 0 <= x < 256

  /** A "binary string": every character's code is below 256, as `atob` returns and `btoa` accepts. */
  predicate IsBinaryString(s: string) {
    forall i :: 0 <= i < |s| ==> (s[i] as int) < 256
  }

  predicate IsDigitChar(c: char) {
    ('A' <= c <= 'Z') || ('a' <= c <= 'z') || ('0' <= c <= '9') || c == '+' || c == '/'
  }

  predicate AllDigits(s: string) {
    forall i :: 0 <= i < |s| ==> IsDigitChar(s[i])
  }

  /** The 6-bit value of a base64 digit: A-Z, a-z, 0-9, '+', '/' in that order. */
  function DigitValue(c: char): (v: int)
    requires IsDigitChar(c)
    ensures 0 <= v < 64
  {
    if 'A' <= c <= 'Z' then c as int - 'A' as int
    else if 'a' <= c <= 'z' then c as int - 'a' as int + 26
    else if '0' <= c <= '9' then c as int - '0' as int + 52
    else if c == '+' then 62
    else 63
  }

  /** The base64 digit of a 6-bit value; inverse of `DigitValue`. */
  function Digit(v: int): (c: char)
    requires 0 <= v < 64
    ensures IsDigitChar(c) && DigitValue(c) == v
  {
    if v < 26 then ('A' as int + v) as char
    else if v < 52 then ('a' as int + v - 26) as char
    else if v < 62 then ('0' as int + v - 52) as char
    else if v == 62 then '+'
    else '/'
  }

  lemma DigitOfValue(c: char)
    requires IsDigitChar(c)
    ensures Digit(DigitValue(c)) == c
  {
  }

  /** The digits of `b` without padding: four per full 3-byte group, then two for one leftover
      byte or three for two leftover bytes. */
  function EncodeDigits(b: seq<byte>): (s: string)
    ensures AllDigits(s)
    ensures |s| % 4 != 1
  {
    if |b| == 0 then ""
    else if |b| < 3 then TailDigits(b)
    else GroupDigits(b) + EncodeDigits(b[3..])
  }

  /** The digits of one or two leftover bytes, their low bits filled with zeros. */
  function TailDigits(b: seq<byte>): (t: string)
    requires 1 <= |b| <= 2
    ensures |t| == |b| + 1 && AllDigits(t)
  {
    if |b| == 1 then [Digit(b[0] / 4), Digit((b[0] % 4) * 16)]
    else [Digit(b[0] / 4), Digit((b[0] % 4) * 16 + b[1] / 16), Digit((b[1] % 16) * 4)]
  }

  /** The four digits of the first three bytes: their 24 bits, six at a time. */
  function GroupDigits(b: seq<byte>): (g: string)
    requires |b| >= 3
    ensures |g| == 4 && AllDigits(g)
  {
    [Digit(b[0] / 4), Digit((b[0] % 4) * 16 + b[1] / 16), Digit((b[1] % 16) * 4 + b[2] / 64), Digit(b[2] % 64)]
  }

  /** How many digits are left over past the last full group of four. */
  lemma {:induction false} EncodeDigitsRemainder(b: seq<byte>)
    ensures |EncodeDigits(b)| % 4 == (if |b| % 3 == 0 then 0 else |b| % 3 + 1)
    decreases |b|
  {
    if |b| >= 3 {
      EncodeDigitsRemainder(b[3..]);
      var q, m := |EncodeDigits(b[3..])|, |b[3..]|;
      assert |EncodeDigits(b)| == q + 4 && |b| == m + 3;
      assert (q + 4) % 4 == q % 4 && (m + 3) % 3 == m % 3;
    }
  }

  /** Four digits for each full group of three bytes. */
  lemma {:induction false} EncodeDigitsLength(b: seq<byte>)
    ensures |EncodeDigits(b)| == (|b| / 3) * 4 + (if |b| % 3 == 0 then 0 else |b| % 3 + 1)
    decreases |b|
  {
    if |b| >= 3 {
      EncodeDigitsLength(b[3..]);
      assert |EncodeDigits(b)| == 4 + |EncodeDigits(b[3..])|;
      assert |b| / 3 == |b[3..]| / 3 + 1;
    }
  }

  function Repeat(c: char, n: nat): (s: string)
    ensures |s| == n && forall i :: 0 <= i < n ==> s[i] == c
  {
    if n == 0 then "" else [c] + Repeat(c, n - 1)
  }

  /** The `=` signs `btoa` appends after `n` bytes: none after full groups, two after one
      leftover byte, one after two. */
  function Padding(n: nat): (p: string)
    ensures |p| < 3 && forall i :: 0 <= i < |p| ==> p[i] == '='
  {
    if n % 3 == 0 then "" else if n % 3 == 1 then "==" else "="
  }

  /** `btoa` of the bytes: the digits, then `=` up to a multiple of four characters. */
  function Encode(b: seq<byte>): (s: string)
    ensures |s| % 4 == 0
    ensures EncodeDigits(b) <= s
  {
    PaddingFillsGroup(b);
    EncodeDigits(b) + Padding(|b|)
  }

  lemma PaddingFillsGroup(b: seq<byte>)
    ensures (|EncodeDigits(b)| + |Padding(|b|)|) % 4 == 0
  {
    EncodeDigitsRemainder(b);
    FillsGroup(|b|, |EncodeDigits(b)|);
  }

  lemma FillsGroup(n: nat, x: nat)
    requires x % 4 == (if n % 3 == 0 then 0 else n % 3 + 1)
    ensures (x + |Padding(n)|) % 4 == 0
  {
  }

  /** The three bytes that the first four digits of `s` stand for. */
  function GroupBytes(s: string): (g: seq<byte>)
    requires |s| >= 4 && IsDigitChar(s[0]) && IsDigitChar(s[1]) && IsDigitChar(s[2]) && IsDigitChar(s[3])
    ensures |g| == 3
  {
    [DigitValue(s[0]) * 4 + DigitValue(s[1]) / 16,
     (DigitValue(s[1]) % 16) * 16 + DigitValue(s[2]) / 4,
     (DigitValue(s[2]) % 4) * 64 + DigitValue(s[3])]
  }

  /** The bytes that a string of digits stands for; 2 or 3 leftover digits give 1 or 2 bytes and
      their unused low bits are dropped. */
  function DecodeDigits(s: string): (b: seq<byte>)
    requires AllDigits(s) && |s| % 4 != 1
    ensures |s| > 0 ==> |b| > 0
  {
    if |s| == 0 then []
    else if |s| < 4 then TailBytes(s)
    else GroupBytes(s) + DecodeDigits(s[4..])
  }

  /** The one or two bytes that two or three leftover digits stand for. */
  function TailBytes(s: string): (t: seq<byte>)
    requires 2 <= |s| <= 3 && AllDigits(s)
    ensures |t| == |s| - 1
  {
    if |s| == 2 then [DigitValue(s[0]) * 4 + DigitValue(s[1]) / 16]
    else [DigitValue(s[0]) * 4 + DigitValue(s[1]) / 16, (DigitValue(s[1]) % 16) * 16 + DigitValue(s[2]) / 4]
  }

  /** Three bytes for each full group of four digits. */
  lemma {:induction false} DecodeDigitsLength(s: string)
    requires AllDigits(s) && |s| % 4 != 1
    ensures |DecodeDigits(s)| == (|s| / 4) * 3 + (if |s| % 4 == 0 then 0 else |s| % 4 - 1)
    decreases |s|
  {
    if |s| >= 4 {
      DecodeDigitsLength(s[4..]);
      var q := |s[4..]|;
      assert |DecodeDigits(s)| == 3 + |DecodeDigits(s[4..])|;
      assert (q + 4) / 4 == q / 4 + 1 && (q + 4) % 4 == q % 4;
    }
  }

  /** ASCII whitespace as the HTML standard defines it: tab, line feed, form feed, carriage return, space. */
  predicate IsAsciiSpace(c: char) {
    c == '\t' || c == '\n' || c == '\U{000C}' || c == '\r' || c == ' '
  }

  function RemoveAsciiSpace(s: string): (r: string)
    ensures |r| <= |s|
    ensures forall i :: 0 <= i < |r| ==> !IsAsciiSpace(r[i])
    ensures (forall i :: 0 <= i < |s| ==> !IsAsciiSpace(s[i])) ==> r == s
  {
    if |s| == 0 then ""
    else if IsAsciiSpace(s[0]) then RemoveAsciiSpace(s[1..])
    else [s[0]] + RemoveAsciiSpace(s[1..])
  }

  /** Drops one or two trailing `=` when the length is a multiple of four. */
  function StripPadding(s: string): string {
    if |s| % 4 == 0 && |s| >= 2 && s[|s| - 2..] == "==" then s[..|s| - 2]
    else if |s| % 4 == 0 && |s| >= 1 && s[|s| - 1] == '=' then s[..|s| - 1]
    else s
  }

  function BytesToBinaryString(b: seq<byte>): (s: string)
    ensures |s| == |b| && IsBinaryString(s)
    ensures forall i :: 0 <= i < |b| ==> s[i] as int == b[i]
  {
    if |b| == 0 then "" else [b[0] as char] + BytesToBinaryString(b[1..])
  }

  /** The forgiving-base64 decode behind `atob`; `None` is the `InvalidCharacterError` it throws. */
  function DecodeBytes(s: string): (r: Option<seq<byte>>)
    ensures var d := StripPadding(RemoveAsciiSpace(s));
      r.Some? <==> |d| % 4 != 1 && AllDigits(d)
  {
    var d := StripPadding(RemoveAsciiSpace(s));
    if |d| % 4 == 1 || !AllDigits(d) then None else Some(DecodeDigits(d))
  }

  /** `atob`: the decoded bytes as a binary string. */
  function Atob(s: string): (r: Option<string>)
    ensures r.Some? <==> DecodeBytes(s).Some?
    ensures r.Some? ==> IsBinaryString(r.value) && r.value == BytesToBinaryString(DecodeBytes(s).value)
  {
    match DecodeBytes(s)
    case None => None
    case Some(b) => Some(BytesToBinaryString(b))
  }

  /** One full group: the four digits of three bytes decode back to those bytes. */
  lemma GroupRoundTrip(b0: byte, b1: byte, b2: byte)
    ensures var v0, v1, v2, v3 := b0 / 4, (b0 % 4) * 16 + b1 / 16, (b1 % 16) * 4 + b2 / 64, b2 % 64;
      && v0 * 4 + v1 / 16 == b0
      && (v1 % 16) * 16 + v2 / 4 == b1
      && (v2 % 4) * 64 + v3 == b2
  {
  }

  /** Decoding the digits of any byte sequence gives that sequence back. */
  lemma {:induction false} DecodeEncodeDigits(b: seq<byte>)
    ensures DecodeDigits(EncodeDigits(b)) == b
    decreases |b|
  {
    if |b| == 1 {
      DecodeEncodeOne(b);
    } else if |b| == 2 {
      DecodeEncodeTwo(b);
    } else if |b| >= 3 {
      DecodeEncodeDigits(b[3..]);
      DecodeEncodeGroup(b);
    }
  }

  lemma DecodeEncodeOne(b: seq<byte>)
    requires |b| == 1
    ensures DecodeDigits(EncodeDigits(b)) == b
  {
    var t := TailDigits(b);
    assert DigitValue(t[0]) == b[0] / 4 && DigitValue(t[1]) == (b[0] % 4) * 16;
    assert TailBytes(t)[0] == b[0];
  }

  lemma DecodeEncodeTwo(b: seq<byte>)
    requires |b| == 2
    ensures DecodeDigits(EncodeDigits(b)) == b
  {
    var t := TailDigits(b);
    assert EncodeDigits(b) == t;
    assert DigitValue(t[0]) == b[0] / 4;
    assert DigitValue(t[1]) == (b[0] % 4) * 16 + b[1] / 16;
    assert DigitValue(t[2]) == (b[1] % 16) * 4;
    PairRoundTrip(b[0], b[1]);
    var d := TailBytes(t);
    assert DecodeDigits(t) == d;
    assert d[0] == b[0] && d[1] == b[1];
  }

  /** Two leftover bytes: their three digits decode back to them. */
  lemma PairRoundTrip(b0: byte, b1: byte)
    ensures var v0, v1, v2 := b0 / 4, (b0 % 4) * 16 + b1 / 16, (b1 % 16) * 4;
      && v0 * 4 + v1 / 16 == b0
      && (v1 % 16) * 16 + v2 / 4 == b1
  {
  }

  /** One group in front of a tail that already round-trips. */
  lemma DecodeEncodeGroup(b: seq<byte>)
    requires |b| >= 3 && DecodeDigits(EncodeDigits(b[3..])) == b[3..]
    ensures DecodeDigits(EncodeDigits(b)) == b
  {
    var s := EncodeDigits(b);
    EncodeGroup(b);
    DecodeGroupThenRest(s, b[..3], b[3..]);
    assert b == b[..3] + b[3..];
  }

  lemma DecodeGroupThenRest(s: string, head: seq<byte>, tail: seq<byte>)
    requires AllDigits(s) && |s| >= 4 && |s| % 4 != 1
    requires GroupBytes(s) == head && DecodeDigits(s[4..]) == tail
    ensures DecodeDigits(s) == head + tail
  {
  }

  /** The first four digits of a long encoding stand for its first three bytes. */
  lemma EncodeGroup(b: seq<byte>)
    requires |b| >= 3
    ensures var s := EncodeDigits(b);
      && |s| >= 4 && s[4..] == EncodeDigits(b[3..])
      && GroupBytes(s) == b[..3]
  {
    var s := EncodeDigits(b);
    var d := GroupDigits(b);
    assert s[..4] == d;
    GroupRoundTrip(b[0], b[1], b[2]);
    var g := GroupBytes(s);
    assert g[0] == b[0] && g[1] == b[1] && g[2] == b[2];
  }

  /** `btoa` output never contains whitespace. */
  lemma EncodeHasNoSpace(b: seq<byte>)
    ensures RemoveAsciiSpace(Encode(b)) == Encode(b)
  {
    var s := Encode(b);
    var d := EncodeDigits(b);
    var p := Padding(|b|);
    forall i | 0 <= i < |s| ensures !IsAsciiSpace(s[i]) {
      if i < |d| {
        assert s[i] == d[i];
      } else {
        assert s[i] == p[i - |d|];
      }
    }
  }

  /** The padding `btoa` adds is exactly what `atob` strips. */
  lemma StripEncodePadding(b: seq<byte>)
    ensures StripPadding(Encode(b)) == EncodeDigits(b)
  {
    if |b| % 3 == 0 {
      StripUnpadded(b);
    } else {
      StripPadded(b);
    }
  }

  lemma StripUnpadded(b: seq<byte>)
    requires |b| % 3 == 0
    ensures StripPadding(Encode(b)) == EncodeDigits(b)
  {
    var d := EncodeDigits(b);
    assert Encode(b) == d + "";
    if |d| >= 1 {
      assert d[|d| - 1] != '=' by {
        assert IsDigitChar(d[|d| - 1]);
      }
      assert |d| < 2 || d[|d| - 2..][1] == d[|d| - 1];
    }
  }

  lemma StripPadded(b: seq<byte>)
    requires |b| % 3 != 0
    ensures StripPadding(Encode(b)) == EncodeDigits(b)
  {
    if |b| % 3 == 1 {
      StripTwoPads(b);
    } else {
      StripOnePad(b);
    }
  }

  lemma StripTwoPads(b: seq<byte>)
    requires |b| % 3 == 1
    ensures StripPadding(Encode(b)) == EncodeDigits(b)
  {
    var d := EncodeDigits(b);
    var s := d + "==";
    assert Encode(b) == s;
    assert s[|s| - 2..] == "==";
    assert s[..|s| - 2] == d;
  }

  lemma StripOnePad(b: seq<byte>)
    requires |b| % 3 == 2
    ensures StripPadding(Encode(b)) == EncodeDigits(b)
  {
    var d := EncodeDigits(b);
    var s := d + "=";
    assert Encode(b) == s;
    assert IsDigitChar(d[|d| - 1]);
    assert s[|s| - 2] == d[|d| - 1];
    assert s[..|s| - 1] == d;
  }

  /** `atob(btoa(x))` recovers the bytes: decoding the padded standard encoding is the identity. */
  lemma DecodeEncode(b: seq<byte>)
    ensures DecodeBytes(Encode(b)) == Some(b)
  {
    EncodeHasNoSpace(b);
    StripEncodePadding(b);
    DecodeEncodeDigits(b);
  }

  /** The first decoded byte comes from the first two digits alone. */
  lemma FirstByte(s: string)
    requires AllDigits(s) && |s| % 4 != 1 && |s| >= 2
    ensures DecodeDigits(s)[0] == DigitValue(s[0]) * 4 + DigitValue(s[1]) / 16
  {
  }
}
