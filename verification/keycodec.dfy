/** The subscription controller's key codec: `urlBase64ToUint8Array` turns a base64url string
    (section 5 of RFC 4648, padding usually omitted) into key bytes by padding it, mapping the
    URL-safe alphabet onto the standard one and calling `atob`; keys go back out through `btoa`. */
module KeyCodec {

  import opened Wrappers
  import opened Base64

  /** The number of `=` appended: `(4 - n % 4) % 4`, the least count that reaches a multiple of four. */
  function PaddingLength(n: nat): (p: nat)
    ensures p < 4
    ensures (n + p) % 4 == 0
    ensures n % 4 == 0 ==> p == 0
  {
    (4 - n % 4) % 4
  }

  function Pad(s: string): (r: string)
    ensures |r| % 4 == 0 && |r| == |s| + PaddingLength(|s|)
    ensures s <= r && forall i :: |s| <= i < |r| ==> r[i] == '='
  {
    s + Repeat('=', PaddingLength(|s|))
  }

  /** The two chained `replace` calls: every `-` becomes `+`, every `_` becomes `/`, and
      every other character stays where it was. */
  function ToStandardAlphabet(s: string): (r: string)
    ensures |r| == |s|
    ensures '-' !in r && '_' !in r
    ensures forall i :: 0 <= i < |s| && s[i] != '-' && s[i] != '_' ==> r[i] == s[i]
    ensures forall i :: 0 <= i < |s| && s[i] == '-' ==> r[i] == '+'
    ensures forall i :: 0 <= i < |s| && s[i] == '_' ==> r[i] == '/'
  {
    if |s| == 0 then ""
    else [if s[0] == '-' then '+' else if s[0] == '_' then '/' else s[0]] + ToStandardAlphabet(s[1..])
  }

  /** The inverse mapping, from the standard alphabet to the URL-safe one. */
  function ToUrlAlphabet(s: string): (r: string)
    ensures |r| == |s|
    ensures '+' !in r && '/' !in r
  {
    if |s| == 0 then ""
    else [if s[0] == '+' then '-' else if s[0] == '/' then '_' else s[0]] + ToUrlAlphabet(s[1..])
  }

  /** Translating to the standard alphabet and back is the identity on strings without `+` and `/`
      (every base64url string). */
  lemma {:induction false} UrlAlphabetRoundTrip(s: string)
    requires '+' !in s && '/' !in s
    ensures ToUrlAlphabet(ToStandardAlphabet(s)) == s
  {
    if |s| > 0 {
      assert '+' !in s[1..] && '/' !in s[1..];
      UrlAlphabetRoundTrip(s[1..]);
    }
  }

  /** Translating the URL-safe form of any string back gives that string, so a standard
      base64 string survives the trip through base64url. */
  lemma {:induction false} StandardAlphabetRoundTrip(s: string)
    requires '-' !in s && '_' !in s
    ensures ToStandardAlphabet(ToUrlAlphabet(s)) == s
  {
    if |s| > 0 {
      assert '-' !in s[1..] && '_' !in s[1..];
      StandardAlphabetRoundTrip(s[1..]);
    }
  }

  /** The unpadded base64url encoding of some bytes, the form a VAPID key is published in. */
  function UrlEncode(b: seq<byte>): string {
    ToUrlAlphabet(EncodeDigits(b))
  }

  /** What `urlBase64ToUint8Array` computes; `None` is the error `atob` throws. */
  function UrlBase64ToBytes(s: string): Option<seq<byte>> {
    DecodeBytes(ToStandardAlphabet(Pad(s)))
  }

  /** `urlBase64ToUint8Array`: pad, translate, `atob`, then copy each character code into a
      byte array of the same length. */
  method UrlBase64ToUint8Array(base64String: string) returns (r: Option<seq<byte>>)
    ensures r == UrlBase64ToBytes(base64String)
    ensures r.Some? ==> var raw := Atob(ToStandardAlphabet(Pad(base64String))).value;
      |r.value| == |raw| && forall i :: 0 <= i < |raw| ==> r.value[i] == raw[i] as int
  {
    var padding := Repeat('=', PaddingLength(|base64String|));
    var base64 := ToStandardAlphabet(base64String + padding);
    var decoded := Atob(base64);
    if decoded.None? {
      return None;
    }
    var rawData := decoded.value;
    var outputArray: seq<byte> := [];
    var i := 0;
    while i < |rawData|
      invariant 0 <= i <= |rawData|
      invariant |outputArray| == i
      invariant forall j :: 0 <= j < i ==> outputArray[j] == rawData[j] as int
    {
      outputArray := outputArray + [rawData[i] as int];
      i := i + 1;
    }
    assert outputArray == DecodeBytes(base64).value;
    r := Some(outputArray);
  }

  /** For every key, decoding its unpadded base64url form yields the key bytes. */
  lemma UrlRoundTrip(b: seq<byte>)
    ensures UrlBase64ToBytes(UrlEncode(b)) == Some(b)
  {
    StandardUrlPad(b);
    DecodeEncode(b);
  }

  lemma StandardUrlPad(b: seq<byte>)
    ensures ToStandardAlphabet(Pad(UrlEncode(b))) == Encode(b)
  {
    var d := EncodeDigits(b);
    var u := UrlEncode(b);
    var pad := Repeat('=', PaddingLength(|u|));
    PaddingAgrees(b);
    StandardAlphabetOfDigits(d);
    assert Pad(u) == u + pad;
    StandardAlphabetAppend(u, pad);
    assert ToStandardAlphabet(pad) == pad;
  }

  /** The `=` signs that reach a multiple of four after the unpadded digits are the ones `btoa` writes. */
  lemma PaddingAgrees(b: seq<byte>)
    ensures Repeat('=', PaddingLength(|EncodeDigits(b)|)) == Padding(|b|)
  {
    var n := |EncodeDigits(b)|;
    EncodeDigitsRemainder(b);
    if |b| % 3 == 0 {
      assert PaddingLength(n) == 0;
    } else if |b| % 3 == 1 {
      assert PaddingLength(n) == 2;
      assert Repeat('=', 2) == "==";
    } else {
      assert PaddingLength(n) == 1;
      assert Repeat('=', 1) == "=";
    }
  }

  lemma StandardAlphabetOfDigits(d: string)
    requires AllDigits(d)
    ensures ToStandardAlphabet(ToUrlAlphabet(d)) == d
  {
    assert '-' !in d && '_' !in d by {
      forall i | 0 <= i < |d| ensures d[i] != '-' && d[i] != '_' {
        assert IsDigitChar(d[i]);
      }
    }
    StandardAlphabetRoundTrip(d);
  }

  lemma {:induction false} StandardAlphabetAppend(a: string, b: string)
    ensures ToStandardAlphabet(a + b) == ToStandardAlphabet(a) + ToStandardAlphabet(b)
  {
    if |a| > 0 {
      assert (a + b)[1..] == a[1..] + b;
      StandardAlphabetAppend(a[1..], b);
    } else {
      assert a + b == b;
    }
  }

  /** Re-encoding the decoded key with `btoa`, as the controller does for `p256dh` and `auth`,
      gives back the padded standard-alphabet form of the string that was decoded, for every
      canonical base64url string (one whose unused low bits are zero, as an encoder writes it).
      A non-canonical string such as `BE` decodes like `BA` and re-encodes as `BA==`. */
  lemma ReencodeGivesStandardForm(b: seq<byte>)
    ensures UrlBase64ToBytes(UrlEncode(b)).Some?
    ensures Encode(UrlBase64ToBytes(UrlEncode(b)).value) == ToStandardAlphabet(Pad(UrlEncode(b)))
  {
    UrlRoundTrip(b);
    StandardUrlPad(b);
  }

  /** The application-server (VAPID) public key compiled into the controller, written here in
      four pieces so that each can be checked character by character. */
  const VapidPublicKey: string :=
    "BEl62iUYgUivxIkv69yViE" + "uiBIa40HI0DLLcFb9pUniS" + "JzLH-GN2ZpRgeLdCK6zp5A" + "JjkG5LkG2dEz8fhqY7aI8"

  predicate IsUrlDigitChar(c: char) {
    ('A' <= c <= 'Z') || ('a' <= c <= 'z') || ('0' <= c <= '9') || c == '-' || c == '_'
  }

  lemma VapidKeyIsUrlSafe()
    ensures |VapidPublicKey| == 87 && VapidPublicKey[0] == 'B' && VapidPublicKey[1] == 'E'
    ensures forall i :: 0 <= i < |VapidPublicKey| ==> IsUrlDigitChar(VapidPublicKey[i])
  {
    var a, b, c, d := "BEl62iUYgUivxIkv69yViE", "uiBIa40HI0DLLcFb9pUniS", "JzLH-GN2ZpRgeLdCK6zp5A", "JjkG5LkG2dEz8fhqY7aI8";
    assert forall i :: 0 <= i < |a| ==> IsUrlDigitChar(a[i]);
    assert forall i :: 0 <= i < |b| ==> IsUrlDigitChar(b[i]);
    assert forall i :: 0 <= i < |c| ==> IsUrlDigitChar(c[i]);
    assert forall i :: 0 <= i < |d| ==> IsUrlDigitChar(d[i]);
    var k := a + b + c + d;
    assert k == VapidPublicKey;
    forall i | 0 <= i < |k| ensures IsUrlDigitChar(k[i]) {
      if i < 22 {
        assert k[i] == a[i];
      } else if i < 44 {
        assert k[i] == b[i - 22];
      } else if i < 66 {
        assert k[i] == c[i - 44];
      } else {
        assert k[i] == d[i - 66];
      }
    }
  }

  /** Any base64url string whose length is not 1 more than a multiple of four decodes: padding
      it and translating the alphabet gives exactly what `atob` accepts. */
  lemma UrlSafeStringDecodes(k: string)
    requires forall i :: 0 <= i < |k| ==> IsUrlDigitChar(k[i])
    requires |k| % 4 != 1
    ensures AllDigits(ToStandardAlphabet(k))
    ensures UrlBase64ToBytes(k) == Some(DecodeDigits(ToStandardAlphabet(k)))
  {
    var t := ToStandardAlphabet(k);
    var pad := Repeat('=', PaddingLength(|k|));
    TranslatedUrlDigits(k);
    PaddedTranslation(k);
    DigitsAndPadHaveNoSpace(t, pad);
    StripAppendedPadding(t, pad);
  }

  lemma TranslatedUrlDigits(k: string)
    requires forall i :: 0 <= i < |k| ==> IsUrlDigitChar(k[i])
    ensures AllDigits(ToStandardAlphabet(k))
  {
    var t := ToStandardAlphabet(k);
    forall i | 0 <= i < |t| ensures IsDigitChar(t[i]) {
      assert IsUrlDigitChar(k[i]);
    }
  }

  lemma PaddedTranslation(k: string)
    ensures ToStandardAlphabet(Pad(k)) == ToStandardAlphabet(k) + Repeat('=', PaddingLength(|k|))
  {
    var pad := Repeat('=', PaddingLength(|k|));
    StandardAlphabetAppend(k, pad);
    assert ToStandardAlphabet(pad) == pad;
  }

  lemma DigitsAndPadHaveNoSpace(t: string, pad: string)
    requires AllDigits(t)
    requires forall i :: 0 <= i < |pad| ==> pad[i] == '='
    ensures RemoveAsciiSpace(t + pad) == t + pad
  {
    var std := t + pad;
    forall i | 0 <= i < |std| ensures !IsAsciiSpace(std[i]) {
      if i < |t| {
        assert IsDigitChar(t[i]);
      } else {
        assert std[i] == pad[i - |t|];
      }
    }
  }

  lemma StripAppendedPadding(t: string, pad: string)
    requires AllDigits(t) && |t| % 4 != 1
    requires pad == Repeat('=', PaddingLength(|t|))
    ensures StripPadding(t + pad) == t
  {
    var std := t + pad;
    if |t| % 4 == 2 {
      assert pad == "==";
      assert std[|std| - 2..] == "==";
      assert std[..|std| - 2] == t;
    } else if |t| % 4 == 3 {
      assert pad == "=";
      assert std[|std| - 2] == t[|t| - 1];
      assert IsDigitChar(t[|t| - 1]);
      assert std[..|std| - 1] == t;
    } else {
      assert pad == "";
      assert std == t;
      if |t| > 0 {
        assert IsDigitChar(t[|t| - 1]);
      }
    }
  }

  /** A base64url string one character longer than a multiple of four cannot be decoded: three `=`
      are appended, `atob` strips only two and rejects the third. */
  lemma OneOverMultipleOfFourFails(k: string)
    requires |k| % 4 == 1
    ensures UrlBase64ToBytes(k).None?
  {
    var pad := Repeat('=', 3);
    assert pad == "===";
    StandardAlphabetAppend(k, pad);
    assert ToStandardAlphabet(pad) == pad;
    var t := ToStandardAlphabet(k);
    assert ToStandardAlphabet(Pad(k)) == t + "===";
    RemoveSpaceAppend(t, "===");
    assert RemoveAsciiSpace("===") == "===";
    TripleEqualsSurvives(RemoveAsciiSpace(t));
  }

  /** Stripping at most two `=` from a string ending in three leaves one. */
  lemma TripleEqualsSurvives(x: string)
    ensures var d := StripPadding(x + "===");
      |d| > 0 && d[|d| - 1] == '=' && !AllDigits(d)
  {
    var y := x + "===";
    var d := StripPadding(y);
    if |y| % 4 == 0 {
      assert y[|y| - 2..] == "==";
      assert d == y[..|y| - 2];
    } else {
      assert d == y;
    }
    assert d[|d| - 1] == '=';
    assert !IsDigitChar(d[|d| - 1]);
  }

  lemma {:induction false} RemoveSpaceAppend(a: string, b: string)
    ensures RemoveAsciiSpace(a + b) == RemoveAsciiSpace(a) + RemoveAsciiSpace(b)
  {
    if |a| > 0 {
      assert (a + b)[1..] == a[1..] + b;
      RemoveSpaceAppend(a[1..], b);
    } else {
      assert a + b == b;
    }
  }

  /** A 87-character base64url string starting with "BE" decodes to 65 bytes starting with 0x04. */
  lemma UncompressedPointShape(k: string)
    requires |k| == 87 && k[0] == 'B' && k[1] == 'E'
    requires forall i :: 0 <= i < |k| ==> IsUrlDigitChar(k[i])
    ensures UrlBase64ToBytes(k).Some?
    ensures |UrlBase64ToBytes(k).value| == 65
    ensures UrlBase64ToBytes(k).value[0] == 0x04
  {
    UrlSafeStringDecodes(k);
    var t := ToStandardAlphabet(k);
    DecodeDigitsLength(t);
    assert DigitValue(t[0]) == 1 && DigitValue(t[1]) == 4;
    FirstByte(t);
  }

  /** The key decodes to 65 bytes starting with 0x04: an uncompressed P-256 point, as section 3.2
      of RFC 8292 requires of an application-server key. */
  lemma VapidKeyIsUncompressedPoint()
    ensures |VapidPublicKey| == 87 && PaddingLength(87) == 1
    ensures UrlBase64ToBytes(VapidPublicKey).Some?
    ensures |UrlBase64ToBytes(VapidPublicKey).value| == 65
    ensures UrlBase64ToBytes(VapidPublicKey).value[0] == 0x04
  {
    VapidKeyIsUrlSafe();
    UncompressedPointShape(VapidPublicKey);
  }
}
