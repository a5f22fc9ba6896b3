/**
 * The text renderings the ledgers rely on: hexadecimal (Base16, section 8 of
 * RFC 4648) as produced by `hex.EncodeToString`, `strings.ToUpper` on ASCII,
 * `%d` of an integer, `strings.Join`, and `encoding/json`'s rendering of a
 * string value.
 */
module Fmt {
  import opened Sdk

  const Colon: byte := 58
  const Minus: byte := 45
  const Quote: byte := 34
  const Backslash: byte := 92

  predicate IsDecimalDigit(c: byte) { 48 <= c <= 57 }
  predicate IsUpperHexDigit(c: byte) { 48 <= c <= 57 || 65 <= c <= 70 }
  predicate IsLowerHexDigit(c: byte) { 48 <= c <= 57 || 97 <= c <= 102 }

  /** The digit `hex.EncodeToString` writes for a nibble: "0123456789abcdef"[n]. */
  function LowerNibble(n: nat): (c: byte)
    requires n < 16
    ensures IsLowerHexDigit(c)
  {
    if n < 10 then 48 + n else 87 + n
  }

  /** `hex.EncodeToString`: two lower-case digits per byte, high nibble first. */
  function EncodeToString(b: Bytes): (r: Bytes)
  {
    if b == [] then [] else [LowerNibble(b[0] / 16), LowerNibble(b[0] % 16)] + EncodeToString(b[1..])
  }

  /** `strings.ToUpper` restricted to ASCII letters (the only letters it meets here). */
  function ToUpperAscii(c: byte): byte {
    if 97 <= c <= 122 then c - 32 else c
  }

  function ToUpper(s: Bytes): (r: Bytes)
    ensures |r| == |s|
    ensures forall i :: 0 <= i < |s| ==> r[i] == ToUpperAscii(s[i])
  {
    if s == [] then [] else [ToUpperAscii(s[0])] + ToUpper(s[1..])
  }

  /** The upper-case digit for a nibble: "0123456789ABCDEF"[n]. */
  function UpperNibble(n: nat): (c: byte)
    requires n < 16
    ensures IsUpperHexDigit(c)
    ensures c == ToUpperAscii(LowerNibble(n))
  {
    if n < 10 then 48 + n else 55 + n
  }

  /** Byte i of the input becomes characters 2i and 2i+1, high nibble first. */
  lemma {:induction false} EncodeToStringAt(b: Bytes, i: nat)
    requires i < |b|
    ensures |EncodeToString(b)| == 2 * |b|
    ensures EncodeToString(b)[2 * i] == LowerNibble(b[i] / 16)
    ensures EncodeToString(b)[2 * i + 1] == LowerNibble(b[i] % 16)
  {
    if i == 0 {
      EncodeToStringLength(b[1..]);
    } else {
      EncodeToStringAt(b[1..], i - 1);
    }
  }

  lemma {:induction false} EncodeToStringLength(b: Bytes)
    ensures |EncodeToString(b)| == 2 * |b|
  {
    if b != [] {
      EncodeToStringLength(b[1..]);
    }
  }

  /** Decoding a single digit back to its nibble. */
  function NibbleValue(c: byte): Option<nat> {
    if 48 <= c <= 57 then Some(c - 48)
    else if 65 <= c <= 70 then Some(c - 55)
    else if 97 <= c <= 102 then Some(c - 87)
    else None
  }

  /** `hex.DecodeString`, accepting either case. */
  function DecodeHex(s: Bytes): Option<Bytes>
    decreases |s|
  {
    if s == [] then Some([])
    else if |s| == 1 then None
    else match (NibbleValue(s[0]), NibbleValue(s[1]), DecodeHex(s[2..]))
      case (Some(hi), Some(lo), Some(rest)) => Some([hi * 16 + lo] + rest)
      case _ => None
  }

  /** Both digits of a nibble decode back to it. */
  lemma NibbleDigitsDecode(n: nat)
    requires n < 16
    ensures NibbleValue(LowerNibble(n)) == Some(n) && NibbleValue(UpperNibble(n)) == Some(n)
  {
  }

  /** Decoding two digits in front of a decodable rest. */
  lemma DecodeHexCons(c0: byte, c1: byte, rest: Bytes, hi: nat, lo: nat, tail: Bytes)
    requires NibbleValue(c0) == Some(hi) && NibbleValue(c1) == Some(lo) && DecodeHex(rest) == Some(tail)
    ensures DecodeHex([c0, c1] + rest) == Some([hi * 16 + lo] + tail)
  {
    var s := [c0, c1] + rest;
    assert s[0] == c0 && s[1] == c1 && s[2..] == rest;
  }

  lemma {:induction false} HexRoundTripLower(b: Bytes)
    ensures DecodeHex(EncodeToString(b)) == Some(b)
  {
    if b != [] {
      HexRoundTripLower(b[1..]);
      var hi, lo := b[0] / 16, b[0] % 16;
      NibbleDigitsDecode(hi);
      NibbleDigitsDecode(lo);
      DecodeHexCons(LowerNibble(hi), LowerNibble(lo), EncodeToString(b[1..]), hi, lo, b[1..]);
      assert [hi * 16 + lo] + b[1..] == b;
    }
  }

  lemma {:induction false} HexRoundTripUpper(b: Bytes)
    ensures DecodeHex(ToUpper(EncodeToString(b))) == Some(b)
  {
    if b != [] {
      HexRoundTripUpper(b[1..]);
      var hi, lo := b[0] / 16, b[0] % 16;
      NibbleDigitsDecode(hi);
      NibbleDigitsDecode(lo);
      var e := EncodeToString(b);
      assert e == [LowerNibble(hi), LowerNibble(lo)] + EncodeToString(b[1..]);
      assert ToUpper(e) == [UpperNibble(hi), UpperNibble(lo)] + ToUpper(EncodeToString(b[1..])) by {
        ToUpperConcat([LowerNibble(hi), LowerNibble(lo)], EncodeToString(b[1..]));
      }
      DecodeHexCons(UpperNibble(hi), UpperNibble(lo), ToUpper(EncodeToString(b[1..])), hi, lo, b[1..]);
      assert [hi * 16 + lo] + b[1..] == b;
    }
  }

  lemma ToUpperConcat(s: Bytes, t: Bytes)
    ensures ToUpper(s + t) == ToUpper(s) + ToUpper(t)
  {
    assert forall i :: 0 <= i < |s + t| ==> ToUpper(s + t)[i] == (ToUpper(s) + ToUpper(t))[i];
  }

  /** Hex encoding is undone by decoding, in either case. */
  lemma HexRoundTrip(b: Bytes)
    ensures DecodeHex(EncodeToString(b)) == Some(b)
    ensures DecodeHex(ToUpper(EncodeToString(b))) == Some(b)
  {
    HexRoundTripLower(b);
    HexRoundTripUpper(b);
  }

  /** Distinct byte strings have distinct upper-case renderings. */
  lemma UpperHexInjective(a: Bytes, b: Bytes)
    requires ToUpper(EncodeToString(a)) == ToUpper(EncodeToString(b))
    ensures a == b
  {
    HexRoundTrip(a);
    HexRoundTrip(b);
  }

  /** The decimal digits of a natural number, most significant first. */
  function DecimalDigits(n: nat): (r: Bytes)
    decreases n
  {
    if n < 10 then [48 + n] else DecimalDigits(n / 10) + [48 + n % 10]
  }

  /** `%d` / `strconv.FormatInt`: an optional minus sign, then the digits. */
  function FormatInt(i: int): Bytes {
    if i < 0 then [Minus] + DecimalDigits(-i) else DecimalDigits(i)
  }

  lemma {:induction false} DecimalDigitsShape(n: nat)
    ensures |DecimalDigits(n)| >= 1
    ensures forall k :: 0 <= k < |DecimalDigits(n)| ==> IsDecimalDigit(DecimalDigits(n)[k])
    ensures (|DecimalDigits(n)| == 1) == (n < 10)
    decreases n
  {
    if n >= 10 {
      DecimalDigitsShape(n / 10);
    }
  }

  lemma {:induction false} DecimalDigitsInjective(a: nat, b: nat)
    requires DecimalDigits(a) == DecimalDigits(b)
    ensures a == b
    decreases a
  {
    DecimalDigitsShape(a);
    DecimalDigitsShape(b);
    if a >= 10 {
      var da, db := DecimalDigits(a), DecimalDigits(b);
      assert da[..|da| - 1] == DecimalDigits(a / 10);
      assert db[..|db| - 1] == DecimalDigits(b / 10);
      DecimalDigitsInjective(a / 10, b / 10);
      assert da[|da| - 1] == db[|db| - 1];
    }
  }

  /** `%d` starts with a minus sign exactly for negative numbers, and holds no colon. */
  lemma FormatIntShape(i: int)
    ensures |FormatInt(i)| >= 1
    ensures (FormatInt(i)[0] == Minus) == (i < 0)
    ensures forall k :: 0 <= k < |FormatInt(i)| ==> FormatInt(i)[k] != Colon
  {
    DecimalDigitsShape(if i < 0 then -i else i);
  }

  /** `%d` never renders two integers the same way. */
  lemma FormatIntInjective(a: int, b: int)
    requires FormatInt(a) == FormatInt(b)
    ensures a == b
  {
    FormatIntShape(a);
    FormatIntShape(b);
    if a < 0 && b < 0 {
      assert FormatInt(a)[1..] == DecimalDigits(-a);
      assert FormatInt(b)[1..] == DecimalDigits(-b);
      DecimalDigitsInjective(-a, -b);
    } else if a >= 0 && b >= 0 {
      DecimalDigitsInjective(a, b);
    }
  }

  /** `strings.Join`. */
  function Join<T>(parts: seq<seq<T>>, sep: seq<T>): seq<T> {
    if parts == [] then []
    else if |parts| == 1 then parts[0]
    else parts[0] + sep + Join(parts[1..], sep)
  }

  /** Whether `encoding/json` writes an ASCII byte of a string unescaped
      (its HTML-safe set: no control character, no quote, no backslash, no <, > or &). */
  predicate JsonSafe(c: byte) {
    c >= 0x20 && c != Quote && c != Backslash && c != 60 && c != 62 && c != 38
  }

  /** The escape `encoding/json` writes for one byte of a string. */
  function JsonEscape(c: byte): Bytes {
    if c >= 0x80 || JsonSafe(c) then [c]
    else if c == Quote || c == Backslash then [Backslash, c]
    else if c == 10 then [Backslash, 110]
    else if c == 13 then [Backslash, 114]
    else if c == 9 then [Backslash, 116]
    else [Backslash, 117, 48, 48, LowerNibble(c / 16), LowerNibble(c % 16)]
  }

  function JsonEscapeAll(s: Bytes): Bytes {
    if s == [] then [] else JsonEscape(s[0]) + JsonEscapeAll(s[1..])
  }

  /** `json.Marshal` of a string value. */
  function JsonString(s: Bytes): Bytes {
    [Quote] + JsonEscapeAll(s) + [Quote]
  }

  /** A string of safe characters is rendered verbatim between quotes. */
  lemma {:induction false} JsonStringOfSafe(s: Bytes)
    requires forall i :: 0 <= i < |s| ==> JsonSafe(s[i])
    ensures JsonString(s) == [Quote] + s + [Quote]
  {
    JsonEscapeAllOfSafe(s);
  }

  lemma {:induction false} JsonEscapeAllOfSafe(s: Bytes)
    requires forall i :: 0 <= i < |s| ==> JsonSafe(s[i])
    ensures JsonEscapeAll(s) == s
  {
    if s != [] {
      JsonEscapeAllOfSafe(s[1..]);
    }
  }
}
