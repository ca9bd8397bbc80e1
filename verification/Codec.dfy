/** Text fields as lower-case Base16 of their UTF-8 bytes, as the file ledgers write them. */
module Codec {
  import opened Sequences
  import opened Spelling
  import opened Text

  type Byte = b: int | 0 <= b < 256

  // ---------------------------------------------------------------- UTF-8 (RFC 3629)

  /** Code points: everything but the surrogates. */
  predicate IsScalar(n: int) {
    0 <= n < 0xD800 || 0xE000 <= n < 0x11_0000
  }

  predicate IsContinuation(b: Byte) {
    0x80 <= b < 0xC0
  }

  function EncodeScalar(n: int): (r: seq<Byte>)
    requires IsScalar(n)
    ensures r != []
  {
    if n < 0x80 then [n]
    else if n < 0x800 then [0xC0 + n / 64, 0x80 + n % 64]
    else if n < 0x1_0000 then [0xE0 + n / 64 / 64, 0x80 + n / 64 % 64, 0x80 + n % 64]
    else [0xF0 + n / 64 / 64 / 64, 0x80 + n / 64 / 64 % 64, 0x80 + n / 64 % 64, 0x80 + n % 64]
  }

  /** Number of bytes a leading byte announces; 0 for a byte that cannot lead. */
  function SequenceLength(b: Byte): nat {
    if b < 0x80 then 1
    else if b < 0xC0 then 0
    else if b < 0xE0 then 2
    else if b < 0xF0 then 3
    else if b < 0xF8 then 4
    else 0
  }

  /** The code point of one complete sequence; overlong forms and surrogates are rejected. */
  function DecodeSequence(b: seq<Byte>): (r: Option<int>)
    ensures r.Some? ==> IsScalar(r.value)
  {
    if |b| == 1 && b[0] < 0x80 then Some(b[0])
    else if |b| == 2 && 0xC0 <= b[0] < 0xE0 && IsContinuation(b[1]) then
      Checked(Combine(b[0] - 0xC0, b[1]), 0x80)
    else if |b| == 3 && 0xE0 <= b[0] < 0xF0 && IsContinuation(b[1]) && IsContinuation(b[2]) then
      Checked(Combine(Combine(b[0] - 0xE0, b[1]), b[2]), 0x800)
    else if |b| == 4 && 0xF0 <= b[0] < 0xF8 && IsContinuation(b[1]) && IsContinuation(b[2]) && IsContinuation(b[3]) then
      Checked(Combine(Combine(Combine(b[0] - 0xF0, b[1]), b[2]), b[3]), 0x1_0000)
    else None
  }

  /** Appends the six payload bits of a continuation byte. */
  function Combine(high: int, b: Byte): int {
    64 * high + (b - 0x80)
  }

  function Checked(n: int, least: int): Option<int> {
    if n >= least && IsScalar(n) then Some(n) else None
  }

  function Utf8(s: string): seq<Byte> {
    if s == "" then [] else EncodeScalar(s[0] as int) + Utf8(s[1..])
  }

  function FromUtf8(b: seq<Byte>): Option<string> {
    if b == [] then Some("")
    else
      var n := SequenceLength(b[0]);
      if n == 0 || |b| < n then None
      else
        match (DecodeSequence(b[..n]), FromUtf8(b[n..]))
        case (Some(c), Some(rest)) => Some([c as char] + rest)
        case _ => None
  }

  lemma DecodeEncodedScalar(n: int)
    requires IsScalar(n)
    ensures SequenceLength(EncodeScalar(n)[0]) == |EncodeScalar(n)|
    ensures DecodeSequence(EncodeScalar(n)) == Some(n)
  {
    CombineSplit(n);
    CombineSplit(n / 64);
    CombineSplit(n / 64 / 64);
  }

  lemma CombineSplit(n: int)
    requires n >= 0
    ensures Combine(n / 64, 0x80 + n % 64) == n
  {
  }

  lemma {:induction false} Utf8RoundTrip(s: string)
    ensures FromUtf8(Utf8(s)) == Some(s)
  {
    if s != "" {
      var head := EncodeScalar(s[0] as int);
      DecodeEncodedScalar(s[0] as int);
      Utf8RoundTrip(s[1..]);
      assert Utf8(s)[..|head|] == head && Utf8(s)[|head|..] == Utf8(s[1..]);
      assert [s[0]] + s[1..] == s;
    }
  }

  /** A text of code points below 128 is its own encoding. */
  lemma {:induction false} AsciiIsItself(s: string)
    requires forall i :: 0 <= i < |s| ==> s[i] as int < 0x80
    ensures |Utf8(s)| == |s| && forall i :: 0 <= i < |s| ==> Utf8(s)[i] == s[i] as int
  {
    if s != "" {
      AsciiIsItself(s[1..]);
    }
  }

  /** One code point of each length: U+00A2, U+20AC and U+10348. */
  lemma KnownEncodings()
    ensures EncodeScalar(0xA2) == [0xC2, 0xA2]
    ensures EncodeScalar(0x20AC) == [0xE2, 0x82, 0xAC]
    ensures EncodeScalar(0x1_0348) == [0xF0, 0x90, 0x8D, 0x88]
  {
  }

  /** Decoding accepts the shortest form only, so a text has one encoding. */
  lemma EncodeDecodedSequence(b: seq<Byte>)
    requires DecodeSequence(b).Some?
    ensures EncodeScalar(DecodeSequence(b).value) == b
  {
    if |b| == 2 {
      SplitCombine(b[0] - 0xC0, b[1]);
    } else if |b| == 3 {
      var high := Combine(b[0] - 0xE0, b[1]);
      SplitCombine(b[0] - 0xE0, b[1]);
      SplitCombine(high, b[2]);
    } else if |b| == 4 {
      var high := Combine(b[0] - 0xF0, b[1]);
      SplitCombine(b[0] - 0xF0, b[1]);
      SplitCombine(high, b[2]);
      SplitCombine(Combine(high, b[2]), b[3]);
    }
  }

  lemma SplitCombine(high: int, b: Byte)
    requires high >= 0 && IsContinuation(b)
    ensures Combine(high, b) / 64 == high && Combine(high, b) % 64 == b - 0x80
  {
  }

  /** One decoding step, spelled out. */
  lemma FromUtf8Step(b: seq<Byte>) returns (n: nat, c: int, rest: string)
    requires b != [] && FromUtf8(b).Some?
    ensures 0 < n <= |b| && DecodeSequence(b[..n]) == Some(c) && FromUtf8(b[n..]) == Some(rest)
    ensures FromUtf8(b).value == [c as char] + rest
  {
    n := SequenceLength(b[0]);
    c, rest := DecodeSequence(b[..n]).value, FromUtf8(b[n..]).value;
  }

  lemma {:induction false} Utf8IsCanonical(b: seq<Byte>)
    requires FromUtf8(b).Some?
    ensures Utf8(FromUtf8(b).value) == b
  {
    if b != [] {
      var n, c, rest := FromUtf8Step(b);
      Utf8IsCanonical(b[n..]);
      EncodeStep(b[..n], c, rest);
      Parts(b, n);
    }
  }

  lemma Parts(b: seq<Byte>, n: nat)
    requires n <= |b|
    ensures b[..n] + b[n..] == b
  {
  }

  lemma EncodeStep(head: seq<Byte>, c: int, rest: string)
    requires DecodeSequence(head) == Some(c)
    ensures Utf8([c as char] + rest) == head + Utf8(rest)
  {
    EncodeDecodedSequence(head);
    Utf8Cons(c, rest);
  }

  lemma Utf8Cons(c: int, rest: string)
    requires IsScalar(c)
    ensures Utf8([c as char] + rest) == EncodeScalar(c) + Utf8(rest)
  {
    var s := [c as char] + rest;
    assert s[0] as int == c && s[1..] == rest;
  }

  // ---------------------------------------------------------------- Base16 (RFC 4648, section 8)

  function HexDigit(d: int): char
    requires 0 <= d < 16
  {
    if d < 10 then '0' + d as char else 'a' + (d - 10) as char
  }

  /** Decoding accepts both cases; encoding writes lower case. */
  function HexValue(c: char): Option<int> {
    if '0' <= c <= '9' then Some(c as int - '0' as int)
    else if 'a' <= c <= 'f' then Some(c as int - 'a' as int + 10)
    else if 'A' <= c <= 'F' then Some(c as int - 'A' as int + 10)
    else None
  }

  function HexEncode(b: seq<Byte>): string {
    if b == [] then "" else [HexDigit(b[0] / 16), HexDigit(b[0] % 16)] + HexEncode(b[1..])
  }

  function HexPair(high: char, low: char): (r: Option<Byte>) {
    match (HexValue(high), HexValue(low))
    case (Some(h), Some(l)) => if 0 <= h < 16 && 0 <= l < 16 then Some(16 * h + l) else None
    case _ => None
  }

  function HexDecode(s: string): Option<seq<Byte>> {
    if s == "" then Some([])
    else if |s| == 1 then None
    else
      match (HexPair(s[0], s[1]), HexDecode(s[2..]))
      case (Some(b), Some(rest)) => Some([b] + rest)
      case _ => None
  }

  lemma {:induction false} HexRoundTrip(b: seq<Byte>)
    ensures HexDecode(HexEncode(b)) == Some(b)
  {
    if b != [] {
      HexRoundTrip(b[1..]);
      assert HexEncode(b)[2..] == HexEncode(b[1..]);
      assert HexPair(HexDigit(b[0] / 16), HexDigit(b[0] % 16)) == Some(b[0]);
      assert [b[0]] + b[1..] == b;
    }
  }

  lemma {:induction false} HexLengths(b: seq<Byte>, s: string)
    ensures |HexEncode(b)| == 2 * |b|
    ensures HexDecode(s).Some? ==> |s| == 2 * |HexDecode(s).value|
    decreases |b|, |s|
  {
    if b != [] {
      HexLengths(b[1..], "");
    }
    if |s| > 1 {
      HexLengths([], s[2..]);
    }
  }

  predicate IsHexChar(c: char) {
    '0' <= c <= '9' || 'a' <= c <= 'f'
  }

  lemma {:induction false} HexEncodeIsHex(b: seq<Byte>)
    ensures forall i :: 0 <= i < |HexEncode(b)| ==> IsHexChar(HexEncode(b)[i])
  {
    if b != [] {
      HexEncodeIsHex(b[1..]);
    }
  }

  /** Capitals are read like small letters. */
  lemma {:induction false} CapitalsAreRead(s: string, t: string)
    requires |s| == |t| && forall i :: 0 <= i < |s| ==> SameLetter(s[i], t[i])
    ensures HexDecode(s) == HexDecode(t)
  {
    if |s| > 1 {
      assert SameLetter(s[0], t[0]) && SameLetter(s[1], t[1]);
      CapitalsAreRead(s[2..], t[2..]);
    }
  }

  // ---------------------------------------------------------------- fields

  function EncodeField(v: string): string {
    HexEncode(Utf8(v))
  }

  function DecodeField(v: string): Option<string> {
    match HexDecode(v)
    case None => None
    case Some(bytes) => FromUtf8(bytes)
  }

  /** Any text survives being written and read back. */
  lemma FieldRoundTrip(v: string)
    ensures DecodeField(EncodeField(v)) == Some(v)
  {
    Utf8RoundTrip(v);
    HexRoundTrip(Utf8(v));
  }

  /** Digits put in front of a written field change what is read. */
  lemma PrefixedFieldDiffers(p: string, v: string)
    requires p != ""
    ensures DecodeField(p + EncodeField(v)) != Some(v)
  {
    if DecodeField(p + EncodeField(v)) == Some(v) {
      var bytes := HexDecode(p + EncodeField(v)).value;
      Utf8IsCanonical(bytes);
      HexLengths(Utf8(v), p + EncodeField(v));
    }
  }

  /** A written field holds hexadecimal digits only, whatever the text contains. */
  lemma EncodedIsFree(v: string, c: char)
    requires !IsHexChar(c)
    ensures Free(EncodeField(v), c)
  {
    HexEncodeIsHex(Utf8(v));
  }

  lemma PrintedIsFree(n: nat, c: char)
    requires !IsHexChar(c)
    ensures Free(PrintNat(n), c)
  {
    DigitsOfNat(n);
  }
}
