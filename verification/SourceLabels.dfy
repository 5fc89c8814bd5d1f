/**
 Source labels of the health store: percent-encoding of the characters the file format gives a meaning, and
 byte-wise decoding.
 */
module SourceLabels {
  import opened Text

  type Byte = b: nat | b < 256

  /** The Unicode White_Space property. */
  predicate IsWhitespace(c: char) {
    var n := c as int;
    || 0x09 <= n <= 0x0D || n == 0x20 || n == 0x85 || n == 0xA0 || n == 0x1680 || 0x2000 <= n <= 0x200A
    || n == 0x2028 || n == 0x2029 || n == 0x202F || n == 0x205F || n == 0x3000
  }

  // ---------------------------------------------------------------------------------------------
  // UTF-8
  // ---------------------------------------------------------------------------------------------

  function CharBytes(c: char): seq<Byte> {
    var n := c as int;
    if n < 0x80 then [n]
    else if n < 0x800 then [0xC0 + n / 64, 0x80 + n % 64]
    else if n < 0x1_0000 then [0xE0 + n / 64 / 64, 0x80 + n / 64 % 64, 0x80 + n % 64]
    else [0xF0 + n / 64 / 64 / 64, 0x80 + n / 64 / 64 % 64, 0x80 + n / 64 % 64, 0x80 + n % 64]
  }

  function Utf8(s: string): seq<Byte> {
    if s == "" then [] else CharBytes(s[0]) + Utf8(s[1..])
  }

  /** How many bytes the character that starts with this byte takes; none starts with the others. */
  function Width(lead: Byte): nat {
    if lead < 0x80 then 1
    else if lead < 0xC0 then 0
    else if lead < 0xE0 then 2
    else if lead < 0xF0 then 3
    else if lead < 0xF8 then 4
    else 0
  }

  /** One more continuation byte after the bits read so far. */
  function Shift(bits: int, b: Byte): int {
    bits * 64 + (b as int - 0x80)
  }

  function CodePoint(bs: seq<Byte>): int
    requires bs != [] && |bs| == Width(bs[0])
  {
    var lead := bs[0] as int;
    if |bs| == 1 then lead
    else if |bs| == 2 then Shift(lead - 0xC0, bs[1])
    else if |bs| == 3 then Shift(Shift(lead - 0xE0, bs[1]), bs[2])
    else Shift(Shift(Shift(lead - 0xF0, bs[1]), bs[2]), bs[3])
  }

  predicate IsScalar(n: int) {
    0 <= n < 0xD800 || 0xE000 <= n < 0x11_0000
  }

  /** Strict decoding: only shortest forms of scalar values are characters. */
  function FromUtf8(bs: seq<Byte>): Option<string> {
    if bs == [] then Some("")
    else
      var k := Width(bs[0]);
      if k == 0 || k > |bs| then None
      else
        var n := CodePoint(bs[..k]);
        if !IsScalar(n) || CharBytes(n as char) != bs[..k] then None
        else match FromUtf8(bs[k..])
          case None => None
          case Some(rest) => Some([n as char] + rest)
  }

  lemma CharBytesDecode(c: char)
    ensures CharBytes(c) != [] && |CharBytes(c)| == Width(CharBytes(c)[0]) && CodePoint(CharBytes(c)) == c as int
  {
  }

  lemma {:induction false} Utf8RoundTrip(s: string)
    ensures FromUtf8(Utf8(s)) == Some(s)
  {
    if s != "" {
      var bs, head := Utf8(s), CharBytes(s[0]);
      CharBytesDecode(s[0]);
      assert bs[..|head|] == head && bs[|head|..] == Utf8(s[1..]);
      Utf8RoundTrip(s[1..]);
      assert s == [s[0]] + s[1..];
    }
  }

  lemma {:induction false} Utf8Concat(a: string, b: string)
    ensures Utf8(a + b) == Utf8(a) + Utf8(b)
  {
    if a == "" {
      assert a + b == b;
    } else {
      assert (a + b)[1..] == a[1..] + b;
      Utf8Concat(a[1..], b);
    }
  }

  // ---------------------------------------------------------------------------------------------
  // Encoding
  // ---------------------------------------------------------------------------------------------

  function HexChar(d: nat): char
    requires d < 16
  {
    if d < 10 then ('0' as int + d) as char else ('A' as int + d - 10) as char
  }

  function EscapeByte(b: Byte): string {
    ['%', HexChar(b / 16), HexChar(b % 16)]
  }

  function EscapeBytes(bs: seq<Byte>): string {
    if bs == [] then "" else EscapeByte(bs[0]) + EscapeBytes(bs[1..])
  }

  predicate IsDelimiter(c: char) {
    c == '%' || c == ',' || IsWhitespace(c)
  }

  function EncodeChar(c: char): string {
    if c == '%' then "%25" else if c == ',' then "%2C"
    else if IsWhitespace(c) then EscapeBytes(CharBytes(c)) else [c]
  }

  function Encode(source: string): string {
    if source == "" then "" else EncodeChar(source[0]) + Encode(source[1..])
  }

  method AppendEscaped(out: string, c: char) returns (longer: string)
    ensures longer == out + EscapeBytes(CharBytes(c))
  {
    longer := out;
    var bytes := CharBytes(c);
    for j := 0 to |bytes|
      invariant longer + EscapeBytes(bytes[j..]) == out + EscapeBytes(bytes)
    {
      assert bytes[j..][1..] == bytes[j + 1..];
      assert longer + (EscapeByte(bytes[j]) + EscapeBytes(bytes[j + 1..]))
          == (longer + EscapeByte(bytes[j])) + EscapeBytes(bytes[j + 1..]);
      longer := longer + EscapeByte(bytes[j]);
    }
  }

  /** `encode_source`, one pass over the characters and, for white space, over their bytes. */
  method EncodeSource(source: string) returns (out: string)
    ensures out == Encode(source)
  {
    out := "";
    for i := 0 to |source|
      invariant out + Encode(source[i..]) == Encode(source)
    {
      var c := source[i];
      assert source[i..][1..] == source[i + 1..];
      assert out + (EncodeChar(c) + Encode(source[i + 1..])) == (out + EncodeChar(c)) + Encode(source[i + 1..]);
      if c == '%' {
        out := out + "%25";
      } else if c == ',' {
        out := out + "%2C";
      } else if IsWhitespace(c) {
        out := AppendEscaped(out, c);
      } else {
        out := out + [c];
      }
    }
  }

  /** A label is stored as it is exactly when it has no comma, no percent sign and no white space. */
  lemma {:induction false} OrdinaryLabelsStay(source: string)
    ensures |Encode(source)| >= |source|
    ensures Encode(source) == source <==>
      forall i | 0 <= i < |source| :: source[i] != ',' && source[i] != '%' && !IsWhitespace(source[i])
  {
    if source != "" {
      var c, rest := source[0], source[1..];
      OrdinaryLabelsStay(rest);
      assert source == [c] + rest;
      if c == ',' || c == '%' || IsWhitespace(c) {
        assert |EncodeChar(c)| > 1;
      } else {
        assert Encode(source)[1..] == Encode(rest);
        assert forall i | 0 <= i < |rest| :: rest[i] == source[i + 1];
      }
    }
  }

  /** `to_digit(16)` of a byte. */
  function HexValue(b: Byte): Option<nat> {
    if 0x30 <= b <= 0x39 then Some(b - 0x30)
    else if 0x41 <= b <= 0x46 then Some(b - 0x41 + 10)
    else if 0x61 <= b <= 0x66 then Some(b - 0x61 + 10)
    else None
  }

  /** A `%` with two hex digits behind it stands for a byte. */
  predicate IsEscape(bs: seq<Byte>) {
    |bs| > 2 && bs[0] == 0x25 && HexValue(bs[1]).Some? && HexValue(bs[2]).Some?
  }

  function Unescape(bs: seq<Byte>): Byte
    requires IsEscape(bs)
  {
    HexIsDigit(bs[1]);
    HexIsDigit(bs[2]);
    HexValue(bs[1]).value * 16 + HexValue(bs[2]).value
  }

  lemma HexIsDigit(b: Byte)
    ensures HexValue(b).Some? ==> HexValue(b).value < 16
  {
  }

  function DecodeBytes(bs: seq<Byte>): seq<Byte> {
    if bs == [] then []
    else if IsEscape(bs) then [Unescape(bs)] + DecodeBytes(bs[3..])
    else [bs[0]] + DecodeBytes(bs[1..])
  }

  lemma EscapeAt(out: seq<Byte>, bytes: seq<Byte>, i: nat)
    requires i + 2 < |bytes| && bytes[i] == 0x25 && HexValue(bytes[i + 1]).Some? && HexValue(bytes[i + 2]).Some?
    ensures HexValue(bytes[i + 1]).value < 16 && HexValue(bytes[i + 2]).value < 16
    ensures out + DecodeBytes(bytes[i..])
         == (out + [HexValue(bytes[i + 1]).value * 16 + HexValue(bytes[i + 2]).value]) + DecodeBytes(bytes[i + 3..])
  {
    assert bytes[i..][3..] == bytes[i + 3..];
    Regroup(out, HexValue(bytes[i + 1]).value * 16 + HexValue(bytes[i + 2]).value, DecodeBytes(bytes[i + 3..]));
  }

  lemma PlainAt(out: seq<Byte>, bytes: seq<Byte>, i: nat)
    requires i < |bytes| && !IsEscape(bytes[i..])
    ensures out + DecodeBytes(bytes[i..]) == (out + [bytes[i]]) + DecodeBytes(bytes[i + 1..])
  {
    assert bytes[i..][1..] == bytes[i + 1..];
    Regroup(out, bytes[i], DecodeBytes(bytes[i + 1..]));
  }

  lemma Regroup(out: seq<Byte>, b: Byte, rest: seq<Byte>)
    ensures out + ([b] + rest) == (out + [b]) + rest
  {
  }

  predicate IsHexDigit(b: Byte) {
    0x30 <= b <= 0x39 || 0x41 <= b <= 0x46 || 0x61 <= b <= 0x66
  }

  /** A percent sign without two hex digits behind it stands for itself. */
  lemma MalformedEscapeStays(bs: seq<Byte>)
    requires bs != [] && bs[0] == 0x25
    requires |bs| <= 2 || !IsHexDigit(bs[1]) || !IsHexDigit(bs[2])
    ensures DecodeBytes(bs) == [0x25] + DecodeBytes(bs[1..])
  {
  }

  /** `decode_source`; `lossy` is the replacement of ill-formed byte sequences. */
  method DecodeSource(token: string, lossy: seq<Byte> -> string) returns (source: string)
    ensures source == Decode(token, lossy)
  {
    var bytes := Utf8(token);
    var out := Unescaped(bytes);
    var text := FromUtf8(out);
    source := if text.Some? then text.value else lossy(out);
  }

  /** The loop of `decode_source`. */
  method Unescaped(bytes: seq<Byte>) returns (out: seq<Byte>)
    ensures out == DecodeBytes(bytes)
  {
    out := [];
    var i := 0;
    while i < |bytes|
      invariant 0 <= i <= |bytes|
      invariant DecodeBytes(bytes) == out + DecodeBytes(bytes[i..])
    {
      if bytes[i] == 0x25 && i + 2 < |bytes| {
        var hi, lo := HexValue(bytes[i + 1]), HexValue(bytes[i + 2]);
        if hi.Some? && lo.Some? {
          EscapeAt(out, bytes, i);
          out := out + [hi.value * 16 + lo.value];
          i := i + 3;
          continue;
        }
      }
      PlainAt(out, bytes, i);
      out := out + [bytes[i]];
      i := i + 1;
    }
  }

  function Decode(token: string, lossy: seq<Byte> -> string): string {
    var bytes := DecodeBytes(Utf8(token));
    match FromUtf8(bytes)
    case Some(s) => s
    case None => lossy(bytes)
  }

  // ---------------------------------------------------------------------------------------------
  // The round trip
  // ---------------------------------------------------------------------------------------------

  predicate Spells(e: seq<Byte>, b: Byte) {
    |e| == 3 && IsEscape(e) && Unescape(e) == b
  }

  function EscapedByte(b: Byte): (e: seq<Byte>)
    ensures Spells(e, b)
  {
    [0x25, HexChar(b / 16) as int, HexChar(b % 16) as int]
  }

  function EscapedBytes(bs: seq<Byte>): seq<Byte> {
    if bs == [] then [] else EscapedByte(bs[0]) + EscapedBytes(bs[1..])
  }

  lemma EscapeInUtf8(b: Byte)
    ensures Utf8(EscapeByte(b)) == EscapedByte(b)
  {
    var e := EscapeByte(b);
    assert e[1..][1..][1..] == "";
    assert Utf8(e[1..][1..]) == CharBytes(e[2]);
    assert Utf8(e[1..]) == CharBytes(e[1]) + CharBytes(e[2]);
  }

  lemma {:induction false} EscapesInUtf8(bs: seq<Byte>)
    ensures Utf8(EscapeBytes(bs)) == EscapedBytes(bs)
  {
    if bs != [] {
      EscapesInUtf8(bs[1..]);
      EscapeInUtf8(bs[0]);
      Utf8Concat(EscapeByte(bs[0]), EscapeBytes(bs[1..]));
    }
  }

  lemma EscapeDecodes(e: seq<Byte>, b: Byte, rest: seq<Byte>)
    requires Spells(e, b)
    ensures DecodeBytes(e + rest) == [b] + DecodeBytes(rest)
  {
    assert (e + rest)[3..] == rest;
  }

  lemma OneMoreEscape(e: seq<Byte>, b: Byte, tail: seq<Byte>, out: seq<Byte>, rest: seq<Byte>)
    requires Spells(e, b) && DecodeBytes(tail + rest) == out + DecodeBytes(rest)
    ensures DecodeBytes((e + tail) + rest) == ([b] + out) + DecodeBytes(rest)
  {
    EscapeDecodes(e, b, tail + rest);
    assert (e + tail) + rest == e + (tail + rest);
    assert ([b] + out) + DecodeBytes(rest) == [b] + (out + DecodeBytes(rest));
  }

  lemma {:induction false} EscapesDecode(bs: seq<Byte>, rest: seq<Byte>)
    ensures DecodeBytes(EscapedBytes(bs) + rest) == bs + DecodeBytes(rest)
  {
    if bs == [] {
      assert EscapedBytes(bs) + rest == rest;
    } else {
      EscapesDecode(bs[1..], rest);
      OneMoreEscape(EscapedByte(bs[0]), bs[0], EscapedBytes(bs[1..]), bs[1..], rest);
      assert bs == [bs[0]] + bs[1..];
    }
  }

  /** Bytes other than `%` are copied. */
  lemma {:induction false} PlainDecodes(bs: seq<Byte>, rest: seq<Byte>)
    requires forall i | 0 <= i < |bs| :: bs[i] != 0x25
    ensures DecodeBytes(bs + rest) == bs + DecodeBytes(rest)
  {
    if bs == [] {
      assert bs + rest == rest;
    } else {
      PlainDecodes(bs[1..], rest);
      assert (bs + rest)[1..] == bs[1..] + rest;
      assert bs == [bs[0]] + bs[1..];
    }
  }

  lemma EncodeCharIsEscape(c: char)
    ensures EncodeChar(c) == if IsDelimiter(c) then EscapeBytes(CharBytes(c)) else [c]
  {
    if c == '%' {
      assert EscapeByte(0x25) == "%25" && EscapeBytes([0x25]) == EscapeByte(0x25) + EscapeBytes([]);
    } else if c == ',' {
      assert EscapeByte(0x2C) == "%2C" && EscapeBytes([0x2C]) == EscapeByte(0x2C) + EscapeBytes([]);
    }
  }

  lemma CharDecodes(c: char, rest: seq<Byte>)
    ensures DecodeBytes(Utf8(EncodeChar(c)) + rest) == CharBytes(c) + DecodeBytes(rest)
  {
    EncodeCharIsEscape(c);
    if IsDelimiter(c) {
      EscapesInUtf8(CharBytes(c));
      EscapesDecode(CharBytes(c), rest);
    } else {
      assert [c][1..] == "" && Utf8([c]) == CharBytes(c) + Utf8("");
      assert Utf8([c]) == CharBytes(c);
      PlainDecodes(CharBytes(c), rest);
    }
  }

  lemma {:induction false} LabelDecodes(source: string)
    ensures DecodeBytes(Utf8(Encode(source))) == Utf8(source)
  {
    if source != "" {
      var head, tail := EncodeChar(source[0]), Encode(source[1..]);
      LabelDecodes(source[1..]);
      Utf8Concat(head, tail);
      CharDecodes(source[0], Utf8(tail));
    }
  }

  /** Decoding undoes encoding for every label, whatever percent signs, commas or white space it holds. */
  lemma SourceRoundTrip(source: string, lossy: seq<Byte> -> string)
    ensures Decode(Encode(source), lossy) == source
  {
    LabelDecodes(source);
    Utf8RoundTrip(source);
  }

  ghost predicate Clean(s: string) {
    forall i | 0 <= i < |s| :: s[i] != ',' && !IsWhitespace(s[i])
  }

  lemma {:induction false} EscapesAreClean(bs: seq<Byte>)
    ensures Clean(EscapeBytes(bs)) && (bs != [] ==> EscapeBytes(bs) != "")
  {
    if bs != [] { EscapesAreClean(bs[1..]); }
  }

  /** An encoded label has no separator of the file format in it, and is empty only for the empty label. */
  lemma {:induction false} EncodedIsClean(source: string)
    ensures Clean(Encode(source)) && (Encode(source) == "" <==> source == "")
  {
    if source != "" {
      EncodedIsClean(source[1..]);
      EncodeCharIsEscape(source[0]);
      EscapesAreClean(CharBytes(source[0]));
    }
  }
}
