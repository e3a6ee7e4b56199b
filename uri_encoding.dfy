/** `encodeURIComponent` as section 19.2.6.5 of ECMA-262 defines it: every
    character outside the unreserved set is replaced by the percent escapes
    (section 2.1 of RFC 3986, upper-case hexadecimal) of its UTF-8 bytes
    (section 3 of RFC 3629). A reference decoder shows that the encoding loses
    nothing: decoding the encoded text gives back the original text. */
module UriEncoding {
  import opened Wrappers

  /** The characters `encodeURIComponent` leaves as they are: ASCII letters and
      digits and the marks - _ . ! ~ * ' ( ). */
  predicate IsUnreserved(c: char)
  {
    || ('A' <= c <= 'Z') || ('a' <= c <= 'z') || ('0' <= c <= '9')
    || c == '-' || c == '_' || c == '.' || c == '!' || c == '~' || c == '*' || c == '\'' || c == '(' || c == ')'
  }

  predicate IsByte(b: int) { 0 <= b < 256 }

  predicate AllBytes(bs: seq<int>) { forall i :: 0 <= i < |bs| ==> IsByte(bs[i]) }

  function Prepend<T>(prefix: seq<T>, rest: Option<seq<T>>): Option<seq<T>>
  {
    match rest
    case Some(r) => Some(prefix + r)
    case None => None
  }

  // ---------------------------------------------------------------------------
  // Encoding
  // ---------------------------------------------------------------------------

  /** The UTF-8 bytes of one Unicode scalar value. */
  function Utf8(c: char): (bs: seq<int>)
    ensures 1 <= |bs| <= 4 && AllBytes(bs)
  {
    var cp := c as int;
    if cp < 0x80 then [cp]
    else if cp < 0x800 then [0xC0 + cp / 64, 0x80 + cp % 64]
    else if cp < 0x10000 then [0xE0 + cp / 4096, 0x80 + cp / 64 % 64, 0x80 + cp % 64]
    else [0xF0 + cp / 0x40000, 0x80 + cp / 4096 % 64, 0x80 + cp / 64 % 64, 0x80 + cp % 64]
  }

  /** The UTF-8 bytes of a whole string, character by character. */
  function Utf8String(s: string): (bs: seq<int>)
    ensures AllBytes(bs)
    decreases |s|
  {
    if s == [] then [] else Utf8(s[0]) + Utf8String(s[1..])
  }

  function HexDigit(n: nat): (c: char)
    requires n < 16
    ensures IsUnreserved(c)
  {
    if n < 10 then (n + '0' as int) as char else (n - 10 + 'A' as int) as char
  }

  /** One byte as `%HH`. */
  function Escape(b: int): string
    requires IsByte(b)
  {
    ['%', HexDigit(b / 16), HexDigit(b % 16)]
  }

  function EscapeAll(bs: seq<int>): (s: string)
    requires AllBytes(bs)
    ensures forall i :: 0 <= i < |s| ==> IsUnreserved(s[i]) || s[i] == '%'
    decreases |bs|
  {
    if bs == [] then "" else Escape(bs[0]) + EscapeAll(bs[1..])
  }

  function EncodeChar(c: char): string
  {
    if IsUnreserved(c) then [c] else EscapeAll(Utf8(c))
  }

  /** `encodeURIComponent(s)`. What it produces holds only unreserved characters
      and `%`, so no `?`, `#`, `&`, `=` or space can reach the URL from s. */
  function EncodeURIComponent(s: string): (r: string)
    ensures forall i :: 0 <= i < |r| ==> IsUnreserved(r[i]) || r[i] == '%'
    decreases |s|
  {
    if s == [] then "" else EncodeChar(s[0]) + EncodeURIComponent(s[1..])
  }

  // ---------------------------------------------------------------------------
  // Reference decoding
  // ---------------------------------------------------------------------------

  predicate IsHexDigit(c: char)
  {
    ('0' <= c <= '9') || ('A' <= c <= 'F') || ('a' <= c <= 'f')
  }

  function HexValue(c: char): (n: nat)
    requires IsHexDigit(c)
    ensures n < 16
  {
    if c <= '9' then c as int - '0' as int
    else if c <= 'F' then c as int - 'A' as int + 10
    else c as int - 'a' as int + 10
  }

  /** Percent-decoding to bytes: `%HH` is one byte, any other ASCII character is its own byte. */
  function UnescapeBytes(s: string): (r: Option<seq<int>>)
    ensures r.Some? ==> AllBytes(r.value)
    decreases |s|
  {
    if s == [] then Some([])
    else if s[0] == '%' then
      if |s| >= 3 && IsHexDigit(s[1]) && IsHexDigit(s[2])
      then Prepend([HexValue(s[1]) * 16 + HexValue(s[2])], UnescapeBytes(s[3..]))
      else None
    else if s[0] as int < 0x80 then Prepend([s[0] as int], UnescapeBytes(s[1..]))
    else None
  }

  /** How many bytes a UTF-8 sequence that starts with this byte has (0: not a lead byte). */
  function SequenceLength(lead: int): nat
  {
    if 0 <= lead < 0x80 then 1
    else if 0xC0 <= lead < 0xE0 then 2
    else if 0xE0 <= lead < 0xF0 then 3
    else if 0xF0 <= lead < 0xF8 then 4
    else 0
  }

  predicate IsContinuation(b: int) { 0x80 <= b < 0xC0 }

  predicate AllContinuations(bs: seq<int>) { forall i :: 0 <= i < |bs| ==> IsContinuation(bs[i]) }

  /** The code point the 1 to 4 bytes of one UTF-8 sequence stand for. */
  function CodePoint(bs: seq<int>): int
    requires 1 <= |bs| <= 4
  {
    if |bs| == 1 then bs[0]
    else if |bs| == 2 then (bs[0] - 0xC0) * 64 + (bs[1] - 0x80)
    else if |bs| == 3 then (bs[0] - 0xE0) * 4096 + (bs[1] - 0x80) * 64 + (bs[2] - 0x80)
    else (bs[0] - 0xF0) * 0x40000 + (bs[1] - 0x80) * 4096 + (bs[2] - 0x80) * 64 + (bs[3] - 0x80)
  }

  predicate IsScalarValue(cp: int)
  {
    (0 <= cp < 0xD800) || (0xE000 <= cp < 0x11_0000)
  }

  function Utf8Decode(bs: seq<int>): Option<string>
    decreases |bs|
  {
    if bs == [] then Some("")
    else
      var n := SequenceLength(bs[0]);
      if n == 0 || |bs| < n || !AllContinuations(bs[1..n]) then None
      else
        var cp := CodePoint(bs[..n]);
        if IsScalarValue(cp) then Prepend([cp as char], Utf8Decode(bs[n..])) else None
  }

  function DecodeURIComponent(s: string): Option<string>
  {
    match UnescapeBytes(s)
    case Some(bs) => Utf8Decode(bs)
    case None => None
  }

  // ---------------------------------------------------------------------------
  // The round trip
  // ---------------------------------------------------------------------------

  /** The bytes `Utf8` gives for c form one well-formed sequence that stands for c. */
  lemma Utf8Sequence(c: char)
    ensures SequenceLength(Utf8(c)[0]) == |Utf8(c)|
    ensures AllContinuations(Utf8(c)[1..])
    ensures CodePoint(Utf8(c)) == c as int
  {
    var cp := c as int;
    var bs := Utf8(c);
    if cp < 0x80 {
    } else if cp < 0x800 {
      assert cp == cp / 64 * 64 + cp % 64;
    } else if cp < 0x10000 {
      var q := cp / 64;
      assert cp == q * 64 + cp % 64;
      assert q == q / 64 * 64 + q % 64;
      assert q / 64 == cp / 4096;
    } else {
      var q1 := cp / 64;
      var q2 := q1 / 64;
      assert cp == q1 * 64 + cp % 64;
      assert q1 == q2 * 64 + q1 % 64;
      assert q2 == q2 / 64 * 64 + q2 % 64;
      assert q2 == cp / 4096;
      assert q2 / 64 == cp / 0x40000;
      assert bs[1] == 0x80 + q2 % 64 && bs[2] == 0x80 + q1 % 64;
    }
  }

  lemma Utf8DecodeChar(c: char, rest: seq<int>)
    ensures Utf8Decode(Utf8(c) + rest) == Prepend([c], Utf8Decode(rest))
  {
    var bs := Utf8(c);
    var all := bs + rest;
    Utf8Sequence(c);
    assert all[0] == bs[0];
    assert all[1..|bs|] == bs[1..];
    assert all[..|bs|] == bs;
    assert all[|bs|..] == rest;
  }

  /** Decoding the UTF-8 bytes of s gives s back. */
  lemma {:induction false} Utf8RoundTrip(s: string)
    ensures Utf8Decode(Utf8String(s)) == Some(s)
    decreases |s|
  {
    if s != [] {
      Utf8RoundTrip(s[1..]);
      Utf8DecodeChar(s[0], Utf8String(s[1..]));
      assert [s[0]] + s[1..] == s;
    }
  }

  lemma HexRoundTrip(n: nat)
    requires n < 16
    ensures IsHexDigit(HexDigit(n)) && HexValue(HexDigit(n)) == n
  {
  }

  lemma UnescapeEscape(b: int, rest: string)
    requires IsByte(b)
    ensures UnescapeBytes(Escape(b) + rest) == Prepend([b], UnescapeBytes(rest))
  {
    var s := Escape(b) + rest;
    HexRoundTrip(b / 16);
    HexRoundTrip(b % 16);
    assert s[0] == '%' && s[1] == HexDigit(b / 16) && s[2] == HexDigit(b % 16);
    assert s[3..] == rest;
  }

  lemma PrependPrepend<T>(a: seq<T>, b: seq<T>, r: Option<seq<T>>)
    ensures Prepend(a, Prepend(b, r)) == Prepend(a + b, r)
  {
    if r.Some? {
      assert a + (b + r.value) == (a + b) + r.value;
    }
  }

  lemma {:induction false} UnescapeEscapeAll(bs: seq<int>, rest: string)
    requires AllBytes(bs)
    ensures UnescapeBytes(EscapeAll(bs) + rest) == Prepend(bs, UnescapeBytes(rest))
    decreases |bs|
  {
    if bs == [] {
      assert EscapeAll(bs) + rest == rest;
      if UnescapeBytes(rest).Some? {
        assert bs + UnescapeBytes(rest).value == UnescapeBytes(rest).value;
      }
    } else {
      var e0, es := Escape(bs[0]), EscapeAll(bs[1..]);
      var tail := es + rest;
      assert EscapeAll(bs) + rest == e0 + tail by {
        assert EscapeAll(bs) == e0 + es;
      }
      UnescapeEscape(bs[0], tail);
      UnescapeEscapeAll(bs[1..], rest);
      PrependPrepend([bs[0]], bs[1..], UnescapeBytes(rest));
      assert [bs[0]] + bs[1..] == bs;
    }
  }

  lemma UnescapeEncodeChar(c: char, rest: string)
    ensures UnescapeBytes(EncodeChar(c) + rest) == Prepend(Utf8(c), UnescapeBytes(rest))
  {
    if IsUnreserved(c) {
      var s := EncodeChar(c) + rest;
      assert s[0] == c && s[1..] == rest;
    } else {
      UnescapeEscapeAll(Utf8(c), rest);
    }
  }

  /** Percent-decoding the encoded text gives the UTF-8 bytes of the original. */
  lemma {:induction false} UnescapeEncode(s: string)
    ensures UnescapeBytes(EncodeURIComponent(s)) == Some(Utf8String(s))
    decreases |s|
  {
    if s != [] {
      UnescapeEncode(s[1..]);
      UnescapeEncodeChar(s[0], EncodeURIComponent(s[1..]));
    }
  }

  /** Encoding loses nothing: decoding what `encodeURIComponent` produced gives the text back. */
  lemma DecodeEncode(s: string)
    ensures DecodeURIComponent(EncodeURIComponent(s)) == Some(s)
  {
    UnescapeEncode(s);
    Utf8RoundTrip(s);
  }

  /** Encoding is injective: different texts never give the same encoded form. */
  lemma EncodeInjective(s: string, t: string)
    requires EncodeURIComponent(s) == EncodeURIComponent(t)
    ensures s == t
  {
    DecodeEncode(s);
    DecodeEncode(t);
  }
}
