/** The JavaScript string and number rules the storefront's code relies on:
    decimal text of an integer (template literals, `String(n)`), two-decimal
    formatting of a price (`toFixed(2)`), string length in UTF-16 code units
    (`.length`), `trim()`, `split(' ')`, and the `||` fallback on a string. */
module Strings {
  import opened Wrappers

  predicate IsDigit(c: char) { '0' <= c <= '9' }

  predicate AllDigits(s: string) { forall i :: 0 <= i < |s| ==> IsDigit(s[i]) }

  function DigitChar(d: nat): (c: char)
    requires d < 10
    ensures IsDigit(c)
  {
    (d + '0' as int) as char
  }

  function DigitValue(c: char): nat
    requires IsDigit(c)
  {
    c as int - '0' as int
  }

  // ---------------------------------------------------------------------------
  // Integers as decimal text
  // ---------------------------------------------------------------------------

  /** The decimal text of n: at least one digit, and a leading zero only for zero. */
  function NatToString(n: nat): (s: string)
    ensures |s| >= 1 && AllDigits(s)
    ensures s[0] == '0' <==> n == 0
    decreases n
  {
    if n < 10 then [DigitChar(n)] else NatToString(n / 10) + [DigitChar(n % 10)]
  }

  /** The text `${i}` gives for an integer i: a minus sign for a negative one,
      then the decimal digits of its magnitude. */
  function IntToString(i: int): (s: string)
    ensures |s| >= 1
    ensures s[0] == '-' <==> i < 0
  {
    if i < 0 then "-" + NatToString(-i) else NatToString(i)
  }

  /** The value of a string of decimal digits, read left to right. */
  function DigitsValue(s: string): nat
    requires AllDigits(s)
    decreases |s|
  {
    if s == [] then 0 else DigitsValue(s[..|s| - 1]) * 10 + DigitValue(s[|s| - 1])
  }

  lemma {:induction false} DigitValueOfDigitChar(d: nat)
    requires d < 10
    ensures DigitValue(DigitChar(d)) == d
  {
  }

  /** Reading back the decimal text of n gives n. */
  lemma {:induction false} NatToStringRoundTrip(n: nat)
    ensures DigitsValue(NatToString(n)) == n
    decreases n
  {
    var s := NatToString(n);
    if n < 10 {
      DigitValueOfDigitChar(n);
    } else {
      NatToStringRoundTrip(n / 10);
      DigitValueOfDigitChar(n % 10);
      assert s[..|s| - 1] == NatToString(n / 10);
    }
  }

  /** Decimal text is injective: two numbers with the same text are equal. */
  lemma NatToStringInjective(m: nat, n: nat)
    requires NatToString(m) == NatToString(n)
    ensures m == n
  {
    NatToStringRoundTrip(m);
    NatToStringRoundTrip(n);
  }

  // ---------------------------------------------------------------------------
  // Prices: an amount in cents printed with two fraction digits
  // ---------------------------------------------------------------------------

  function UnsignedCents(c: nat): string
  {
    var fraction := c % 100;
    NatToString(c / 100) + "." + [DigitChar(fraction / 10), DigitChar(fraction % 10)]
  }

  /** `(c / 100).toFixed(2)`: the amount c, held in cents, with exactly two fraction digits. */
  function FormatCents(c: int): (s: string)
    ensures |s| >= 4 && s[|s| - 3] == '.'
    ensures s[0] == '-' <==> c < 0
    ensures forall i :: 0 <= i < |s| && i != |s| - 3 && (i != 0 || c >= 0) ==> IsDigit(s[i])
  {
    if c < 0 then "-" + UnsignedCents(-c) else UnsignedCents(c)
  }

  function ParseUnsignedCents(s: string): Option<nat>
  {
    if |s| >= 4 && s[|s| - 3] == '.' && AllDigits(s[..|s| - 3]) && IsDigit(s[|s| - 2]) && IsDigit(s[|s| - 1])
    then Some(DigitsValue(s[..|s| - 3]) * 100 + DigitValue(s[|s| - 2]) * 10 + DigitValue(s[|s| - 1]))
    else None
  }

  /** Reads a price written as `[-]digits.dd` back into cents. */
  function ParseCents(s: string): Option<int>
  {
    if |s| > 0 && s[0] == '-' then
      match ParseUnsignedCents(s[1..])
      case Some(c) => Some(-(c as int))
      case None => None
    else ParseUnsignedCents(s)
  }

  lemma {:induction false} UnsignedCentsRoundTrip(c: nat)
    ensures ParseUnsignedCents(UnsignedCents(c)) == Some(c)
  {
    var s := UnsignedCents(c);
    var q, t, u := c / 100, c % 100 / 10, c % 100 % 10;
    var whole := NatToString(q);
    assert s[..|s| - 3] == whole;
    assert s[|s| - 2] == DigitChar(t) && s[|s| - 1] == DigitChar(u);
    NatToStringRoundTrip(q);
    DigitValueOfDigitChar(t);
    DigitValueOfDigitChar(u);
    CentsDigits(c);
  }

  lemma CentsDigits(c: nat)
    ensures (c / 100) * 100 + (c % 100 / 10) * 10 + c % 100 % 10 == c
  {
    var r := c % 100;
    assert (c / 100) * 100 + r == c;
    assert (r / 10) * 10 + r % 10 == r;
  }

  /** A formatted price reads back as the same number of cents: formatting loses nothing. */
  lemma {:induction false} FormatCentsRoundTrip(c: int)
    ensures ParseCents(FormatCents(c)) == Some(c)
  {
    if c < 0 {
      UnsignedCentsRoundTrip(-c);
      assert FormatCents(c)[1..] == UnsignedCents(-c);
    } else {
      UnsignedCentsRoundTrip(c);
      assert IsDigit(NatToString(c / 100)[0]);
    }
  }

  // ---------------------------------------------------------------------------
  // String length as JavaScript counts it
  // ---------------------------------------------------------------------------

  /** The UTF-16 code units of one character: two for a character outside the Basic Multilingual Plane. */
  function CodeUnits(c: char): nat
  {
    if c as int < 0x10000 then 1 else 2
  }

  /** `s.length`: the number of UTF-16 code units of s. It equals the number of
      characters exactly when no character lies outside the Basic Multilingual Plane. */
  function Utf16Length(s: string): (n: nat)
    ensures |s| <= n <= 2 * |s|
    ensures n == |s| <==> forall i :: 0 <= i < |s| ==> s[i] as int < 0x10000
    decreases |s|
  {
    if s == [] then 0 else CodeUnits(s[0]) + Utf16Length(s[1..])
  }

  // ---------------------------------------------------------------------------
  // trim()
  // ---------------------------------------------------------------------------

  /** The characters `String.prototype.trim` removes: ECMAScript's WhiteSpace
      (tab, vertical tab, form feed, no-break space, the byte order mark and the
      Unicode space separators) and LineTerminator (line feed, carriage return,
      line and paragraph separators). */
  predicate IsWhitespace(c: char)
  {
    || c == '\t' || c == '\n' || c == '\U{000B}' || c == '\U{000C}' || c == '\r'
    || c == ' ' || c == '\U{00A0}' || c == '\U{1680}' || ('\U{2000}' <= c <= '\U{200A}')
    || c == '\U{2028}' || c == '\U{2029}' || c == '\U{202F}' || c == '\U{205F}'
    || c == '\U{3000}' || c == '\U{FEFF}'
  }

  predicate IsBlank(s: string)
  {
    forall i :: 0 <= i < |s| ==> IsWhitespace(s[i])
  }

  /** Drops the leading whitespace: the result is a suffix of s, what was dropped
      is all whitespace, and the result does not start with whitespace. */
  function TrimStart(s: string): (r: string)
    ensures |r| <= |s| && r == s[|s| - |r|..]
    ensures forall i :: 0 <= i < |s| - |r| ==> IsWhitespace(s[i])
    ensures r != [] ==> !IsWhitespace(r[0])
    decreases |s|
  {
    if s != [] && IsWhitespace(s[0]) then TrimStart(s[1..]) else s
  }

  /** Drops the trailing whitespace: the result is a prefix of s, what was dropped
      is all whitespace, and the result does not end with whitespace. */
  function TrimEnd(s: string): (r: string)
    ensures |r| <= |s| && r == s[..|r|]
    ensures forall i :: |r| <= i < |s| ==> IsWhitespace(s[i])
    ensures r != [] ==> !IsWhitespace(r[|r| - 1])
    decreases |s|
  {
    if s != [] && IsWhitespace(s[|s| - 1]) then TrimEnd(s[..|s| - 1]) else s
  }

  /** `s.trim()`: a piece of s no longer than it, with no whitespace at either end. */
  function Trim(s: string): (r: string)
    ensures |r| <= |s|
    ensures r != [] ==> !IsWhitespace(r[0]) && !IsWhitespace(r[|r| - 1])
    ensures !IsBlank(s) ==> r != []
  {
    TrimEnd(TrimStart(s))
  }

  /** What `trim` keeps is one contiguous piece of s, with only whitespace
      before it and only whitespace after it. */
  lemma TrimIsPiece(s: string)
    ensures var r := Trim(s);
            exists a :: 0 <= a && a + |r| <= |s| && r == s[a..a + |r|]
                        && IsBlank(s[..a]) && IsBlank(s[a + |r|..])
  {
    var t := TrimStart(s);
    var r := TrimEnd(t);
    var a := |s| - |t|;
    var before, after := s[..a], s[a + |r|..];
    assert IsBlank(before) by {
      forall i | 0 <= i < |before|
        ensures IsWhitespace(before[i])
      {
        assert before[i] == s[i];
      }
    }
    assert IsBlank(after) by {
      forall i | 0 <= i < |after|
        ensures IsWhitespace(after[i])
      {
        assert after[i] == t[|r| + i];
      }
    }
    assert r == s[a..a + |r|];
  }

  /** `!s.trim()` holds exactly when s is empty or made only of whitespace. */
  lemma TrimEmptyIffBlank(s: string)
    ensures Trim(s) == "" <==> IsBlank(s)
  {
  }

  // ---------------------------------------------------------------------------
  // split(' ')
  // ---------------------------------------------------------------------------

  /** `s.split(sep)` for a one-character separator: the fields between the
      separators, empty fields included, so there is always at least one. */
  function Split(s: string, sep: char): (parts: seq<string>)
    ensures |parts| >= 1
    ensures forall k :: 0 <= k < |parts| ==> sep !in parts[k]
    decreases |s|
  {
    if s == [] then [""]
    else
      var rest := Split(s[1..], sep);
      if s[0] == sep then [""] + rest
      else [[s[0]] + rest[0]] + rest[1..]
  }

  /** `parts.join(sep)`. */
  function Join(parts: seq<string>, sep: char): string
    requires |parts| >= 1
    decreases |parts|
  {
    if |parts| == 1 then parts[0] else parts[0] + [sep] + Join(parts[1..], sep)
  }

  /** Splitting loses nothing: joining the fields with the separator gives s back. */
  lemma {:induction false} JoinSplit(s: string, sep: char)
    ensures Join(Split(s, sep), sep) == s
    decreases |s|
  {
    if s != [] {
      var rest := Split(s[1..], sep);
      JoinSplit(s[1..], sep);
      if s[0] == sep {
        assert Split(s, sep) == [""] + rest;
        assert Split(s, sep)[1..] == rest;
      } else {
        var parts := Split(s, sep);
        assert parts[0] == [s[0]] + rest[0];
        if |rest| == 1 {
          assert parts == [[s[0]] + rest[0]];
        } else {
          assert parts[1..] == rest[1..];
          assert Join(rest, sep) == rest[0] + [sep] + Join(rest[1..], sep);
        }
      }
    }
  }

  /** Joining fields that hold no separator and splitting again gives the same fields. */
  lemma {:induction false} SplitJoin(parts: seq<string>, sep: char)
    requires |parts| >= 1
    requires forall k :: 0 <= k < |parts| ==> sep !in parts[k]
    ensures Split(Join(parts, sep), sep) == parts
    decreases |parts|, |parts[0]|
  {
    var first := parts[0];
    if first == [] {
      if |parts| > 1 {
        SplitJoin(parts[1..], sep);
        assert Join(parts, sep) == [sep] + Join(parts[1..], sep);
        assert Join(parts, sep)[1..] == Join(parts[1..], sep);
      }
    } else {
      var tail := [first[1..]] + parts[1..];
      assert forall k :: 0 <= k < |tail| ==> sep !in tail[k] by {
        forall k | 0 <= k < |tail| ensures sep !in tail[k] {
          if k == 0 {
            assert forall j :: 0 <= j < |first[1..]| ==> first[1..][j] == first[j + 1];
          } else {
            assert tail[k] == parts[k];
          }
        }
      }
      SplitJoin(tail, sep);
      var whole := Join(parts, sep);
      assert whole == [first[0]] + Join(tail, sep) by {
        if |parts| > 1 {
          assert tail[1..] == parts[1..];
        }
      }
      assert whole[1..] == Join(tail, sep);
      assert whole[0] == first[0] && first[0] != sep;
      assert [first[0]] + first[1..] == first;
      assert parts == [first] + tail[1..];
    }
  }

  function IndexOfOrEnd(s: string, c: char): (k: nat)
    ensures k <= |s|
    ensures forall j :: 0 <= j < k ==> s[j] != c
    ensures k < |s| ==> s[k] == c
    decreases |s|
  {
    if s == [] || s[0] == c then 0 else 1 + IndexOfOrEnd(s[1..], c)
  }

  /** Searching a concatenation whose first part lacks c finds c where the
      search of the second part does, shifted by the first part's length. */
  lemma {:induction false} IndexOfOrEndAfter(a: string, b: string, c: char)
    requires c !in a
    ensures IndexOfOrEnd(a + b, c) == |a| + IndexOfOrEnd(b, c)
    decreases |a|
  {
    if a != [] {
      assert (a + b)[1..] == a[1..] + b;
      assert c !in a[1..] by {
        assert forall j :: 0 <= j < |a[1..]| ==> a[1..][j] == a[j + 1];
      }
      IndexOfOrEndAfter(a[1..], b, c);
    } else {
      assert a + b == b;
    }
  }

  /** The first field of a split is the text up to the first separator (or all of s). */
  lemma {:induction false} SplitFirstField(s: string, sep: char)
    ensures Split(s, sep)[0] == s[..IndexOfOrEnd(s, sep)]
    decreases |s|
  {
    if s != [] && s[0] != sep {
      SplitFirstField(s[1..], sep);
      assert s[..IndexOfOrEnd(s, sep)] == [s[0]] + s[1..][..IndexOfOrEnd(s[1..], sep)];
    }
  }

  // ---------------------------------------------------------------------------
  // The `||` fallback on a string
  // ---------------------------------------------------------------------------

  /** `v || fallback` for a string that may be missing: a missing value and the
      empty string are both falsy, so both give the fallback. */
  function OrElse(v: Option<string>, fallback: string): (r: string)
    ensures v.Some? && v.value != "" ==> r == v.value
    ensures v.None? || v.value == "" ==> r == fallback
  {
    match v
    case Some(s) => if s != "" then s else fallback
    case None => fallback
  }
}
