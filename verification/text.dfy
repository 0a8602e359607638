/**
 * String helpers with JavaScript's meaning: the white-space class shared by
 * `String.prototype.trim` and the regular-expression escape `\s`, ASCII case
 * mapping, `includes`, `endsWith`, `padStart`, and decimal rendering of
 * non-negative integers as `Number.prototype.toString` produces it, and
 * `parseInt` without a radix.
 */
module Text {
  import opened Wrappers

  /** JavaScript's WhiteSpace and LineTerminator code points: what `\s` matches and `trim` strips. */
  predicate IsSpace(c: char) {
    || c == '\t' || c == '\n' || c == '\U{000B}' || c == '\U{000C}' || c == '\r' || c == ' '
    || c == '\U{00A0}' || c == '\U{1680}' || ('\U{2000}' <= c <= '\U{200A}')
    || c == '\U{2028}' || c == '\U{2029}' || c == '\U{202F}' || c == '\U{205F}'
    || c == '\U{3000}' || c == '\U{FEFF}'
  }

  /** Every character is white space (vacuously true of ""). */
  predicate IsBlank(s: string) {
    forall i :: 0 <= i < |s| ==> IsSpace(s[i])
  }

  /** Neither end of `s` is white space: what `trim` leaves behind. */
  predicate IsTrimmed(s: string) {
    s == [] || (!IsSpace(s[0]) && !IsSpace(s[|s| - 1]))
  }

  /** Number of leading white-space characters. */
  function LeadingSpaces(s: string): (n: nat)
    ensures n <= |s|
    ensures forall i :: 0 <= i < n ==> IsSpace(s[i])
    ensures n < |s| ==> !IsSpace(s[n])
  {
    if s != [] && IsSpace(s[0]) then 1 + LeadingSpaces(s[1..]) else 0
  }

  /** Number of trailing white-space characters. */
  function TrailingSpaces(s: string): (n: nat)
    ensures n <= |s|
    ensures forall i :: |s| - n <= i < |s| ==> IsSpace(s[i])
    ensures n < |s| ==> !IsSpace(s[|s| - n - 1])
  {
    if s != [] && IsSpace(s[|s| - 1]) then 1 + TrailingSpaces(s[..|s| - 1]) else 0
  }

  /** `s.trim()`: the slice of `s` between its leading and its trailing white space. */
  function Trim(s: string): (r: string)
    ensures IsTrimmed(r)
    ensures r == [] <==> IsBlank(s)
    ensures LeadingSpaces(s) + |r| <= |s|
    ensures r == s[LeadingSpaces(s)..LeadingSpaces(s) + |r|]
    ensures IsBlank(s[..LeadingSpaces(s)]) && IsBlank(s[LeadingSpaces(s) + |r|..])
  {
    var a := LeadingSpaces(s);
    if a == |s| then
      []
    else
      var b := TrailingSpaces(s);
      assert !IsSpace(s[a]);
      assert a < |s| - b;
      s[a..|s| - b]
  }

  /** Trimming twice is trimming once. */
  lemma TrimIdempotent(s: string)
    ensures Trim(Trim(s)) == Trim(s)
  {
    TrimOfTrimmed(Trim(s));
  }

  /** A string with no white space at either end passes through `trim` unchanged. */
  lemma TrimOfTrimmed(s: string)
    requires IsTrimmed(s)
    ensures Trim(s) == s
  {
    if s != [] {
      assert LeadingSpaces(s) == 0;
      assert TrailingSpaces(s) == 0;
    }
  }

  /** ASCII `toLowerCase` of one character. */
  function Lower(c: char): char {
    if 'A' <= c <= 'Z' then (c as int + 32) as char else c
  }

  /** ASCII `toUpperCase` of one character. */
  function Upper(c: char): char {
    if 'a' <= c <= 'z' then (c as int - 32) as char else c
  }

  /** ASCII `toLowerCase` of a string: same length, each character lower-cased. */
  function LowerStr(s: string): (r: string)
    ensures |r| == |s|
    ensures forall i :: 0 <= i < |s| ==> r[i] == Lower(s[i])
  {
    seq(|s|, i requires 0 <= i < |s| => Lower(s[i]))
  }

  /** Lower-casing is idempotent, so comparing lower-cased strings is stable under repetition. */
  lemma LowerStrIdempotent(s: string)
    ensures LowerStr(LowerStr(s)) == LowerStr(s)
  {
  }

  /** `needle` occurs in `hay` starting at index `i`. */
  predicate OccursAt(hay: string, needle: string, i: int) {
    0 <= i && i + |needle| <= |hay| && hay[i..i + |needle|] == needle
  }

  /** `hay.includes(needle)`. */
  predicate Contains(hay: string, needle: string)
    decreases |hay|
  {
    needle <= hay || (hay != [] && Contains(hay[1..], needle))
  }

  /** `Contains` holds exactly when there is an index at which the needle occurs. */
  lemma ContainsIff(hay: string, needle: string)
    ensures Contains(hay, needle) <==> exists i :: OccursAt(hay, needle, i)
  {
    if Contains(hay, needle) {
      var i := ContainsWitness(hay, needle);
    }
    if i :| OccursAt(hay, needle, i) {
      ContainsAt(hay, needle, i);
    }
  }

  /** An occurrence at any index makes `Contains` true. */
  lemma {:induction false} ContainsAt(hay: string, needle: string, i: int)
    requires OccursAt(hay, needle, i)
    ensures Contains(hay, needle)
    decreases i
  {
    if i == 0 {
      assert hay[..|needle|] == needle;
    } else {
      assert hay[1..][i - 1..i - 1 + |needle|] == hay[i..i + |needle|];
      ContainsAt(hay[1..], needle, i - 1);
    }
  }

  /** When `Contains` holds, some index carries the needle. */
  lemma {:induction false} ContainsWitness(hay: string, needle: string) returns (i: int)
    requires Contains(hay, needle)
    ensures OccursAt(hay, needle, i)
    decreases |hay|
  {
    if needle <= hay {
      i := 0;
    } else {
      var j := ContainsWitness(hay[1..], needle);
      assert hay[1..][j..j + |needle|] == hay[j + 1..j + 1 + |needle|];
      i := j + 1;
    }
  }

  /** The empty string is contained in every string. */
  lemma ContainsEmpty(hay: string)
    ensures Contains(hay, "")
  {
  }

  /** `s.endsWith(suffix)`. */
  predicate EndsWith(s: string, suffix: string) {
    |suffix| <= |s| && s[|s| - |suffix|..] == suffix
  }

  predicate IsDigit(c: char) {
    '0' <= c <= '9'
  }

  predicate AllDigits(s: string) {
    forall i :: 0 <= i < |s| ==> IsDigit(s[i])
  }

  function DigitChar(d: nat): (c: char)
    requires d < 10
    ensures IsDigit(c)
  {
    ('0' as int + d) as char
  }

  function DigitValue(c: char): (d: nat)
    requires IsDigit(c)
    ensures d < 10
    ensures DigitChar(d) == c
  {
    c as int - '0' as int
  }

  /** `n.toString()` for a non-negative integer: decimal digits, no leading zero. */
  function NatToString(n: nat): (r: string)
    ensures |r| >= 1 && AllDigits(r)
    ensures r[0] == '0' ==> n == 0
  {
    if n < 10 then [DigitChar(n)] else NatToString(n / 10) + [DigitChar(n % 10)]
  }

  /** The value of a string of decimal digits (leading zeros allowed, "" is 0). */
  function ParseDigits(s: string): nat
    requires AllDigits(s)
  {
    if s == [] then 0 else ParseDigits(s[..|s| - 1]) * 10 + DigitValue(s[|s| - 1])
  }

  /** Reading back the decimal rendering of `n` gives `n`. */
  lemma {:induction false} ParseNatToString(n: nat)
    ensures ParseDigits(NatToString(n)) == n
  {
    var r := NatToString(n);
    if n >= 10 {
      ParseNatToString(n / 10);
      assert r[..|r| - 1] == NatToString(n / 10);
    }
  }

  /** Leading zeros do not change the value of a digit string. */
  lemma {:induction false} ParseLeadingZeros(z: string, s: string)
    requires forall i :: 0 <= i < |z| ==> z[i] == '0'
    requires AllDigits(s)
    ensures AllDigits(z + s)
    ensures ParseDigits(z + s) == ParseDigits(s)
    decreases |s|
  {
    if s == [] {
      assert z + s == z;
      ZerosParseToZero(z);
    } else {
      assert (z + s)[..|z + s| - 1] == z + s[..|s| - 1];
      ParseLeadingZeros(z, s[..|s| - 1]);
    }
  }

  lemma {:induction false} ZerosParseToZero(z: string)
    requires forall i :: 0 <= i < |z| ==> z[i] == '0'
    ensures AllDigits(z) && ParseDigits(z) == 0
  {
    if z != [] {
      ZerosParseToZero(z[..|z| - 1]);
    }
  }

  /** The rendering of `n` has at most two digits exactly when `n < 100`. */
  lemma {:induction false} NatToStringAtMostTwo(n: nat)
    ensures |NatToString(n)| <= 2 <==> n < 100
  {
    if n >= 10 {
      if n >= 100 {
        assert n / 10 >= 10;
        assert |NatToString(n / 10)| >= 2;
      }
    }
  }

  /** `s.padStart(width, fill)`: `fill` repeated in front of `s` until it is `width` long. */
  function PadStart(s: string, width: nat, fill: char): (r: string)
    ensures |r| == if |s| >= width then |s| else width
    ensures r[|r| - |s|..] == s
    ensures forall i :: 0 <= i < |r| - |s| ==> r[i] == fill
  {
    if |s| >= width then s else seq(width - |s|, _ => fill) + s
  }

  /** A digit of radix 10, or of radix 16 (letters in either case). */
  predicate IsRadixDigit(c: char, radix: nat) {
    IsDigit(c) || (radix == 16 && ('a' <= c <= 'f' || 'A' <= c <= 'F'))
  }

  function RadixDigitValue(c: char, radix: nat): (d: nat)
    requires IsRadixDigit(c, radix)
    ensures radix != 16 ==> d < 10 && d == DigitValue(c)
    ensures d < 16
  {
    if IsDigit(c) then DigitValue(c)
    else if 'a' <= c <= 'f' then c as int - 'a' as int + 10
    else c as int - 'A' as int + 10
  }

  /** Length of the longest prefix of radix digits. */
  function LeadingRadixDigits(s: string, radix: nat): (n: nat)
    ensures n <= |s|
    ensures forall i :: 0 <= i < n ==> IsRadixDigit(s[i], radix)
    ensures n < |s| ==> !IsRadixDigit(s[n], radix)
  {
    if s != [] && IsRadixDigit(s[0], radix) then 1 + LeadingRadixDigits(s[1..], radix) else 0
  }

  /** The value of a string of radix digits. */
  function RadixValue(s: string, radix: nat): nat
    requires forall i :: 0 <= i < |s| ==> IsRadixDigit(s[i], radix)
  {
    if s == [] then 0 else RadixValue(s[..|s| - 1], radix) * radix + RadixDigitValue(s[|s| - 1], radix)
  }

  /** In radix 10 the digit value is the decimal one. */
  lemma {:induction false} DecimalRadixValue(s: string)
    requires AllDigits(s)
    ensures RadixValue(s, 10) == ParseDigits(s)
  {
    if s != [] {
      DecimalRadixValue(s[..|s| - 1]);
    }
  }

  /** `s` starts with "0x" or "0X", the prefix that makes `parseInt` read hexadecimal. */
  predicate HasHexPrefix(s: string) {
    |s| >= 2 && s[0] == '0' && (s[1] == 'x' || s[1] == 'X')
  }

  /**
   * `parseInt(s)` with no radix: skip leading white space, read an optional sign,
   * read hexadecimal after "0x"/"0X" and decimal otherwise, and take the longest
   * run of digits; `None` stands for `NaN`, the result when that run is empty.
   */
  function ParseInt(s: string): (r: Option<int>)
    ensures IsBlank(s) ==> r.None?
  {
    ParseSigned(s[LeadingSpaces(s)..])
  }

  /** `parseInt` after the leading white space. */
  function ParseSigned(t: string): (r: Option<int>)
    ensures t == [] ==> r.None?
  {
    var negative := t != [] && t[0] == '-';
    var u := if t != [] && (t[0] == '-' || t[0] == '+') then t[1..] else t;
    var radix := if HasHexPrefix(u) then 16 else 10;
    var v := if HasHexPrefix(u) then u[2..] else u;
    var n := LeadingRadixDigits(v, radix);
    if n == 0 then None
    else
      var value: int := RadixValue(v[..n], radix);
      Some(if negative then -value else value)
  }

  /** `parseInt` ignores leading white space. */
  lemma ParseIntSkipsSpaces(w: string, t: string)
    requires IsBlank(w)
    requires t == [] || !IsSpace(t[0])
    ensures ParseInt(w + t) == ParseInt(t)
  {
    LeadingSpacesOfBlankPrefix(w, t);
    assert (w + t)[|w|..] == t;
    assert t == [] || LeadingSpaces(t) == 0;
    assert t[LeadingSpaces(t)..] == t;
  }

  lemma {:induction false} LeadingSpacesOfBlankPrefix(w: string, t: string)
    requires IsBlank(w)
    requires t == [] || !IsSpace(t[0])
    ensures LeadingSpaces(w + t) == |w|
  {
    if w != [] {
      assert (w + t)[1..] == w[1..] + t;
      LeadingSpacesOfBlankPrefix(w[1..], t);
    } else {
      assert w + t == t;
    }
  }

  /**
   * `parseInt` reads back a decimal rendering followed by anything that cannot
   * extend it: "45 min" gives 45.
   */
  lemma ParseIntOfDecimal(n: nat, rest: string)
    requires rest == [] || (!IsDigit(rest[0]) && rest[0] != 'x' && rest[0] != 'X')
    ensures ParseInt(NatToString(n) + rest) == Some(n)
  {
    var d := NatToString(n);
    var s := d + rest;
    assert LeadingSpaces(s) == 0 by {
      assert IsDigit(s[0]);
    }
    assert s[LeadingSpaces(s)..] == s;
    assert !HasHexPrefix(s) by {
      if |d| == 1 {
        if |s| >= 2 {
          assert s[1] == rest[0];
        }
      } else {
        assert s[1] == d[1];
        assert IsDigit(d[1]);
      }
    }
    LeadingDigitsOfDecimal(d, rest);
    ParseSignedOfDecimal(s, |d|);
    assert s[..|d|] == d;
    ParseNatToString(n);
    DecimalRadixValue(d);
  }

  /** Unsigned decimal text with `k` leading digits reads as the value of those digits. */
  lemma ParseSignedOfDecimal(s: string, k: nat)
    requires s != [] && IsDigit(s[0]) && !HasHexPrefix(s)
    requires 0 < k <= |s| && LeadingRadixDigits(s, 10) == k
    ensures ParseSigned(s) == Some(RadixValue(s[..k], 10) as int)
  {
  }

  lemma {:induction false} LeadingDigitsOfDecimal(d: string, rest: string)
    requires AllDigits(d)
    requires rest == [] || !IsDigit(rest[0])
    ensures LeadingRadixDigits(d + rest, 10) == |d|
  {
    if d != [] {
      assert (d + rest)[1..] == d[1..] + rest;
      LeadingDigitsOfDecimal(d[1..], rest);
    } else {
      assert d + rest == rest;
    }
  }

  /** A leading minus sign negates what follows it. */
  lemma ParseIntNegative(t: string)
    requires t == [] || (t[0] != '-' && t[0] != '+' && !IsSpace(t[0]))
    ensures ParseInt("-" + t).Some? <==> ParseInt(t).Some?
    ensures ParseInt("-" + t).Some? ==> ParseInt("-" + t).value == -ParseInt(t).value
  {
    assert ("-" + t)[1..] == t;
    assert LeadingSpaces("-" + t) == 0;
    assert ("-" + t)[0..] == "-" + t;
    assert t[0..] == t;
  }
  /** Text that, after its leading white space, starts with neither a sign nor a digit is `NaN`. */
  lemma ParseIntNotNumeric(w: string, t: string)
    requires IsBlank(w)
    requires t != [] && !IsSpace(t[0]) && !IsDigit(t[0]) && t[0] != '-' && t[0] != '+'
    ensures ParseInt(w + t) == None
  {
    ParseIntSkipsSpaces(w, t);
    assert LeadingSpaces(t) == 0;
    assert t[0..] == t;
    assert !HasHexPrefix(t);
    assert LeadingRadixDigits(t, 10) == 0;
  }

  /** After "0x" or "0X" the hexadecimal digits are read, in either case, up to the first other character. */
  lemma {:induction false} ParseIntHex(x: char, h: string, rest: string)
    requires x == 'x' || x == 'X'
    requires h != [] && forall i :: 0 <= i < |h| ==> IsRadixDigit(h[i], 16)
    requires rest == [] || !IsRadixDigit(rest[0], 16)
    ensures ParseInt(['0', x] + h + rest) == Some(RadixValue(h, 16) as int)
  {
    var s := ['0', x] + h + rest;
    assert LeadingSpaces(s) == 0 by {
      assert s[0] == '0';
    }
    assert s[LeadingSpaces(s)..] == s;
    assert s[2..] == h + rest;
    HexDigitsRun(h, rest);
    ParseSignedOfHex(s, |h|);
    assert s[2..][..|h|] == h;
  }

  /** Unsigned text with a hexadecimal prefix and `k` hexadecimal digits after it reads as those digits' value. */
  lemma ParseSignedOfHex(s: string, k: nat)
    requires HasHexPrefix(s)
    requires 0 < k <= |s| - 2 && LeadingRadixDigits(s[2..], 16) == k
    ensures ParseSigned(s) == Some(RadixValue(s[2..][..k], 16) as int)
  {
  }

  lemma {:induction false} HexDigitsRun(h: string, rest: string)
    requires forall i :: 0 <= i < |h| ==> IsRadixDigit(h[i], 16)
    requires rest == [] || !IsRadixDigit(rest[0], 16)
    ensures LeadingRadixDigits(h + rest, 16) == |h|
  {
    if h != [] {
      assert (h + rest)[1..] == h[1..] + rest;
      HexDigitsRun(h[1..], rest);
    } else {
      assert h + rest == rest;
    }
  }
}
