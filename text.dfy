/** String helpers shared by the backend and the frontend models: the small
    pieces of JavaScript's String API and regular expressions that the core
    relies on (split, trim, substring, join, padStart, number-to-string,
    character classes), each stated over `seq<char>`. */
module Text {

  // ---------------------------------------------------------------------
  // Character classes
  // ---------------------------------------------------------------------

  /** `\d` in a JavaScript regular expression without the `u` flag. */
  predicate IsDigit(c: char) { '0' <= c <= '9' }

  predicate IsAsciiLetter(c: char) { 'a' <= c <= 'z' || 'A' <= c <= 'Z' }

  /** What `[a-z0-9]` matches under the `i` flag: ASCII letters of either
      case and ASCII digits (case folding without `u` never maps a
      non-ASCII character onto an ASCII one). */
  predicate IsAsciiAlnum(c: char) { IsAsciiLetter(c) || IsDigit(c) }

  predicate AllDigits(s: string) { forall i :: 0 <= i < |s| ==> IsDigit(s[i]) }

  /** The characters `String.prototype.trim` removes: WhiteSpace (TAB, VT,
      FF, ZWNBSP and the Unicode space separators) and LineTerminator. */
  predicate IsJsWhitespace(c: char)
  {
    c == '\t' || c == '\n' || c == '\U{B}' || c == '\U{C}' || c == '\r' || c == ' '
    || c == '\U{A0}' || c == '\U{1680}' || ('\U{2000}' <= c <= '\U{200A}')
    || c == '\U{2028}' || c == '\U{2029}' || c == '\U{202F}' || c == '\U{205F}'
    || c == '\U{3000}' || c == '\U{FEFF}'
  }

  function LowerAscii(c: char): (l: char)
    ensures IsAsciiLetter(c) ==> IsAsciiLetter(l) && 'a' <= l <= 'z'
    ensures !('A' <= c <= 'Z') ==> l == c
  {
    if 'A' <= c <= 'Z' then (c as int + 32) as char else c
  }

  function LowerAsciiString(s: string): (l: string)
    ensures |l| == |s|
    ensures forall i :: 0 <= i < |s| ==> l[i] == LowerAscii(s[i])
  {
    seq(|s|, i requires 0 <= i < |s| => LowerAscii(s[i]))
  }

  // ---------------------------------------------------------------------
  // Replacement of a negated character class (`s.replace(/[^...]/gi, '_')`)
  // ---------------------------------------------------------------------

  /** Every character for which `keep` is false becomes `fill`; the rest
      stay where they are. */
  function ReplaceOutside(s: string, keep: char -> bool, fill: char): (r: string)
    ensures |r| == |s|
    ensures forall i :: 0 <= i < |s| ==> r[i] == (if keep(s[i]) then s[i] else fill)
  {
    if s == [] then []
    else [if keep(s[0]) then s[0] else fill] + ReplaceOutside(s[1..], keep, fill)
  }

  /** Replacing twice is replacing once, provided the fill character is kept. */
  lemma ReplaceOutsideIdempotent(s: string, keep: char -> bool, fill: char)
    requires keep(fill)
    ensures ReplaceOutside(ReplaceOutside(s, keep, fill), keep, fill) == ReplaceOutside(s, keep, fill)
  {
    var once := ReplaceOutside(s, keep, fill);
    var twice := ReplaceOutside(once, keep, fill);
    assert forall i :: 0 <= i < |s| ==> twice[i] == once[i];
  }

  /** A string is left alone exactly when it uses only kept characters and the fill. */
  lemma ReplaceOutsideFixedPoint(s: string, keep: char -> bool, fill: char)
    ensures ReplaceOutside(s, keep, fill) == s <==> forall i :: 0 <= i < |s| ==> keep(s[i]) || s[i] == fill
  {
    var r := ReplaceOutside(s, keep, fill);
    if r == s {
      forall i | 0 <= i < |s| ensures keep(s[i]) || s[i] == fill {
        assert r[i] == s[i];
      }
    }
  }

  // ---------------------------------------------------------------------
  // substring(0, n), leading digits, trim
  // ---------------------------------------------------------------------

  /** `s.substring(0, n)`: a negative end counts as 0 and an end past the
      string is clipped to its length. */
  function Substring0(s: string, n: int): (r: string)
    ensures |r| == (if n < 0 then 0 else if n > |s| then |s| else n)
    ensures r == s[..|r|]
  {
    if n < 0 then "" else if n > |s| then s else s[..n]
  }

  /** The match of `/^\d+/` (or the empty string when there is none):
      the maximal run of digits at the start of `s`. */
  function LeadingDigits(s: string): (r: string)
    ensures |r| <= |s| && r == s[..|r|]
    ensures AllDigits(r)
    ensures |r| == |s| || !IsDigit(s[|r|])
  {
    if s != [] && IsDigit(s[0]) then [s[0]] + LeadingDigits(s[1..]) else ""
  }

  function TrimStart(s: string): (r: string)
    ensures |r| <= |s| && r == s[|s| - |r|..]
    ensures forall i :: 0 <= i < |s| - |r| ==> IsJsWhitespace(s[i])
    ensures r != [] ==> !IsJsWhitespace(r[0])
  {
    if s != [] && IsJsWhitespace(s[0]) then TrimStart(s[1..]) else s
  }

  function TrimEnd(s: string): (r: string)
    ensures |r| <= |s| && r == s[..|r|]
    ensures forall i :: |r| <= i < |s| ==> IsJsWhitespace(s[i])
    ensures r != [] ==> !IsJsWhitespace(r[|r| - 1])
  {
    if s != [] && IsJsWhitespace(s[|s| - 1]) then TrimEnd(s[..|s| - 1]) else s
  }

  /** Digits followed by something that does not start with a digit:
      the leading digits are exactly those digits. */
  lemma {:induction false} LeadingDigitsConcat(d: string, t: string)
    requires AllDigits(d)
    requires t == [] || !IsDigit(t[0])
    ensures LeadingDigits(d + t) == d
  {
    if d != [] {
      assert (d + t)[1..] == d[1..] + t;
      LeadingDigitsConcat(d[1..], t);
    }
  }

  /** Trimming the end of `d + t`, where `d` ends in a non-white character,
      keeps all of `d` and a prefix of `t`. */
  lemma TrimEndKeepsPrefix(d: string, t: string)
    requires d != [] && !IsJsWhitespace(d[|d| - 1])
    ensures var r := TrimEnd(d + t);
            |d| <= |r| && r == d + t[..|r| - |d|]
  {
    var s := d + t;
    var r := TrimEnd(s);
    assert !IsJsWhitespace(s[|d| - 1]);
    assert r == s[..|r|];
  }

  /** Trimming a space, then digits, then anything: the digits survive,
      followed by a prefix of the rest. */
  lemma TrimSpaceDigits(number: string, u: string)
    requires number != [] && AllDigits(number)
    ensures var t := Trim(" " + number + u);
            |number| <= |t| <= |number| + |u| && t == number + u[..|t| - |number|]
  {
    var s := " " + number + u;
    assert s[1..] == number + u;
    assert TrimStart(s) == number + u;
    TrimEndKeepsPrefix(number, u);
  }

  /** The leading digits of the trimmed `" " + number + u` are `number`
      when `u` does not continue the digits. */
  lemma LeadingDigitsOfTrimmed(number: string, u: string)
    requires number != [] && AllDigits(number)
    requires u == [] || !IsDigit(u[0])
    ensures LeadingDigits(Trim(" " + number + u)) == number
  {
    TrimSpaceDigits(number, u);
    var t := Trim(" " + number + u);
    LeadingDigitsConcat(number, u[..|t| - |number|]);
  }

  /** `s.trim()`: the slice of `s` that remains after dropping its leading
      and trailing white space; neither end of the slice is white space. */
  function Trim(s: string): (r: string)
    ensures var a := |s| - |TrimStart(s)|;
            a + |r| <= |s| && r == s[a..a + |r|]
            && (forall i :: 0 <= i < a ==> IsJsWhitespace(s[i]))
            && (forall i :: a + |r| <= i < |s| ==> IsJsWhitespace(s[i]))
    ensures r != [] ==> !IsJsWhitespace(r[0]) && !IsJsWhitespace(r[|r| - 1])
  {
    TrimEnd(TrimStart(s))
  }

  // ---------------------------------------------------------------------
  // split and join
  // ---------------------------------------------------------------------

  /** `parts.join(sep)`. */
  function Join(parts: seq<string>, sep: string): (r: string)
  {
    if parts == [] then ""
    else if |parts| == 1 then parts[0]
    else parts[0] + sep + Join(parts[1..], sep)
  }

  /** Joining one more part appends the separator and that part. */
  lemma {:induction false} JoinSnoc(parts: seq<string>, sep: string, x: string)
    requires parts != []
    ensures Join(parts + [x], sep) == Join(parts, sep) + sep + x
  {
    if |parts| == 1 {
      assert (parts + [x])[1..] == [x];
    } else {
      assert (parts + [x])[1..] == parts[1..] + [x];
      JoinSnoc(parts[1..], sep, x);
    }
  }

  function IndexOf(s: string, c: char): (i: nat)
    requires c in s
    ensures i < |s| && s[i] == c && c !in s[..i]
  {
    if s[0] == c then 0 else 1 + IndexOf(s[1..], c)
  }

  /** The first occurrence is the only position holding `c` with no `c`
      before it. */
  lemma IndexOfUnique(s: string, c: char, i: nat)
    requires i < |s| && s[i] == c && c !in s[..i]
    ensures IndexOf(s, c) == i
  {
  }

  /** `s.split(c)` for a one-character separator: never empty, no part holds
      the separator, and joining the parts back gives `s`. */
  function Split(s: string, c: char): (parts: seq<string>)
    ensures |parts| >= 1
    ensures forall k :: 0 <= k < |parts| ==> c !in parts[k]
    ensures Join(parts, [c]) == s
    ensures |parts| > 1 <==> c in s
    decreases |s|
  {
    if c in s then
      var i := IndexOf(s, c);
      var rest := Split(s[i + 1..], c);
      assert s == s[..i] + [c] + s[i + 1..];
      [s[..i]] + rest
    else
      [s]
  }

  /** The second part of a split is what lies between the first separator
      and the next one (or the end). */
  lemma SplitSecond(s: string, c: char)
    requires c in s
    ensures var i := IndexOf(s, c);
            Split(s, c)[1] == Split(s[i + 1..], c)[0]
  {
  }

  // ---------------------------------------------------------------------
  // Numbers as text
  // ---------------------------------------------------------------------

  function DigitChar(d: nat): (c: char)
    requires d < 10
    ensures IsDigit(c)
  {
    ('0' as int + d) as char
  }

  function DigitValue(c: char): (d: nat)
    requires IsDigit(c)
    ensures d < 10 && DigitChar(d) == c
  {
    c as int - '0' as int
  }

  /** The decimal value of a string of digits (the empty string reads as 0). */
  function ParseDigits(s: string): nat
    requires AllDigits(s)
  {
    if s == [] then 0 else 10 * ParseDigits(s[..|s| - 1]) + DigitValue(s[|s| - 1])
  }

  /** `String(n)` for a non-negative integer: decimal digits without
      leading zeros, which read back as `n`. */
  function NatToString(n: nat): (r: string)
    ensures |r| >= 1 && AllDigits(r)
    ensures r[0] == '0' ==> n == 0
    ensures ParseDigits(r) == n
  {
    if n < 10 then [DigitChar(n)]
    else
      var r := NatToString(n / 10) + [DigitChar(n % 10)];
      assert r[..|r| - 1] == NatToString(n / 10);
      r
  }

  /** `String(i)` for any integer: a minus sign before the digits of a
      negative value. */
  function IntToString(i: int): (r: string)
    ensures i >= 0 ==> r == NatToString(i)
    ensures i < 0 ==> r == "-" + NatToString(-i)
  {
    if i < 0 then "-" + NatToString(-i) else NatToString(i)
  }

  function Repeat(c: char, n: nat): (r: string)
    ensures |r| == n && forall i :: 0 <= i < n ==> r[i] == c
  {
    if n == 0 then "" else [c] + Repeat(c, n - 1)
  }

  /** `s.padStart(width, c)` for a one-character pad string. */
  function PadStart(s: string, width: nat, c: char): (r: string)
    ensures |r| == if |s| >= width then |s| else width
    ensures r[|r| - |s|..] == s
    ensures forall i :: 0 <= i < |r| - |s| ==> r[i] == c
  {
    if |s| >= width then s else Repeat(c, width - |s|) + s
  }

  /** Leading zeros do not change the value a string of digits reads as. */
  lemma {:induction false} ParseLeadingZeros(z: string, s: string)
    requires AllDigits(z) && AllDigits(s)
    requires forall i :: 0 <= i < |z| ==> z[i] == '0'
    ensures AllDigits(z + s) && ParseDigits(z + s) == ParseDigits(s)
  {
    if s == [] {
      assert z + s == z;
      ZerosReadAsZero(z);
    } else {
      assert (z + s)[..|z + s| - 1] == z + s[..|s| - 1];
      ParseLeadingZeros(z, s[..|s| - 1]);
    }
  }

  lemma {:induction false} ZerosReadAsZero(z: string)
    requires forall i :: 0 <= i < |z| ==> z[i] == '0'
    ensures AllDigits(z) && ParseDigits(z) == 0
  {
    if z != [] {
      ZerosReadAsZero(z[..|z| - 1]);
    }
  }

  /** `String(n).padStart(2, '0')` for 0 <= n < 100: exactly two digits that
      read back as `n`. */
  lemma TwoDigits(n: nat)
    requires n < 100
    ensures var r := PadStart(NatToString(n), 2, '0');
            |r| == 2 && AllDigits(r) && ParseDigits(r) == n
  {
    var s := NatToString(n);
    var r := PadStart(s, 2, '0');
    if |s| < 2 {
      assert r == Repeat('0', 2 - |s|) + s;
      ParseLeadingZeros(Repeat('0', 2 - |s|), s);
    } else {
      assert |s| == 2 by {
        if |s| > 2 { NatToStringLength(n); }
      }
    }
  }

  /** A number below 10^k has at most k digits. */
  lemma {:induction false} NatToStringLength(n: nat)
    ensures n < 100 ==> |NatToString(n)| <= 2
  {
    if 10 <= n < 100 {
      assert n / 10 < 10;
    }
  }
}
