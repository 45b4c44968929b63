/**
 * The JavaScript string operations the dashboard relies on: `split` and
 * `join` on a one-character separator, `toLowerCase`, `includes`,
 * `startsWith`, blank tests through `trim()`, number-to-text and
 * `parseInt(s, 10)`. `parseInt(s)` without a radix, which reads base 16
 * after a `0x` mark, is `ParseIntAuto`.
 */
module Strings {
  import opened Wrappers

  // ---------------------------------------------------------------- characters

  /** The characters `String.prototype.trim` and the regex class `\s` treat as white space. */
  predicate IsWhitespace(c: char)
  {
    c == ' ' || c == '\t' || c == '\n' || c == '\r' || c == '\U{000B}' || c == '\U{000C}'
    || c == '\U{00A0}' || c == '\U{FEFF}' || c == '\U{1680}' || ('\U{2000}' <= c <= '\U{200A}')
    || c == '\U{2028}' || c == '\U{2029}' || c == '\U{202F}' || c == '\U{205F}' || c == '\U{3000}'
  }

  predicate IsDigit(c: char) { '0' <= c <= '9' }

  /** `s.trim() === ""`: every character of `s` is white space. */
  predicate IsBlank(s: string)
  {
    forall i | 0 <= i < |s| :: IsWhitespace(s[i])
  }

  /** `toLowerCase` on one character; only the ASCII letters are mapped. */
  function LowerChar(c: char): (d: char)
    ensures 'A' <= c <= 'Z' ==> d as int == c as int + 32
    ensures !('A' <= c <= 'Z') ==> d == c
  {
    if 'A' <= c <= 'Z' then (c as int + 32) as char else c
  }

  function Lower(s: string): (t: string)
    ensures |t| == |s|
    ensures forall i | 0 <= i < |s| :: t[i] == LowerChar(s[i])
  {
    seq(|s|, i requires 0 <= i < |s| => LowerChar(s[i]))
  }

  /** `'a'`..`'z'` uppercased, everything else kept (ASCII `toUpperCase`). */
  function UpperChar(c: char): (d: char)
    ensures 'a' <= c <= 'z' ==> d as int == c as int - 32
    ensures !('a' <= c <= 'z') ==> d == c
  {
    if 'a' <= c <= 'z' then (c as int - 32) as char else c
  }

  // ---------------------------------------------------------------- substrings

  predicate StartsWith(s: string, prefix: string)
  {
    |prefix| <= |s| && s[..|prefix|] == prefix
  }

  /** `s.includes(q)`: `q` occurs somewhere in `s` (the empty string occurs everywhere). */
  predicate Contains(s: string, q: string)
    decreases |s|
  {
    StartsWith(s, q) || (|s| > 0 && Contains(s[1..], q))
  }

  lemma ContainsEmpty(s: string)
    ensures Contains(s, "")
  {
    assert StartsWith(s, "");
  }

  // ---------------------------------------------------------------- split and join

  function FirstIndex(s: string, c: char): (i: nat)
    requires c in s
    ensures i < |s| && s[i] == c && c !in s[..i]
  {
    if s[0] == c then 0 else 1 + FirstIndex(s[1..], c)
  }

  /** `s.split(sep)` for a one-character separator: never empty, `"".split(c)` is `[""]`. */
  function Split(s: string, sep: char): (parts: seq<string>)
    ensures |parts| >= 1
    decreases |s|
  {
    if sep !in s then [s]
    else
      var i := FirstIndex(s, sep);
      [s[..i]] + Split(s[i + 1..], sep)
  }

  /** `xs.join(sep)`: `[]` gives "", one element gives itself. */
  function Join(xs: seq<string>, sep: char): string
  {
    if |xs| == 0 then "" else if |xs| == 1 then xs[0] else xs[0] + [sep] + Join(xs[1..], sep)
  }

  predicate NoSeparator(xs: seq<string>, sep: char)
  {
    forall i | 0 <= i < |xs| :: sep !in xs[i]
  }

  /** Splitting a join gives the parts back when no part contains the separator. */
  lemma {:induction false} SplitJoin(xs: seq<string>, sep: char)
    requires |xs| >= 1
    requires NoSeparator(xs, sep)
    ensures Split(Join(xs, sep), sep) == xs
    decreases |xs|
  {
    if |xs| > 1 {
      assert sep !in xs[0];
      assert NoSeparator(xs[1..], sep) by {
        forall i | 0 <= i < |xs[1..]|
          ensures sep !in xs[1..][i]
        {
          assert xs[1..][i] == xs[i + 1];
        }
      }
      assert Join(xs, sep) == xs[0] + [sep] + Join(xs[1..], sep);
      SplitAfterFree(xs[0], Join(xs[1..], sep), sep);
      SplitJoin(xs[1..], sep);
      assert [xs[0]] + xs[1..] == xs;
    }
  }

  /** A leading part free of the separator splits off as the first element. */
  lemma SplitAfterFree(x: string, y: string, sep: char)
    requires sep !in x
    ensures Split(x + [sep] + y, sep) == [x] + Split(y, sep)
  {
    var s := x + [sep] + y;
    assert s[|x|] == sep;
    var i := FirstIndex(s, sep);
    assert forall j | 0 <= j < |x| :: s[j] == x[j];
    assert i == |x|;
    assert s[..i] == x;
    assert s[i + 1..] == y;
  }

  /** When the text starts with a part holding the separator, the first split element is shorter than that part. */
  lemma SplitFirstShorter(x: string, y: string, sep: char)
    requires sep in x
    ensures |Split(x + y, sep)[0]| < |x|
  {
    var s := x + y;
    var k := FirstIndex(x, sep);
    assert s[k] == sep;
    var i := FirstIndex(s, sep);
    assert s[..k] == x[..k];
    assert i <= k;
  }

  /** Joining a split gives the text back. */
  lemma {:induction false} JoinSplit(s: string, sep: char)
    ensures Join(Split(s, sep), sep) == s
    decreases |s|
  {
    if sep in s {
      var i := FirstIndex(s, sep);
      JoinSplit(s[i + 1..], sep);
      var rest := Split(s[i + 1..], sep);
      assert Split(s, sep) == [s[..i]] + rest;
      assert ([s[..i]] + rest)[1..] == rest;
      assert s == s[..i] + [sep] + s[i + 1..];
    }
  }

  /** A split has fewer than two parts exactly when the separator does not occur. */
  lemma SplitSingle(s: string, sep: char)
    ensures |Split(s, sep)| == 1 <==> sep !in s
  {
    if sep in s {
      var i := FirstIndex(s, sep);
      assert |Split(s, sep)| == 1 + |Split(s[i + 1..], sep)|;
    }
  }

  /** No part of a split contains the separator. */
  lemma {:induction false} SplitPartsFree(s: string, sep: char)
    ensures NoSeparator(Split(s, sep), sep)
    decreases |s|
  {
    if sep in s {
      var i := FirstIndex(s, sep);
      SplitPartsFree(s[i + 1..], sep);
    }
  }

  /** The last element of `s.split(sep)` (what `.pop()` returns). */
  function LastPart(s: string, sep: char): (t: string)
    ensures sep !in t
    ensures sep !in s ==> t == s
  {
    SplitPartsFree(s, sep);
    var parts := Split(s, sep);
    parts[|parts| - 1]
  }

  // ---------------------------------------------------------------- numbers and text

  function DigitChar(d: nat): (c: char)
    requires d < 10
    ensures IsDigit(c) && c as int - '0' as int == d
  {
    ('0' as int + d) as char
  }

  predicate AllDigits(s: string)
  {
    forall i | 0 <= i < |s| :: IsDigit(s[i])
  }

  /** The decimal value of a string of digits. */
  function DigitsValue(s: string): nat
    requires AllDigits(s)
  {
    if |s| == 0 then 0 else DigitsValue(s[..|s| - 1]) * 10 + (s[|s| - 1] as int - '0' as int)
  }

  /** `String(n)` for a natural number: shortest decimal text. */
  function NatToString(n: nat): (s: string)
    ensures |s| >= 1
  {
    if n < 10 then [DigitChar(n)] else NatToString(n / 10) + [DigitChar(n % 10)]
  }

  /** The text of a natural number is all digits. */
  lemma {:induction false} NatToStringDigits(n: nat)
    ensures AllDigits(NatToString(n))
  {
    if n >= 10 {
      NatToStringDigits(n / 10);
      var s := NatToString(n);
      assert s == NatToString(n / 10) + [DigitChar(n % 10)];
      assert forall i | 0 <= i < |s| - 1 :: s[i] == NatToString(n / 10)[i];
    }
  }

  /** `String(n)` / `n.toString()` for an integer. */
  function IntToString(n: int): (s: string)
    ensures |s| >= 1
    ensures n >= 0 ==> s == NatToString(n)
    ensures n < 0 ==> s == "-" + NatToString(-n)
  {
    if n < 0 then "-" + NatToString(-n) else NatToString(n)
  }

  lemma {:induction false} NatToStringValue(n: nat)
    ensures AllDigits(NatToString(n)) && DigitsValue(NatToString(n)) == n
  {
    NatToStringDigits(n);
    if n >= 10 {
      NatToStringValue(n / 10);
      var s := NatToString(n);
      assert s[..|s| - 1] == NatToString(n / 10);
    }
  }

  /** Distinct numbers print as distinct text. */
  lemma NatToStringInjective(m: nat, n: nat)
    requires m != n
    ensures NatToString(m) != NatToString(n)
  {
    NatToStringValue(m);
    NatToStringValue(n);
  }

  lemma NatToStringFree(n: nat, c: char)
    requires !IsDigit(c)
    ensures c !in NatToString(n)
  {
  }

  /** The longest prefix of `s` made of digits. */
  function DigitPrefix(s: string): (d: string)
    ensures AllDigits(d) && |d| <= |s| && d == s[..|d|]
    ensures |d| < |s| ==> !IsDigit(s[|d|])
  {
    if |s| > 0 && IsDigit(s[0]) then [s[0]] + DigitPrefix(s[1..]) else ""
  }

  function DropLeadingWhitespace(s: string): (t: string)
    ensures |t| <= |s| && t == s[|s| - |t|..]
    ensures |t| > 0 ==> !IsWhitespace(t[0])
  {
    if |s| > 0 && IsWhitespace(s[0]) then DropLeadingWhitespace(s[1..]) else s
  }

  /**
   * `parseInt(s, 10)`: leading white space, an optional sign, then the
   * longest run of digits; `None` stands for NaN (no digit at all).
   */
  function ParseInt10(s: string): (r: Option<int>)
  {
    var t := DropLeadingWhitespace(s);
    var signed := |t| > 0 && (t[0] == '-' || t[0] == '+');
    var digits := DigitPrefix(if signed then t[1..] else t);
    if digits == "" then None
    else if signed && t[0] == '-' then Some(-(DigitsValue(digits) as int))
    else Some(DigitsValue(digits))
  }

  /** `parseInt` of a plain run of digits is its decimal value. */
  lemma ParseDigits(s: string)
    requires |s| > 0 && AllDigits(s)
    ensures ParseInt10(s) == Some(DigitsValue(s))
  {
    assert IsDigit(s[0]);
    assert !IsWhitespace(s[0]);
    assert DropLeadingWhitespace(s) == s;
    assert !(s[0] == '-' || s[0] == '+');
    DigitPrefixAll(s);
  }

  /** `parseInt` reads back what `String(n)` wrote. */
  lemma ParseNatToString(n: nat)
    ensures ParseInt10(NatToString(n)) == Some(n)
  {
    NatToStringDigits(n);
    ParseDigits(NatToString(n));
    NatToStringValue(n);
  }

  lemma {:induction false} DigitPrefixAll(s: string)
    requires AllDigits(s)
    ensures DigitPrefix(s) == s
  {
    if |s| > 0 {
      DigitPrefixAll(s[1..]);
    }
  }

  /** `parseInt` stops at the first character that is not a digit. */
  lemma ParseStopsAtNonDigit(d: string, rest: string)
    requires |d| > 0 && AllDigits(d)
    requires |rest| > 0 ==> !IsDigit(rest[0])
    ensures ParseInt10(d + rest) == Some(DigitsValue(d))
  {
    var s := d + rest;
    assert s[0] == d[0] && IsDigit(s[0]) && !IsWhitespace(s[0]);
    assert DropLeadingWhitespace(s) == s;
    assert !(s[0] == '-' || s[0] == '+');
    DigitPrefixConcat(d, rest);
  }

  lemma {:induction false} DigitPrefixConcat(d: string, rest: string)
    requires AllDigits(d)
    requires |rest| > 0 ==> !IsDigit(rest[0])
    ensures DigitPrefix(d + rest) == d
  {
    if |d| > 0 {
      assert (d + rest)[1..] == d[1..] + rest;
      DigitPrefixConcat(d[1..], rest);
    } else {
      assert d + rest == rest;
    }
  }

  predicate IsHexDigit(c: char)
  {
    IsDigit(c) || 'a' <= c <= 'f' || 'A' <= c <= 'F'
  }

  predicate AllHex(s: string)
  {
    forall i | 0 <= i < |s| :: IsHexDigit(s[i])
  }

  function HexDigitValue(c: char): (d: nat)
    requires IsHexDigit(c)
    ensures d < 16
  {
    if IsDigit(c) then c as int - '0' as int
    else if 'a' <= c <= 'f' then c as int - 'a' as int + 10
    else c as int - 'A' as int + 10
  }

  /** The base-16 value of a string of hexadecimal digits. */
  function HexValue(s: string): nat
    requires AllHex(s)
  {
    if |s| == 0 then 0 else HexValue(s[..|s| - 1]) * 16 + HexDigitValue(s[|s| - 1])
  }

  /** The longest prefix of `s` made of hexadecimal digits. */
  function HexPrefix(s: string): (h: string)
    ensures AllHex(h) && |h| <= |s| && h == s[..|h|]
    ensures |h| < |s| ==> !IsHexDigit(s[|h|])
  {
    if |s| > 0 && IsHexDigit(s[0]) then [s[0]] + HexPrefix(s[1..]) else ""
  }

  /** Whether `u` opens with the `0x` or `0X` that switches `parseInt` to base 16. */
  predicate HexMarked(u: string)
  {
    |u| >= 2 && u[0] == '0' && (u[1] == 'x' || u[1] == 'X')
  }

  /** The value of the hexadecimal digits `v` opens with; `None` when there are none. */
  function HexRun(v: string): (r: Option<nat>)
    ensures r.None? <==> (|v| == 0 || !IsHexDigit(v[0]))
  {
    var h := HexPrefix(v);
    if h == "" then None else Some(HexValue(h))
  }

  /**
   * `parseInt(s)` with no radix: leading white space and an optional sign;
   * then, after `0x` or `0X`, the longest run of hexadecimal digits, and
   * otherwise what `parseInt(s, 10)` reads. `None` stands for NaN.
   */
  function ParseIntAuto(s: string): (r: Option<int>)
  {
    var t := DropLeadingWhitespace(s);
    var signed := |t| > 0 && (t[0] == '-' || t[0] == '+');
    var u := if signed then t[1..] else t;
    if !HexMarked(u) then ParseInt10(s)
    else if HexRun(u[2..]).None? then None
    else if signed && t[0] == '-' then Some(-(HexRun(u[2..]).value as int))
    else Some(HexRun(u[2..]).value)
  }

  /** Without a `0x` mark, `parseInt` reads a run of decimal digits in base 10. */
  lemma ParseAutoDigits(s: string)
    requires |s| > 0 && AllDigits(s)
    ensures ParseIntAuto(s) == Some(DigitsValue(s))
  {
    assert IsDigit(s[0]) && !IsWhitespace(s[0]);
    assert DropLeadingWhitespace(s) == s;
    assert |s| >= 2 ==> IsDigit(s[1]);
    assert !HexMarked(s);
    ParseDigits(s);
  }

  lemma {:induction false} HexPrefixAll(s: string)
    requires AllHex(s)
    ensures HexPrefix(s) == s
  {
    if |s| > 0 {
      HexPrefixAll(s[1..]);
    }
  }

  /** After `0x` or `0X` `parseInt` reads the digits in base 16. */
  lemma ParseAutoHex(u: string)
    requires HexMarked(u) && |u| > 2 && AllHex(u[2..])
    ensures ParseIntAuto(u) == Some(HexValue(u[2..]))
  {
    HexPrefixAll(u[2..]);
    assert !IsWhitespace(u[0]) && DropLeadingWhitespace(u) == u;
    assert !(u[0] == '-' || u[0] == '+');
    assert HexRun(u[2..]) == Some(HexValue(u[2..]));
  }

  /** After `-0x` or `-0X` `parseInt` reads the negated digits in base 16. */
  lemma ParseAutoNegHex(u: string)
    requires HexMarked(u) && |u| > 2 && AllHex(u[2..])
    ensures ParseIntAuto("-" + u) == Some(-(HexValue(u[2..]) as int))
  {
    HexPrefixAll(u[2..]);
    var m := "-" + u;
    assert m[1..] == u;
    assert DropLeadingWhitespace(m) == m;
  }

  /** `parseInt(s, 10)` stops at the `x` of a `0x` mark and reads 0. */
  lemma ParseDecimalStopsAtX(u: string)
    requires HexMarked(u)
    ensures ParseInt10(u) == Some(0)
  {
    assert "0"[..0] == "" && DigitsValue("0") == 0;
    assert "0" + u[1..] == u;
    ParseStopsAtNonDigit("0", u[1..]);
  }

  lemma HexValue1F()
    ensures AllHex("1F") && HexValue("1F") == 31
  {
    var h := "1F";
    assert h[..1] == "1" && h[..1][..0] == "";
    assert HexValue(h[..1]) == 1 && HexDigitValue('F') == 15;
  }

  /** `parseInt("0x1F")` reads 31, where `parseInt("0x1F", 10)` reads 0. */
  lemma HexIdExample()
    ensures ParseIntAuto("0x1F") == Some(31)
    ensures ParseInt10("0x1F") == Some(0)
  {
    var u := "0x1F";
    HexValue1F();
    assert u[2..] == "1F";
    ParseAutoHex(u);
    ParseDecimalStopsAtX(u);
  }

  /** A join contains a character other than the separator only if some part does. */
  lemma {:induction false} JoinFree(xs: seq<string>, sep: char, c: char)
    requires NoSeparator(xs, c) && sep != c
    ensures c !in Join(xs, sep)
    decreases |xs|
  {
    if |xs| > 1 {
      JoinFree(xs[1..], sep, c);
    }
  }
}
