/**
 * String helpers with the meaning JavaScript gives them: `trim`, `split`,
 * `join`, `startsWith` and the regular-expression rewrites the two stores
 * apply to paths. Strings are sequences of Unicode scalar values.
 */
module Strings {
  import opened Wrappers

  /** The code points `String.prototype.trim` (and `parseInt`) skip: WhiteSpace and LineTerminator. */
  predicate IsWhitespace(c: char)
  {
    || c == '\t' || c == '\n' || c == '\U{B}' || c == '\U{C}' || c == '\r' || c == ' '
    || c == '\U{A0}' || c == '\U{1680}' || ('\U{2000}' <= c <= '\U{200A}')
    || c == '\U{2028}' || c == '\U{2029}' || c == '\U{202F}' || c == '\U{205F}'
    || c == '\U{3000}' || c == '\U{FEFF}'
  }

  /** Every character of `s` is whitespace (the empty string included). */
  predicate Blank(s: string)
  {
    forall i | 0 <= i < |s| :: IsWhitespace(s[i])
  }

  function TrimStart(s: string): (r: string)
    ensures |r| <= |s| && r == s[|s| - |r|..]
    ensures forall i | 0 <= i < |s| - |r| :: IsWhitespace(s[i])
    ensures r == [] || !IsWhitespace(r[0])
  {
    if |s| > 0 && IsWhitespace(s[0]) then TrimStart(s[1..]) else s
  }

  function TrimEnd(s: string): (r: string)
    ensures |r| <= |s| && r == s[..|r|]
    ensures forall i | |r| <= i < |s| :: IsWhitespace(s[i])
    ensures r == [] || !IsWhitespace(r[|r| - 1])
  {
    if |s| > 0 && IsWhitespace(s[|s| - 1]) then TrimEnd(s[..|s| - 1]) else s
  }

  /** `s.trim()`: drops leading and trailing whitespace; empty exactly for blank strings. */
  function Trim(s: string): (r: string)
    ensures r == [] <==> Blank(s)
    ensures r != [] ==> !IsWhitespace(r[0]) && !IsWhitespace(r[|r| - 1])
  {
    var t := TrimStart(s);
    var r := TrimEnd(t);
    TrimBlank(s, t, r);
    TrimEndFront(t);
    r
  }

  lemma TrimEndFront(t: string)
    ensures TrimEnd(t) != [] ==> TrimEnd(t)[0] == t[0]
  {
  }

  /** Where the trimmed string starts in `s`. */
  function TrimOffset(s: string): nat
  {
    |s| - |TrimStart(s)|
  }

  /** The trimmed string is a contiguous piece of `s`. */
  lemma TrimSlice(s: string)
    ensures TrimOffset(s) + |Trim(s)| <= |s|
    ensures Trim(s) == s[TrimOffset(s)..TrimOffset(s) + |Trim(s)|]
  {
    var t := TrimStart(s);
    var r := TrimEnd(t);
    assert r == Trim(s);
    assert t == s[|s| - |t|..];
    assert r == t[..|r|];
  }

  lemma TrimBlank(s: string, t: string, r: string)
    requires t == TrimStart(s) && r == TrimEnd(t)
    ensures r == [] <==> Blank(s)
  {
    var k := |s| - |t|;
    if r == [] {
      assert t == [];
    } else {
      assert r[0] == s[k];
    }
  }

  /** No two consecutive occurrences of `c`. */
  predicate NoDouble(s: string, c: char)
  {
    forall i | 0 <= i < |s| - 1 :: s[i] != c || s[i + 1] != c
  }

  /** `s.replace(/c+/g, c)`: every run of `c` becomes a single `c`. */
  function Collapse(s: string, c: char): (r: string)
    ensures NoDouble(r, c)
    ensures |r| <= |s| && (r == []) == (s == [])
    ensures s != [] ==> r[0] == s[0] && r[|r| - 1] == s[|s| - 1]
    ensures forall x | x in r :: x in s
  {
    if |s| <= 1 then s
    else if s[0] == c && s[1] == c then Collapse(s[1..], c)
    else
      var t := Collapse(s[1..], c);
      assert forall x | x in t :: x in s by {
        forall x | x in t ensures x in s {
          assert x in s[1..];
        }
      }
      [s[0]] + t
  }

  /** A slice of a string without doubled `c` has none either. */
  lemma NoDoubleSlice(s: string, c: char, i: nat, j: nat)
    requires NoDouble(s, c) && i <= j <= |s|
    ensures NoDouble(s[i..j], c)
  {
    var t := s[i..j];
    forall k | 0 <= k < |t| - 1 ensures t[k] != c || t[k + 1] != c {
      assert t[k] == s[i + k] && t[k + 1] == s[i + k + 1];
    }
  }

  /** Collapsing a blank string leaves it blank. */
  lemma CollapseBlank(s: string, c: char)
    ensures Blank(s) ==> Blank(Collapse(s, c))
  {
    var r := Collapse(s, c);
    if Blank(s) {
      forall i | 0 <= i < |r| ensures IsWhitespace(r[i]) {
        assert r[i] in r;
        var j :| 0 <= j < |s| && s[j] == r[i];
      }
    }
  }

  lemma {:induction false} CollapseNoDouble(s: string, c: char)
    requires NoDouble(s, c)
    ensures Collapse(s, c) == s
  {
    if |s| > 1 {
      CollapseNoDouble(s[1..], c);
    }
  }

  /** `s.replace(/a/g, b)`. */
  function ReplaceChar(s: string, a: char, b: char): (r: string)
    ensures |r| == |s|
    ensures forall i | 0 <= i < |s| :: r[i] == (if s[i] == a then b else s[i])
  {
    if s == [] then [] else [if s[0] == a then b else s[0]] + ReplaceChar(s[1..], a, b)
  }

  /** `s.split(c)` for a one-character separator: the pieces between separators, empty ones included. */
  function Split(s: string, c: char): (r: seq<string>)
    ensures |r| >= 1
    ensures forall i | 0 <= i < |r| :: c !in r[i]
  {
    if s == [] then [""]
    else if s[0] == c then [""] + Split(s[1..], c)
    else
      var t := Split(s[1..], c);
      [[s[0]] + t[0]] + t[1..]
  }

  /** `parts.join(c)`. */
  function Join(parts: seq<string>, c: char): string
  {
    if |parts| == 0 then ""
    else if |parts| == 1 then parts[0]
    else parts[0] + [c] + Join(parts[1..], c)
  }

  lemma {:induction false} JoinSplit(s: string, c: char)
    ensures Join(Split(s, c), c) == s
  {
    if s != [] {
      JoinSplit(s[1..], c);
      var t := Split(s[1..], c);
      if s[0] != c && |t| > 1 {
        assert Join(t, c) == t[0] + [c] + Join(t[1..], c);
        assert Split(s, c)[1..] == t[1..];
      }
    }
  }

  lemma {:induction false} SplitJoin(parts: seq<string>, c: char)
    requires |parts| > 0
    requires forall i | 0 <= i < |parts| :: c !in parts[i]
    ensures Split(Join(parts, c), c) == parts
  {
    if |parts| == 1 {
      SplitNoSeparator(parts[0], c);
    } else {
      SplitJoin(parts[1..], c);
      SplitCons(parts[0], Join(parts[1..], c), c);
    }
  }

  lemma {:induction false} SplitNoSeparator(s: string, c: char)
    requires c !in s
    ensures Split(s, c) == [s]
  {
    if s != [] {
      SplitNoSeparator(s[1..], c);
      assert [s[0]] + s[1..] == s;
    }
  }

  /** Splitting `a + c + b` where `a` holds no separator. */
  lemma {:induction false} SplitCons(a: string, b: string, c: char)
    requires c !in a
    ensures Split(a + [c] + b, c) == [a] + Split(b, c)
  {
    if a != [] {
      SplitCons(a[1..], b, c);
      assert (a + [c] + b)[1..] == a[1..] + [c] + b;
      assert [a[0]] + a[1..] == a;
    } else {
      assert a + [c] + b == [c] + b;
    }
  }

  lemma {:induction false} JoinAppend(a: seq<string>, b: seq<string>, c: char)
    requires |a| > 0 && |b| > 0
    ensures Join(a + b, c) == Join(a, c) + [c] + Join(b, c)
  {
    if |a| > 1 {
      JoinAppend(a[1..], b, c);
      assert (a + b)[1..] == a[1..] + b;
    }
  }

  /** `s.startsWith(p)`. */
  predicate StartsWith(s: string, p: string)
  {
    p <= s
  }

  /** `s.includes(c)` for one character. */
  predicate Contains(s: string, c: char)
  {
    c in s
  }

  /** A digit of base `radix`, for the bases 8 and 10 the stores parse. */
  predicate IsDigit(c: char, radix: nat)
    requires 2 <= radix <= 10
  {
    '0' <= c && (c as int) < ('0' as int) + radix
  }

  /** The longest prefix of `s` made of base-`radix` digits. */
  function DigitPrefix(s: string, radix: nat): (r: string)
    requires 2 <= radix <= 10
    ensures r <= s
    ensures forall i | 0 <= i < |r| :: IsDigit(r[i], radix)
    ensures |r| < |s| ==> !IsDigit(s[|r|], radix)
  {
    if s != [] && IsDigit(s[0], radix) then [s[0]] + DigitPrefix(s[1..], radix) else []
  }

  /** The number a string of base-`radix` digits denotes. */
  function DigitsValue(ds: string, radix: nat): nat
    requires 2 <= radix <= 10
    requires forall i | 0 <= i < |ds| :: IsDigit(ds[i], radix)
  {
    if ds == [] then 0
    else
      assert IsDigit(ds[|ds| - 1], radix);
      DigitsValue(ds[..|ds| - 1], radix) * radix + DigitOf(ds[|ds| - 1])
  }

  /** The value of a decimal digit character. */
  function DigitOf(c: char): nat
    requires '0' <= c
  {
    c as int - '0' as int
  }

  /** The digit character of a value below 10. */
  function DigitChar(d: nat): (c: char)
    requires d < 10
    ensures '0' <= c && DigitOf(c) == d
  {
    ('0' as int + d) as char
  }

  /**
   * `parseInt(s, radix)` for the bases 8 and 10: leading whitespace and one
   * sign are skipped, the longest run of digits is read and anything after it
   * ignored; no digit at all gives `NaN`, here `None`.
   */
  function ParseInt(s: string, radix: nat): Option<int>
    requires 2 <= radix <= 10
  {
    var t := TrimStart(s);
    var negative := |t| > 0 && t[0] == '-';
    var body := if |t| > 0 && (t[0] == '-' || t[0] == '+') then t[1..] else t;
    var digits := DigitPrefix(body, radix);
    if digits == [] then None
    else
      var value: int := DigitsValue(digits, radix);
      Some(if negative then -value else value)
  }

  /** The base-`radix` numeral of `n`, without leading zeros. */
  function Numeral(n: nat, radix: nat): (r: string)
    requires 2 <= radix <= 10
    ensures r != [] && forall i | 0 <= i < |r| :: IsDigit(r[i], radix)
  {
    if n < radix then [DigitChar(n)]
    else
      DivShrinks(n, radix);
      var digit := DigitChar(n % radix);
      assert IsDigit(digit, radix);
      Numeral(n / radix, radix) + [digit]
  }

  /** A numeral denotes the number it was written for. */
  lemma {:induction false} NumeralValue(n: nat, radix: nat)
    requires 2 <= radix <= 10
    ensures DigitsValue(Numeral(n, radix), radix) == n
  {
    if n >= radix {
      DivShrinks(n, radix);
      NumeralValue(n / radix, radix);
      NumeralStep(n, radix);
    } else {
      DigitsValueSnoc([], DigitChar(n), radix);
      assert Numeral(n, radix) == [] + [DigitChar(n)];
    }
  }

  lemma NumeralStep(n: nat, radix: nat)
    requires 2 <= radix <= 10 && n >= radix
    requires DigitsValue(Numeral(n / radix, radix), radix) == n / radix
    ensures DigitsValue(Numeral(n, radix), radix) == n
  {
    var q, d := n / radix, n % radix;
    DivMod(n, radix);
    NumeralSnoc(n, radix);
    DigitsValueSnoc(Numeral(q, radix), DigitChar(d), radix);
  }

  lemma NumeralSnoc(n: nat, radix: nat)
    requires 2 <= radix <= 10 && n >= radix
    ensures Numeral(n, radix) == Numeral(n / radix, radix) + [DigitChar(n % radix)]
  {
  }

  lemma DivShrinks(n: nat, radix: nat)
    requires 2 <= radix <= n
    ensures n / radix < n && 0 <= n % radix < radix
  {
    var q, d := n / radix, n % radix;
    DivMod(n, radix);
    assert q * radix >= q * 2 by {
      assert q * radix == q * 2 + q * (radix - 2);
    }
  }

  lemma DivMod(n: nat, radix: nat)
    requires radix > 0
    ensures n == (n / radix) * radix + n % radix && 0 <= n % radix < radix
  {
  }

  lemma DigitsValueSnoc(ds: string, c: char, radix: nat)
    requires 2 <= radix <= 10
    requires forall i | 0 <= i < |ds| :: IsDigit(ds[i], radix)
    requires IsDigit(c, radix)
    ensures DigitsValue(ds + [c], radix) == DigitsValue(ds, radix) * radix + DigitOf(c)
  {
    assert (ds + [c])[..|ds|] == ds;
  }

  /** `parseInt` reads back a numeral, whatever non-digit text follows it. */
  lemma ParseNumeral(n: nat, radix: nat, rest: string)
    requires 2 <= radix <= 10
    requires rest == [] || !IsDigit(rest[0], radix)
    ensures ParseInt(Numeral(n, radix) + rest, radix) == Some(n as int)
  {
    var ds := Numeral(n, radix);
    assert (ds + rest)[0] == ds[0];
    DigitPrefixOf(ds, rest, radix);
    NumeralValue(n, radix);
    ParseIntUnsigned(ds + rest, radix);
  }

  /** `parseInt` reads back a negated numeral, whatever non-digit text follows it. */
  lemma ParseNegatedNumeral(n: nat, radix: nat, rest: string)
    requires 2 <= radix <= 10
    requires rest == [] || !IsDigit(rest[0], radix)
    ensures ParseInt("-" + (Numeral(n, radix) + rest), radix) == Some(-(n as int))
  {
    var body := Numeral(n, radix) + rest;
    assert body[0] == Numeral(n, radix)[0];
    DigitPrefixOf(Numeral(n, radix), rest, radix);
    NumeralValue(n, radix);
    ParseIntSigned(body, radix, n);
  }

  lemma ParseIntUnsigned(body: string, radix: nat)
    requires 2 <= radix <= 10 && body != [] && IsDigit(body[0], radix)
    ensures ParseInt(body, radix) == Some(DigitsValue(DigitPrefix(body, radix), radix) as int)
  {
    TrimStartFixed(body);
  }

  lemma ParseIntSigned(body: string, radix: nat, value: nat)
    requires 2 <= radix <= 10 && body != [] && IsDigit(body[0], radix)
    requires DigitsValue(DigitPrefix(body, radix), radix) == value
    ensures ParseInt("-" + body, radix) == Some(-(value as int))
  {
    TrimStartFixed("-" + body);
    assert ("-" + body)[1..] == body;
  }

  lemma TrimStartFixed(s: string)
    requires s != [] && !IsWhitespace(s[0])
    ensures TrimStart(s) == s
  {
  }

  lemma {:induction false} DigitPrefixOf(ds: string, rest: string, radix: nat)
    requires 2 <= radix <= 10
    requires forall i | 0 <= i < |ds| :: IsDigit(ds[i], radix)
    requires rest == [] || !IsDigit(rest[0], radix)
    ensures DigitPrefix(ds + rest, radix) == ds
  {
    if ds != [] {
      assert (ds + rest)[1..] == ds[1..] + rest;
      DigitPrefixOf(ds[1..], rest, radix);
    } else {
      assert ds + rest == rest;
    }
  }

  /** The number of bytes UTF-8 spends on one code point. */
  function Utf8Width(c: char): nat
  {
    if c < '\U{80}' then 1 else if c < '\U{800}' then 2 else if c < '\U{10000}' then 3 else 4
  }

  /** `new TextEncoder().encode(s).length`: the UTF-8 length of `s`. */
  function Utf8Length(s: string): (r: nat)
    ensures |s| <= r <= 4 * |s|
  {
    if s == [] then 0 else Utf8Width(s[0]) + Utf8Length(s[1..])
  }

  /** The UTF-8 length of a concatenation is the sum of the lengths. */
  lemma {:induction false} Utf8LengthAppend(a: string, b: string)
    ensures Utf8Length(a + b) == Utf8Length(a) + Utf8Length(b)
  {
    if a != [] {
      assert (a + b)[1..] == a[1..] + b;
      Utf8LengthAppend(a[1..], b);
    } else {
      assert a + b == b;
    }
  }
}
