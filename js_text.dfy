/** The parts of JavaScript's string semantics that the storefront's logic
    relies on: `trim`, `split`, `join`, `parseInt`, the `\D` filter,
    `toUpperCase` (for the characters that can spell a coupon code),
    `Number.prototype.toString` on naturals, `padStart(2, '0')`, and the
    UTF-16 view of a string that `length` and `charCodeAt` see. */
module JsText {
  import opened Wrappers

  // ---------------------------------------------------------------- characters

  predicate IsDigit(c: char) { '0' <= c <= '9' }

  /** WhiteSpace and LineTerminator of ECMAScript: what `trim` removes. */
  predicate IsJsWhitespace(c: char) {
    var n := c as int;
    n == 0x09 || n == 0x0A || n == 0x0B || n == 0x0C || n == 0x0D || n == 0x20
    || n == 0xA0 || n == 0x1680 || (0x2000 <= n <= 0x200A) || n == 0x2028
    || n == 0x2029 || n == 0x202F || n == 0x205F || n == 0x3000 || n == 0xFEFF
  }

  /** The characters a regular-expression `.` does not match. */
  predicate IsLineTerminator(c: char) {
    var n := c as int;
    n == 0x0A || n == 0x0D || n == 0x2028 || n == 0x2029
  }

  /** `\w` of a regular expression without the `u` flag. */
  predicate IsWordChar(c: char) {
    ('a' <= c <= 'z') || ('A' <= c <= 'Z') || IsDigit(c) || c == '_'
  }

  // ---------------------------------------------------------------- UTF-16

  type CodeUnit = n: int | 0 <= n < 0x1_0000

  /** The UTF-16 code units of one Unicode scalar value. */
  function Utf16Units(c: char): (u: seq<CodeUnit>)
    ensures |u| == if c as int < 0x1_0000 then 1 else 2
  {
    var n := c as int;
    if n < 0x1_0000 then [n]
    else
      var m := n - 0x1_0000;
      [0xD800 + m / 0x400, 0xDC00 + m % 0x400]
  }

  /** The code units `charCodeAt` walks through. */
  function ToUtf16(s: string): (u: seq<CodeUnit>)
    ensures |u| >= |s|
  {
    if s == [] then [] else Utf16Units(s[0]) + ToUtf16(s[1..])
  }

  /** `s.length`. */
  function Utf16Length(s: string): nat { |ToUtf16(s)| }

  /** A character that is a single code unit (in the Basic Multilingual
      Plane). */
  predicate IsBmp(c: char) { c as int < 0x1_0000 }

  /** Without characters outside the Basic Multilingual Plane, `length`
      counts characters. */
  lemma {:induction false} Utf16LengthOfBmp(s: string)
    requires forall i :: 0 <= i < |s| ==> IsBmp(s[i])
    ensures Utf16Length(s) == |s|
  {
    if s != [] {
      Utf16LengthOfBmp(s[1..]);
    }
  }

  // ---------------------------------------------------------------- truthiness

  /** A possibly-undefined string is truthy when it is present and not empty. */
  predicate Truthy(o: Option<string>) { o.Some? && o.value != "" }

  /** JavaScript's `a || b` on possibly-undefined strings. */
  function OrElse(a: Option<string>, b: Option<string>): (r: Option<string>)
    ensures Truthy(a) ==> r == a
    ensures !Truthy(a) ==> r == b
  {
    if Truthy(a) then a else b
  }

  // ---------------------------------------------------------------- digits

  /** `s.replace(/\D/g, '')`. */
  function Digits(s: string): (r: string)
    ensures |r| <= |s|
    ensures forall i :: 0 <= i < |r| ==> IsDigit(r[i])
  {
    if s == [] then [] else (if IsDigit(s[0]) then [s[0]] else []) + Digits(s[1..])
  }

  predicate AllDigits(s: string) { forall i :: 0 <= i < |s| ==> IsDigit(s[i]) }

  lemma {:induction false} DigitsAppend(a: string, b: string)
    ensures Digits(a + b) == Digits(a) + Digits(b)
  {
    if a == [] {
      assert a + b == b;
    } else {
      assert (a + b)[0] == a[0];
      assert (a + b)[1..] == a[1..] + b;
      DigitsAppend(a[1..], b);
    }
  }

  /** Filtering a string of digits gives it back. */
  lemma {:induction false} DigitsOfDigits(s: string)
    requires AllDigits(s)
    ensures Digits(s) == s
  {
    if s != [] {
      DigitsOfDigits(s[1..]);
    }
  }

  // ---------------------------------------------------------------- trim

  function TrimStart(s: string): (r: string)
    ensures |r| <= |s| && r == s[|s| - |r|..]
    ensures r == [] || !IsJsWhitespace(r[0])
    ensures forall i :: 0 <= i < |s| - |r| ==> IsJsWhitespace(s[i])
  {
    if s != [] && IsJsWhitespace(s[0]) then TrimStart(s[1..]) else s
  }

  function TrimEnd(s: string): (r: string)
    ensures |r| <= |s| && r == s[..|r|]
    ensures r == [] || !IsJsWhitespace(r[|r| - 1])
    ensures forall i :: |r| <= i < |s| ==> IsJsWhitespace(s[i])
  {
    if s != [] && IsJsWhitespace(s[|s| - 1]) then TrimEnd(s[..|s| - 1]) else s
  }

  /** `s.trim()`: neither end of the result is white space. `TrimSpec`
      adds that only white space was removed. */
  function Trim(s: string): (r: string)
    ensures |r| <= |s|
    ensures r == [] || (!IsJsWhitespace(r[0]) && !IsJsWhitespace(r[|r| - 1]))
  {
    TrimEnd(TrimStart(s))
  }

  /** Only white space is removed: the trimmed text is the slice of `s`
      after its leading white space, and everything after that slice is
      white space too. */
  lemma TrimSpec(s: string)
    ensures var i := |s| - |TrimStart(s)|;
      && i + |Trim(s)| <= |s|
      && (forall k :: 0 <= k < |Trim(s)| ==> Trim(s)[k] == s[i + k])
      && (forall k :: 0 <= k < i ==> IsJsWhitespace(s[k]))
      && (forall k :: i + |Trim(s)| <= k < |s| ==> IsJsWhitespace(s[k]))
  {
    var t := TrimStart(s);
    var r := TrimEnd(t);
    assert Trim(s) == r;
    SuffixAt(s, t);
    PrefixAt(t, r);
    TrimSlice(s, t, r);
  }

  /** A suffix of `s`, read character by character. */
  lemma SuffixAt(s: string, t: string)
    requires |t| <= |s| && t == s[|s| - |t|..]
    ensures forall k :: 0 <= k < |t| ==> t[k] == s[|s| - |t| + k]
  {
  }

  /** A prefix of `t`, read character by character. */
  lemma PrefixAt(t: string, r: string)
    requires |r| <= |t| && r == t[..|r|]
    ensures forall k :: 0 <= k < |r| ==> r[k] == t[k]
  {
  }

  /** A prefix `r` of a suffix `t` of `s`, where `t` continues with white
      space only, is a slice of `s` followed by white space only. */
  lemma TrimSlice(s: string, t: string, r: string)
    requires |t| <= |s| && forall k :: 0 <= k < |t| ==> t[k] == s[|s| - |t| + k]
    requires |r| <= |t| && forall k :: 0 <= k < |r| ==> r[k] == t[k]
    requires forall k :: |r| <= k < |t| ==> IsJsWhitespace(t[k])
    ensures |s| - |t| + |r| <= |s|
    ensures forall k :: 0 <= k < |r| ==> r[k] == s[|s| - |t| + k]
    ensures forall k :: |s| - |t| + |r| <= k < |s| ==> IsJsWhitespace(s[k])
  {
    var i := |s| - |t|;
    forall k | i + |r| <= k < |s| ensures IsJsWhitespace(s[k]) {
      assert s[k] == t[k - i];
    }
  }

  /** Trimming keeps only characters of the text. */
  lemma TrimKeepsCharacters(s: string)
    ensures forall c :: c in Trim(s) ==> c in s
    ensures forall i :: 0 <= i < |Trim(s)| ==> Trim(s)[i] in s
  {
    var r, i := Trim(s), |s| - |TrimStart(s)|;
    TrimSpec(s);
    forall k | 0 <= k < |r| ensures r[k] in s {
      assert r[k] == s[i + k];
    }
  }

  /** Trimming a string without white space at its ends changes nothing. */
  lemma TrimOfTrimmed(s: string)
    requires s == [] || (!IsJsWhitespace(s[0]) && !IsJsWhitespace(s[|s| - 1]))
    ensures Trim(s) == s
  {
  }

  // ---------------------------------------------------------------- split / join

  /** The first index of `c` in `s`. */
  function IndexOf(s: string, c: char): (k: nat)
    requires c in s
    ensures k < |s| && s[k] == c && c !in s[..k]
  {
    if s[0] == c then 0
    else
      var k := 1 + IndexOf(s[1..], c);
      assert s[..k] == [s[0]] + s[1..][..k - 1];
      k
  }

  /** `s.split(sep)` for a one-character separator: the pieces between the
      separators, empty pieces included; never an empty list. */
  function Split(s: string, sep: char): (parts: seq<string>)
    ensures |parts| >= 1
    ensures forall i :: 0 <= i < |parts| ==> sep !in parts[i]
    decreases |s|
  {
    if sep !in s then [s]
    else
      var k := IndexOf(s, sep);
      [s[..k]] + Split(s[k + 1..], sep)
  }

  /** `parts.join(sep)` for a one-character separator. */
  function Join(parts: seq<string>, sep: char): string
  {
    if parts == [] then ""
    else if |parts| == 1 then parts[0]
    else parts[0] + [sep] + Join(parts[1..], sep)
  }

  /** Joining the pieces with the separator gives back the string. */
  lemma {:induction false} JoinSplit(s: string, sep: char)
    ensures Join(Split(s, sep), sep) == s
    decreases |s|
  {
    if sep in s {
      var k := IndexOf(s, sep);
      var rest := s[k + 1..];
      assert Split(s, sep) == [s[..k]] + Split(rest, sep);
      JoinCons(s[..k], Split(rest, sep), sep);
      JoinSplit(rest, sep);
      assert s == s[..k] + [sep] + rest;
    }
  }

  lemma JoinCons(head: string, tail: seq<string>, sep: char)
    requires |tail| >= 1
    ensures Join([head] + tail, sep) == head + [sep] + Join(tail, sep)
  {
    assert ([head] + tail)[1..] == tail;
  }

  /** The first piece of a split is the text before the first separator. */
  lemma SplitHead(s: string, sep: char)
    ensures sep !in s ==> Split(s, sep) == [s]
    ensures sep in s ==> Split(s, sep)[0] == s[..IndexOf(s, sep)]
  {
  }

  predicate OccursAt(s: string, pat: string, j: nat) {
    j + |pat| <= |s| && s[j..j + |pat|] == pat
  }

  /** `s.indexOf(pat)`, None for -1. */
  function IndexOfSub(s: string, pat: string): (r: Option<nat>)
    requires |pat| > 0
    ensures r.Some? ==> OccursAt(s, pat, r.value)
    ensures r.Some? ==> forall j: nat :: j < r.value ==> !OccursAt(s, pat, j)
    ensures r.None? ==> forall j: nat :: !OccursAt(s, pat, j)
    decreases |s|
  {
    if |s| < |pat| then None
    else if s[..|pat|] == pat then Some(0)
    else
      var rest := IndexOfSub(s[1..], pat);
      assert forall j: nat :: j >= 1 ==> (OccursAt(s, pat, j) <==> OccursAt(s[1..], pat, j - 1)) by {
        forall j: nat | j >= 1 ensures OccursAt(s, pat, j) <==> OccursAt(s[1..], pat, j - 1) {
          if j + |pat| <= |s| {
            var t := s[1..];
            var a, b := t[j - 1..j - 1 + |pat|], s[j..j + |pat|];
            assert forall i :: 0 <= i < |pat| ==> a[i] == b[i];
            assert t[j - 1..j - 1 + |pat|] == s[j..j + |pat|];
          }
        }
      }
      assert !OccursAt(s, pat, 0);
      match rest
      case None =>
        assert forall j: nat :: !OccursAt(s, pat, j) by {
          forall j: nat ensures !OccursAt(s, pat, j) {
            if j >= 1 { assert !OccursAt(s[1..], pat, j - 1); }
          }
        }
        None
      case Some(k) =>
        assert forall j: nat :: j < k + 1 ==> !OccursAt(s, pat, j) by {
          forall j: nat | j < k + 1 ensures !OccursAt(s, pat, j) {
            if j >= 1 { assert !OccursAt(s[1..], pat, j - 1); }
          }
        }
        assert OccursAt(s, pat, k + 1);
        Some(k + 1)
  }

  /** `s.split(pat)` for a separator of several characters. */
  function SplitOn(s: string, pat: string): (parts: seq<string>)
    requires |pat| > 0
    ensures |parts| >= 1
    ensures forall i, k: nat :: 0 <= i < |parts| ==> !OccursAt(parts[i], pat, k)
    decreases |s|
  {
    match IndexOfSub(s, pat)
    case None => [s]
    case Some(k) =>
      var rest := SplitOn(s[k + |pat|..], pat);
      forall j: nat ensures !OccursAt(s[..k], pat, j) {
        if OccursAt(s[..k], pat, j) {
          assert s[..k][j..j + |pat|] == s[j..j + |pat|];
          assert OccursAt(s, pat, j);
        }
      }
      [s[..k]] + rest
  }

  function JoinOn(parts: seq<string>, pat: string): string
  {
    if parts == [] then ""
    else if |parts| == 1 then parts[0]
    else parts[0] + pat + JoinOn(parts[1..], pat)
  }

  lemma {:induction false} JoinOnSplitOn(s: string, pat: string)
    requires |pat| > 0
    ensures JoinOn(SplitOn(s, pat), pat) == s
    decreases |s|
  {
    var r := IndexOfSub(s, pat);
    if r.Some? {
      var k := r.value;
      var rest := s[k + |pat|..];
      var parts := SplitOn(s, pat);
      assert parts == [s[..k]] + SplitOn(rest, pat);
      assert parts[1..] == SplitOn(rest, pat);
      JoinOnSplitOn(rest, pat);
      assert JoinOn(parts, pat) == s[..k] + pat + rest;
      assert s == s[..k] + pat + rest;
    }
  }

  // ---------------------------------------------------------------- numbers

  function DigitChar(d: nat): (c: char)
    requires d < 10
    ensures IsDigit(c)
  {
    ('0' as int + d) as char
  }

  function DigitValue(c: char): (d: nat)
    requires IsDigit(c)
    ensures d < 10 && DigitChar(d) == c
  {
    (c as int - '0' as int)
  }

  /** `n.toString()` for a natural number. */
  function NatToString(n: nat): (s: string)
    ensures |s| >= 1 && AllDigits(s)
    ensures n < 10 <==> |s| == 1
    ensures s[0] != '0' || n == 0
  {
    if n < 10 then [DigitChar(n)] else NatToString(n / 10) + [DigitChar(n % 10)]
  }

  /** The value of a string of decimal digits. */
  function DecimalValue(d: string): nat
    requires AllDigits(d)
  {
    if d == [] then 0 else DecimalValue(d[..|d| - 1]) * 10 + DigitValue(d[|d| - 1])
  }

  lemma {:induction false} DecimalValueOfNatToString(n: nat)
    ensures DecimalValue(NatToString(n)) == n
  {
    if n >= 10 {
      var s := NatToString(n);
      assert s[..|s| - 1] == NatToString(n / 10);
      DecimalValueOfNatToString(n / 10);
    }
  }

  /** `toString` is injective on naturals. */
  lemma NatToStringInjective(m: nat, n: nat)
    requires NatToString(m) == NatToString(n)
    ensures m == n
  {
    DecimalValueOfNatToString(m);
    DecimalValueOfNatToString(n);
  }

  predicate IsHexDigit(c: char) {
    IsDigit(c) || ('a' <= c <= 'f') || ('A' <= c <= 'F')
  }

  function HexDigitValue(c: char): nat
    requires IsHexDigit(c)
  {
    if IsDigit(c) then DigitValue(c)
    else if 'a' <= c <= 'f' then c as int - 'a' as int + 10
    else c as int - 'A' as int + 10
  }

  /** The longest prefix of `s` made of decimal digits. */
  function DigitPrefix(s: string): (d: string)
    ensures AllDigits(d) && |d| <= |s| && d == s[..|d|]
    ensures |d| < |s| ==> !IsDigit(s[|d|])
  {
    if s != [] && IsDigit(s[0]) then [s[0]] + DigitPrefix(s[1..]) else []
  }

  /** The longest prefix of `s` made of hexadecimal digits. */
  function HexPrefix(s: string): (h: string)
    ensures |h| <= |s| && h == s[..|h|]
    ensures forall i :: 0 <= i < |h| ==> IsHexDigit(h[i])
  {
    if s != [] && IsHexDigit(s[0]) then [s[0]] + HexPrefix(s[1..]) else []
  }

  function HexValue(h: string): nat
    requires forall i :: 0 <= i < |h| ==> IsHexDigit(h[i])
  {
    if h == [] then 0 else HexValue(h[..|h| - 1]) * 16 + HexDigitValue(h[|h| - 1])
  }

  /** `parseInt(s)` with no radix: leading white space, an optional sign, a
      `0x` prefix switching to base 16, then the longest run of digits.
      None stands for NaN. */
  function ParseInt(s: string): Option<int>
  {
    ParseSigned(TrimStart(s))
  }

  /** What `parseInt` reads once the white space is gone. */
  function ParseSigned(t: string): Option<int>
  {
    if t != [] && t[0] == '-' then
      match ParseMagnitude(t[1..])
      case None => None
      case Some(v) => Some(-(v as int))
    else if t != [] && t[0] == '+' then
      match ParseMagnitude(t[1..])
      case None => None
      case Some(v) => Some(v as int)
    else
      match ParseMagnitude(t)
      case None => None
      case Some(v) => Some(v as int)
  }

  /** What `parseInt` reads after the sign: base 16 behind `0x`, else base 10. */
  function ParseMagnitude(u: string): Option<nat>
  {
    if |u| >= 2 && u[0] == '0' && (u[1] == 'x' || u[1] == 'X') then
      var h := HexPrefix(u[2..]);
      if h == [] then None else Some(HexValue(h))
    else
      var d := DigitPrefix(u);
      if d == [] then None else Some(DecimalValue(d))
  }

  /** `parseInt(x) || 0`, where `x` may be undefined. */
  function ParseIntOrZero(o: Option<string>): int
  {
    match o
    case None => 0
    case Some(s) => ParseInt(s).GetOr(0)
  }

  lemma {:induction false} DigitPrefixOfDigitsThen(d: string, rest: string)
    requires AllDigits(d)
    requires rest == [] || !IsDigit(rest[0])
    ensures DigitPrefix(d + rest) == d
  {
    if d != [] {
      assert (d + rest)[1..] == d[1..] + rest;
      DigitPrefixOfDigitsThen(d[1..], rest);
    }
  }

  /** `parseInt` reads back the number `toString` wrote, whatever text that
      does not start with a digit (or, after "0", with an `x`) follows it:
      so `parseInt("142 min")` is 142. */
  lemma ParseIntOfNatToString(n: nat, rest: string)
    requires rest == [] || (!IsDigit(rest[0]) && rest[0] != 'x' && rest[0] != 'X')
    ensures ParseInt(NatToString(n) + rest) == Some(n)
  {
    var d := NatToString(n);
    var s := d + rest;
    assert s[0] == d[0];
    if |s| >= 2 && s[0] == '0' {
      assert n == 0 && |d| == 1;
      assert s[1] == rest[0];
    }
    ParseIntOfUnsigned(s);
    DigitPrefixOfDigitsThen(d, rest);
    DecimalValueOfNatToString(n);
  }

  /** Text that starts with a digit and not with `0x` is read in base ten. */
  lemma ParseIntOfUnsigned(s: string)
    requires s != [] && IsDigit(s[0])
    requires !(|s| >= 2 && s[0] == '0' && (s[1] == 'x' || s[1] == 'X'))
    ensures ParseInt(s) == Some(DecimalValue(DigitPrefix(s)))
  {
    DigitIsNotSpaceOrSign(s[0]);
    TrimStartOfNonSpace(s);
    DecimalMagnitude(s);
  }

  lemma DigitIsNotSpaceOrSign(c: char)
    requires IsDigit(c)
    ensures !IsJsWhitespace(c) && c != '-' && c != '+'
  {
  }

  lemma TrimStartOfNonSpace(s: string)
    requires s != [] && !IsJsWhitespace(s[0])
    ensures TrimStart(s) == s
  {
  }

  lemma DecimalMagnitude(u: string)
    requires u != [] && IsDigit(u[0])
    requires !(|u| >= 2 && u[0] == '0' && (u[1] == 'x' || u[1] == 'X'))
    ensures ParseMagnitude(u) == Some(DecimalValue(DigitPrefix(u)))
  {
    assert DigitPrefix(u) != [];
  }

  /** `Math.ceil(n / 10) * 10` for an integer `n`: the least multiple of ten
      that is not below `n`. */
  function CeilToTen(n: int): (r: int)
    ensures r % 10 == 0 && n <= r < n + 10
  {
    ((n + 9) / 10) * 10
  }

  /** `a <= b` on strings of the same fixed-width format, compared character
      by character (the order of ISO 8601 timestamps). */
  predicate StringLe(a: string, b: string)
  {
    a == [] || (b != [] && (a[0] < b[0] || (a[0] == b[0] && StringLe(a[1..], b[1..]))))
  }

  /** `s.padStart(2, '0')`. */
  function PadStart2(s: string): (r: string)
    ensures |r| == if |s| >= 2 then |s| else 2
    ensures r[|r| - |s|..] == s
  {
    if |s| >= 2 then s else if |s| == 1 then "0" + s else "00"
  }

  // ---------------------------------------------------------------- case

  /** `toUpperCase` on one character, for the ASCII letters and the two
      other characters whose upper case is a single ASCII letter (dotless i
      and long s). Every other character is left as it is, including those
      whose upper case is a non-ASCII letter (é) or several letters (ß and
      the ligatures ﬀ to ﬆ). */
  function UpperChar(c: char): char
  {
    if 'a' <= c <= 'z' then (c as int - 32) as char
    else if c == 'ı' then 'I'
    else if c == 'ſ' then 'S'
    else c
  }

  function ToUpper(s: string): (r: string)
    ensures |r| == |s|
    ensures forall i :: 0 <= i < |s| ==> r[i] == UpperChar(s[i])
  {
    if s == [] then [] else [UpperChar(s[0])] + ToUpper(s[1..])
  }

  /** Upper-casing twice is upper-casing once. */
  lemma ToUpperIdempotent(s: string)
    ensures ToUpper(ToUpper(s)) == ToUpper(s)
  {
    var u := ToUpper(s);
    assert forall i :: 0 <= i < |u| ==> UpperChar(u[i]) == u[i];
  }

  function LowerAscii(c: char): char
  {
    if 'A' <= c <= 'Z' then (c as int + 32) as char else c
  }

  function ToLowerAscii(s: string): (r: string)
    ensures |r| == |s|
    ensures forall i :: 0 <= i < |s| ==> r[i] == LowerAscii(s[i])
  {
    if s == [] then [] else [LowerAscii(s[0])] + ToLowerAscii(s[1..])
  }

  predicate StartsWith(s: string, prefix: string) {
    |prefix| <= |s| && s[..|prefix|] == prefix
  }
}
