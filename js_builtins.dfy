/** The JavaScript built-ins the window manager leans on: `Array.prototype.find` and
    `join`, and over `seq<char>` `String.prototype.split(sep)[0]`, `startsWith`, the
    decimal form a template literal gives an integer, and `parseInt` without a radix. */
module JsBuiltins {

  import opened Types

  predicate StartsWith(s: string, prefix: string) {
    |prefix| <= |s| && s[..|prefix|] == prefix
  }

  predicate EndsWith(s: string, suffix: string) {
    |suffix| <= |s| && s[|s| - |suffix|..] == suffix
  }

  // ---------------------------------------------------------------------------
  // Array.prototype.find

  /** `xs.find(p)`: the first element satisfying `p`, or `None` (undefined). */
  function Find<T>(xs: seq<T>, p: T -> bool): (r: Option<T>)
    ensures r.None? <==> forall i :: 0 <= i < |xs| ==> !p(xs[i])
    ensures r.Some? ==> exists i :: 0 <= i < |xs| && xs[i] == r.value && p(xs[i]) &&
                                    forall j :: 0 <= j < i ==> !p(xs[j])
  {
    if |xs| == 0 then None
    else if p(xs[0]) then Some(xs[0])
    else
      var r := Find(xs[1..], p);
      assert r.Some? ==> exists i :: 0 <= i < |xs[1..]| && xs[1..][i] == r.value && p(xs[1..][i]) &&
                                     forall j :: 0 <= j < i ==> !p(xs[1..][j]);
      r
  }

  // ---------------------------------------------------------------------------
  // Array.prototype.join

  /** `parts.join(sep)`: the parts in order with `sep` between neighbours. */
  function Join(parts: seq<string>, sep: string): string {
    if |parts| == 0 then ""
    else if |parts| == 1 then parts[0]
    else parts[0] + sep + Join(parts[1..], sep)
  }

  /** Joining two non-empty lists is joining each and putting one separator between:
      the parts keep their order and every neighbouring pair is separated once. */
  lemma {:induction false} JoinAppend(p: seq<string>, q: seq<string>, sep: string)
    requires |p| > 0 && |q| > 0
    ensures Join(p + q, sep) == Join(p, sep) + sep + Join(q, sep)
    decreases |p|
  {
    var pq := p + q;
    assert pq[0] == p[0];
    if |p| == 1 {
      assert pq[1..] == q;
    } else {
      assert pq[1..] == p[1..] + q;
      JoinAppend(p[1..], q, sep);
    }
  }

  /** A part between two lists of parts: the join of those before it and a separator,
      the part itself, then a separator and the join of those after it. */
  lemma JoinAround(before: seq<string>, x: string, after: seq<string>, sep: string)
    ensures Join(before + [x] + after, sep) ==
              (if |before| == 0 then "" else Join(before, sep) + sep) +
              (x + (if |after| == 0 then "" else sep + Join(after, sep)))
  {
    if |before| == 0 {
      assert before + [x] + after == [x] + after;
      JoinFirst(x, after, sep);
    } else {
      JoinAfter(before, x, after, sep);
    }
  }

  /** A first part is followed by a separator only when other parts follow. */
  lemma JoinFirst(x: string, after: seq<string>, sep: string)
    ensures Join([x] + after, sep) == x + (if |after| == 0 then "" else sep + Join(after, sep))
  {
    if |after| == 0 {
      assert [x] + after == [x];
    } else {
      assert ([x] + after)[1..] == after;
    }
  }

  /** A part after at least one other: the join of those before it, a separator, the
      part, and the rest as for a first part. */
  lemma JoinAfter(before: seq<string>, x: string, after: seq<string>, sep: string)
    requires |before| > 0
    ensures Join(before + [x] + after, sep) ==
              Join(before, sep) + sep + (x + (if |after| == 0 then "" else sep + Join(after, sep)))
  {
    assert before + [x] + after == before + ([x] + after);
    JoinAppend(before, [x] + after, sep);
    JoinFirst(x, after, sep);
  }

  // ---------------------------------------------------------------------------
  // String.prototype.split(sep)[0]

  /** `pat` occurs in `s` starting at index `k`. */
  predicate OccursAt(s: string, pat: string, k: int) {
    0 <= k && k + |pat| <= |s| && s[k..k + |pat|] == pat
  }

  /** `s.indexOf(pat, from)`: the first occurrence at or after `from`, or -1. */
  function IndexOf(s: string, pat: string, from: nat): (r: int)
    decreases |s| - from
    ensures r == -1 || (from <= r && OccursAt(s, pat, r))
    ensures r == -1 ==> forall k :: from <= k ==> !OccursAt(s, pat, k)
    ensures r != -1 ==> forall k :: from <= k < r ==> !OccursAt(s, pat, k)
  {
    if from + |pat| > |s| then -1
    else if s[from..from + |pat|] == pat then from
    else IndexOf(s, pat, from + 1)
  }

  /** `s.split(sep)[0]` for a non-empty separator: the text before the first
      occurrence of `sep`, or all of `s` when it has none. */
  function BeforeFirst(s: string, sep: string): (r: string)
    requires |sep| > 0
    ensures StartsWith(s, r)
    ensures (r == s && forall k :: !OccursAt(s, sep, k)) ||
            (OccursAt(s, sep, |r|) && forall k :: 0 <= k < |r| ==> !OccursAt(s, sep, k))
  {
    var k := IndexOf(s, sep, 0);
    if k == -1 then s else s[..k]
  }

  // ---------------------------------------------------------------------------
  // Integers as text: `${n}` and parseInt

  predicate IsDecimalDigit(c: char) {
    '0' <= c <= '9'
  }

  /** The value of `c` as a digit in bases up to 36, or 36 when it is no digit. */
  function DigitValue(c: char): (v: nat)
    ensures v <= 36
  {
    if '0' <= c <= '9' then c as int - '0' as int
    else if 'a' <= c <= 'z' then c as int - 'a' as int + 10
    else if 'A' <= c <= 'Z' then c as int - 'A' as int + 10
    else 36
  }

  function DecimalDigitChar(d: nat): (c: char)
    requires d < 10
    ensures IsDecimalDigit(c) && DigitValue(c) == d
  {
    ('0' as int + d) as char
  }

  /** The shortest decimal numeral of `n`. */
  function NatToDecimal(n: nat): (s: string)
    ensures |s| >= 1
    ensures forall i :: 0 <= i < |s| ==> IsDecimalDigit(s[i])
  {
    if n < 10 then [DecimalDigitChar(n)] else NatToDecimal(n / 10) + [DecimalDigitChar(n % 10)]
  }

  /** What a template literal `${n}` produces for an integer `n`. */
  function IntToString(n: int): string {
    if n < 0 then "-" + NatToDecimal(-n) else NatToDecimal(n)
  }

  /** StrWhiteSpaceChar of ECMAScript: the white space and line terminators that
      `parseInt` skips before the numeral. */
  predicate IsJsWhitespace(c: char) {
    c == '\t' || c == '\U{000B}' || c == '\U{000C}' || c == ' ' || c == '\U{00A0}' ||
    c == '\U{FEFF}' || c == '\n' || c == '\r' || c == '\U{2028}' || c == '\U{2029}' ||
    c == '\U{1680}' || ('\U{2000}' <= c <= '\U{200A}') || c == '\U{202F}' ||
    c == '\U{205F}' || c == '\U{3000}'
  }

  function TrimStart(s: string): (r: string)
    ensures |r| <= |s| && r == s[|s| - |r|..]
    ensures forall i :: 0 <= i < |s| - |r| ==> IsJsWhitespace(s[i])
    ensures |r| > 0 ==> !IsJsWhitespace(r[0])
  {
    if |s| > 0 && IsJsWhitespace(s[0]) then TrimStart(s[1..]) else s
  }

  /** Length of the longest prefix of `s` made of digits of base `radix`. */
  function DigitRun(s: string, radix: nat): (n: nat)
    ensures n <= |s|
    ensures forall i :: 0 <= i < n ==> DigitValue(s[i]) < radix
    ensures n < |s| ==> DigitValue(s[n]) >= radix
  {
    if |s| == 0 || DigitValue(s[0]) >= radix then 0 else 1 + DigitRun(s[1..], radix)
  }

  /** The value of a numeral in base `radix`, most significant digit first. */
  function NumeralValue(digits: string, radix: nat): nat {
    if |digits| == 0 then 0
    else NumeralValue(digits[..|digits| - 1], radix) * radix + DigitValue(digits[|digits| - 1])
  }

  /** `parseInt(s)` with no radix: skip leading white space, take an optional sign,
      then read the magnitude; `None` stands for NaN (no digit at all). */
  function ParseInt(s: string): Option<int> {
    var t := TrimStart(s);
    if |t| > 0 && t[0] == '-' then
      match ParseMagnitude(t[1..])
      case None => None
      case Some(v) => Some(-v)
    else if |t| > 0 && t[0] == '+' then ParseMagnitude(t[1..])
    else ParseMagnitude(t)
  }

  /** The unsigned part of `parseInt`: base 16 after a `0x`/`0X` prefix and base 10
      otherwise, up to the first character that is not a digit of that base. */
  function ParseMagnitude(u: string): Option<int> {
    var hex := |u| >= 2 && u[0] == '0' && (u[1] == 'x' || u[1] == 'X');
    var radix := if hex then 16 else 10;
    var body := if hex then u[2..] else u;
    var n := DigitRun(body, radix);
    if n == 0 then None else Some(NumeralValue(body[..n], radix))
  }

  lemma {:induction false} NumeralValueOfDecimal(n: nat)
    ensures NumeralValue(NatToDecimal(n), 10) == n
  {
    if n >= 10 {
      var s := NatToDecimal(n / 10);
      var t := s + [DecimalDigitChar(n % 10)];
      assert t[..|t| - 1] == s;
      NumeralValueOfDecimal(n / 10);
    }
  }

  lemma {:induction false} DigitRunStops(ds: string, rest: string)
    requires forall i :: 0 <= i < |ds| ==> IsDecimalDigit(ds[i])
    requires |rest| == 0 || !IsDecimalDigit(rest[0])
    ensures DigitRun(ds + rest, 10) == |ds|
  {
    if |ds| > 0 {
      assert (ds + rest)[1..] == ds[1..] + rest;
      DigitRunStops(ds[1..], rest);
    }
  }

  lemma {:induction false} MagnitudeOfDecimal(m: nat, rest: string)
    requires |rest| == 0 || (!IsDecimalDigit(rest[0]) && rest[0] != 'x' && rest[0] != 'X')
    ensures ParseMagnitude(NatToDecimal(m) + rest) == Some(m)
  {
    var ds := NatToDecimal(m);
    var u := ds + rest;
    // no hex prefix: the second character is a digit of ds or the first of rest
    assert |u| >= 2 ==> u[1] != 'x' && u[1] != 'X';
    DigitRunStops(ds, rest);
    assert u[..|ds|] == ds;
    NumeralValueOfDecimal(m);
  }

  lemma TrimStartKeeps(s: string)
    requires |s| > 0 && (s[0] == '-' || IsDecimalDigit(s[0]))
    ensures TrimStart(s) == s
  {
    assert !IsJsWhitespace(s[0]);
  }

  /** `parseInt` reads back the integer a template literal printed, whatever text
      follows it, as long as that text does not continue the numeral. */
  lemma {:induction false} ParseIntOfIntToString(n: int, rest: string)
    requires |rest| == 0 || (!IsDecimalDigit(rest[0]) && rest[0] != 'x' && rest[0] != 'X')
    ensures ParseInt(IntToString(n) + rest) == Some(n)
  {
    if n < 0 {
      ParseNegative(n, rest);
    } else {
      ParseNonNegative(n, rest);
    }
  }

  lemma {:induction false} ParseNonNegative(m: nat, rest: string)
    requires |rest| == 0 || (!IsDecimalDigit(rest[0]) && rest[0] != 'x' && rest[0] != 'X')
    ensures ParseInt(IntToString(m) + rest) == Some(m)
  {
    var ds := NatToDecimal(m);
    var u := ds + rest;
    assert IntToString(m) + rest == u;
    assert u[0] == ds[0];
    assert ParseInt(u) == ParseMagnitude(u) by { ParseUnsigned(u); }
    MagnitudeOfDecimal(m, rest);
  }

  lemma {:induction false} ParseNegative(n: int, rest: string)
    requires n < 0
    requires |rest| == 0 || (!IsDecimalDigit(rest[0]) && rest[0] != 'x' && rest[0] != 'X')
    ensures ParseInt(IntToString(n) + rest) == Some(n)
  {
    var m: nat := -n;
    var u := NatToDecimal(m) + rest;
    var s := "-" + u;
    assert IntToString(n) + rest == s;
    assert s[1..] == u;
    MagnitudeOfDecimal(m, rest);
    ParseMinus(s, m);
  }

  /** `parseInt` of a text that starts with a digit reads the magnitude directly. */
  lemma ParseUnsigned(s: string)
    requires |s| > 0 && IsDecimalDigit(s[0])
    ensures ParseInt(s) == ParseMagnitude(s)
  {
    TrimStartKeeps(s);
  }

  /** `parseInt` of a text that starts with a minus sign negates the magnitude after it. */
  lemma ParseMinus(s: string, v: int)
    requires |s| > 0 && s[0] == '-' && ParseMagnitude(s[1..]) == Some(v)
    ensures ParseInt(s) == Some(-v)
  {
    TrimStartKeeps(s);
  }

  /** The numeral the source builds for a window id reads back unchanged. */
  lemma ParseIntRoundTrip(n: int)
    ensures ParseInt(IntToString(n)) == Some(n)
  {
    ParseIntOfIntToString(n, "");
    assert IntToString(n) + "" == IntToString(n);
  }

  /** A string that does not start with white space, a sign or a digit parses to NaN. */
  lemma ParseIntRejects(s: string)
    requires |s| == 0 || (!IsDecimalDigit(s[0]) && !IsJsWhitespace(s[0]) && s[0] != '-' && s[0] != '+')
    ensures ParseInt(s) == None
  {
    assert TrimStart(s) == s;
    if |s| > 0 {
      assert DigitValue(s[0]) >= 10;
      assert DigitRun(s, 10) == 0;
    }
    assert ParseMagnitude(s) == None;
  }
}
