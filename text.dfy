/** The string operations the worker and the sidecar use, each defined once
    over `string` (= `seq<char>`): JavaScript's `startsWith`, `endsWith`,
    `replace` with a string pattern, `split`, `parseInt(_, 10)` and
    `Number.prototype.toString`, and Python's `str.strip`, `str.split` and
    `str.lower`, and the text of a boolean. */
module Text {
  import opened Wrappers

  /** A boolean as text: JavaScript's `String(b)` and Python's
      `str(b).lower()` both give "true" or "false". */
  function BoolText(b: bool): string {
    if b then "true" else "false"
  }

  predicate StartsWith(s: string, p: string) {
    |p| <= |s| && s[..|p|] == p
  }

  predicate EndsWith(s: string, p: string) {
    |p| <= |s| && s[|s| - |p|..] == p
  }

  /** `p` occurs in `s` starting at index `i`. */
  predicate OccursAt(s: string, p: string, i: int) {
    0 <= i && i + |p| <= |s| && s[i..i + |p|] == p
  }

  /** The least index at or after `k` where `p` occurs in `s`, if any. */
  function IndexOfFrom(s: string, p: string, k: nat): (r: Option<nat>)
    decreases |s| - k
    ensures r.Some? ==> k <= r.value && OccursAt(s, p, r.value)
    ensures r.Some? ==> forall j :: k <= j < r.value ==> !OccursAt(s, p, j)
    ensures r.None? ==> forall j :: k <= j ==> !OccursAt(s, p, j)
  {
    if k + |p| > |s| then None
    else if s[k..k + |p|] == p then Some(k)
    else IndexOfFrom(s, p, k + 1)
  }

  /** JavaScript `s.indexOf(p)`, with `None` for -1. */
  function IndexOf(s: string, p: string): Option<nat> {
    IndexOfFrom(s, p, 0)
  }

  /** JavaScript `s.replace(pat, rep)` with a string pattern: only the first
      occurrence of `pat` is replaced; without one, `s` comes back unchanged. */
  function ReplaceFirst(s: string, pat: string, rep: string): (r: string)
    ensures (forall i :: !OccursAt(s, pat, i)) ==> r == s
    ensures forall i :: OccursAt(s, pat, i) && (forall j :: 0 <= j < i ==> !OccursAt(s, pat, j)) ==>
              r == s[..i] + rep + s[i + |pat|..]
  {
    match IndexOf(s, pat)
    case None => s
    case Some(i) => s[..i] + rep + s[i + |pat|..]
  }

  /** `parts.join(sep)` for a non-empty list of parts. */
  function Join(parts: seq<string>, sep: char): string
    requires |parts| >= 1
  {
    if |parts| == 1 then parts[0] else parts[0] + [sep] + Join(parts[1..], sep)
  }

  /** `s.split(sep)` for a one-character separator, in both languages: the
      pieces between separators, in order, with empty pieces kept. */
  function Split(s: string, sep: char): (parts: seq<string>)
    ensures |parts| >= 1
    ensures forall k :: 0 <= k < |parts| ==> sep !in parts[k]
    ensures Join(parts, sep) == s
  {
    if |s| == 0 then [""]
    else
      var rest := Split(s[1..], sep);
      assert s == [s[0]] + s[1..];
      if s[0] == sep then
        assert ([""] + rest)[1..] == rest;
        [""] + rest
      else
        var parts := [[s[0]] + rest[0]] + rest[1..];
        assert parts[1..] == rest[1..];
        parts
  }

  /** Splitting a string without the separator gives the string itself. */
  lemma {:induction false} SplitWithoutSep(a: string, sep: char)
    requires sep !in a
    ensures Split(a, sep) == [a]
  {
    if |a| > 0 {
      assert sep !in a[1..];
      SplitWithoutSep(a[1..], sep);
      assert [a[0]] + a[1..] == a;
    }
  }

  /** A piece free of the separator, then the separator, splits off first. */
  lemma {:induction false} SplitCons(a: string, sep: char, t: string)
    requires sep !in a
    ensures Split(a + [sep] + t, sep) == [a] + Split(t, sep)
  {
    var s := a + [sep] + t;
    if |a| == 0 {
      assert s[1..] == t;
    } else {
      assert s[1..] == a[1..] + [sep] + t;
      assert sep !in a[1..];
      SplitCons(a[1..], sep, t);
      assert [s[0]] + a[1..] == a;
    }
  }

  /** Split undoes Join when no piece holds the separator. */
  lemma {:induction false} SplitOfJoin(parts: seq<string>, sep: char)
    requires |parts| >= 1
    requires forall k :: 0 <= k < |parts| ==> sep !in parts[k]
    ensures Split(Join(parts, sep), sep) == parts
  {
    if |parts| == 1 {
      SplitWithoutSep(parts[0], sep);
    } else {
      SplitOfJoin(parts[1..], sep);
      SplitCons(parts[0], sep, Join(parts[1..], sep));
      assert [parts[0]] + parts[1..] == parts;
    }
  }

  /** There is more than one piece exactly when the separator occurs. */
  lemma SplitHasManyIff(s: string, sep: char)
    ensures |Split(s, sep)| > 1 <==> sep in s
  {
    var parts := Split(s, sep);
    if |parts| > 1 {
      assert s == parts[0] + [sep] + Join(parts[1..], sep);
      assert s[|parts[0]|] == sep;
    }
  }

  /** The first piece is the prefix before the first separator: it has no
      separator, and the separator (if any) follows it. */
  lemma SplitFirst(s: string, sep: char)
    ensures var parts := Split(s, sep);
      sep !in parts[0] &&
      (sep !in s ==> parts[0] == s) &&
      (sep in s ==> |parts| > 1 && s == parts[0] + [sep] + Join(parts[1..], sep))
  {
    SplitHasManyIff(s, sep);
  }

  /** Joining one more piece appends the separator and the piece. */
  lemma {:induction false} JoinSnoc(parts: seq<string>, q: string, sep: char)
    requires |parts| >= 1
    ensures Join(parts + [q], sep) == Join(parts, sep) + [sep] + q
  {
    if |parts| == 1 {
      assert (parts + [q])[1..] == [q];
    } else {
      assert (parts + [q])[1..] == parts[1..] + [q];
      JoinSnoc(parts[1..], q, sep);
    }
  }

  /** The last piece is the suffix after the last separator. */
  lemma SplitLast(s: string, sep: char)
    ensures var parts := Split(s, sep);
      var last := parts[|parts| - 1];
      sep !in last &&
      (sep !in s ==> last == s) &&
      (sep in s ==> |parts| > 1 && s == Join(parts[..|parts| - 1], sep) + [sep] + last)
  {
    var parts := Split(s, sep);
    SplitHasManyIff(s, sep);
    if |parts| > 1 {
      JoinSnoc(parts[..|parts| - 1], parts[|parts| - 1], sep);
      assert parts[..|parts| - 1] + [parts[|parts| - 1]] == parts;
    }
  }

  /** Drop leading characters satisfying `isSpace`. */
  function TrimStart(s: string, isSpace: char -> bool): (r: string)
    ensures |r| <= |s| && r == s[|s| - |r|..]
    ensures r == [] || !isSpace(r[0])
    ensures forall k :: 0 <= k < |s| - |r| ==> isSpace(s[k])
  {
    if |s| > 0 && isSpace(s[0]) then
      var r := TrimStart(s[1..], isSpace);
      assert forall k :: 1 <= k < |s| - |r| ==> s[k] == s[1..][k - 1];
      r
    else s
  }

  /** Drop trailing characters satisfying `isSpace`. */
  function TrimEnd(s: string, isSpace: char -> bool): (r: string)
    ensures |r| <= |s| && r == s[..|r|]
    ensures r == [] || !isSpace(r[|r| - 1])
    ensures forall k :: |r| <= k < |s| ==> isSpace(s[k])
  {
    if |s| > 0 && isSpace(s[|s| - 1]) then
      var r := TrimEnd(s[..|s| - 1], isSpace);
      assert forall k :: |r| <= k < |s| - 1 ==> s[k] == s[..|s| - 1][k];
      r
    else s
  }

  /** Python's `str.isspace` for one character. */
  predicate IsPySpace(ch: char) {
    var n := ch as int;
    (9 <= n <= 13) || (28 <= n <= 32) || n == 0x85 || n == 0xA0 || n == 0x1680 ||
    (0x2000 <= n <= 0x200A) || n == 0x2028 || n == 0x2029 || n == 0x202F ||
    n == 0x205F || n == 0x3000
  }

  /** Python's `s.strip()`. */
  function Strip(s: string): string {
    TrimEnd(TrimStart(s, IsPySpace), IsPySpace)
  }

  /** JavaScript's white space and line terminators, which `parseInt` skips. */
  predicate IsJsSpace(ch: char) {
    var n := ch as int;
    (9 <= n <= 13) || n == 32 || n == 0xA0 || n == 0x1680 ||
    (0x2000 <= n <= 0x200A) || n == 0x2028 || n == 0x2029 || n == 0x202F ||
    n == 0x205F || n == 0x3000 || n == 0xFEFF
  }

  predicate IsDigit(ch: char) {
    '0' <= ch <= '9'
  }

  predicate AllDigits(s: string) {
    forall k :: 0 <= k < |s| ==> IsDigit(s[k])
  }

  /** The longest prefix of `s` made of decimal digits. */
  function DigitPrefix(s: string): (r: string)
    ensures |r| <= |s| && r == s[..|r|] && AllDigits(r)
    ensures |r| == |s| || !IsDigit(s[|r|])
    ensures AllDigits(s) ==> r == s
  {
    if |s| > 0 && IsDigit(s[0]) then
      assert [s[0]] + s[1..] == s;
      [s[0]] + DigitPrefix(s[1..])
    else []
  }

  /** The number a string of decimal digits denotes. */
  function DigitsValue(ds: string): nat
    requires AllDigits(ds)
  {
    if ds == [] then 0
    else DigitsValue(ds[..|ds| - 1]) * 10 + (ds[|ds| - 1] as int - '0' as int)
  }

  function DigitChar(d: nat): (c: char)
    requires d < 10
    ensures IsDigit(c) && c as int - '0' as int == d
  {
    (d + '0' as int) as char
  }

  /** Decimal rendering of a natural number, as `Number.prototype.toString`
      gives it for an integral value. */
  function NatToString(n: nat): (r: string)
    ensures |r| >= 1 && AllDigits(r) && DigitsValue(r) == n
  {
    if n < 10 then [DigitChar(n)]
    else
      var r := NatToString(n / 10) + [DigitChar(n % 10)];
      assert r[..|r| - 1] == NatToString(n / 10);
      r
  }

  /** `n.toString()` for an integer `n`. */
  function IntToString(n: int): string {
    if n < 0 then "-" + NatToString(-n) else NatToString(n)
  }

  /** `parseInt(s, 10)`: skip leading white space, take an optional sign and
      the longest run of digits after it; `None` stands for NaN (no digit). */
  function ParseInt(s: string): Option<int> {
    ParseSigned(TrimStart(s, IsJsSpace))
  }

  /** `parseInt` once the leading white space is gone. */
  function ParseSigned(t: string): Option<int> {
    var signed := |t| > 0 && (t[0] == '-' || t[0] == '+');
    var u := if signed then t[1..] else t;
    var ds := DigitPrefix(u);
    var magnitude: int := DigitsValue(ds);
    if ds == [] then None
    else if signed && t[0] == '-' then Some(-magnitude)
    else Some(magnitude)
  }

  /** Reading back the decimal rendering of an integer gives the integer. */
  lemma ParseIntOfIntToString(n: int)
    ensures ParseInt(IntToString(n)) == Some(n)
  {
    ParseIntIgnoresTrailer(n, []);
    assert IntToString(n) + [] == IntToString(n);
  }


  /** A run of digits followed by anything that is not a digit: the run is
      the longest digit prefix. */
  lemma {:induction false} DigitPrefixStopsAt(ds: string, rest: string)
    requires AllDigits(ds) && (rest == [] || !IsDigit(rest[0]))
    ensures DigitPrefix(ds + rest) == ds
  {
    if ds != [] {
      assert (ds + rest)[1..] == ds[1..] + rest;
      DigitPrefixStopsAt(ds[1..], rest);
      assert ds == [ds[0]] + ds[1..];
    }
  }

  /** `parseInt` stops at the first character that is not a digit, so an
      integer's text followed by a fraction or a unit reads as the integer:
      "1500.5" and "1500ms" both read as 1500. */
  lemma ParseIntIgnoresTrailer(n: int, rest: string)
    requires rest == [] || !IsDigit(rest[0])
    ensures ParseInt(IntToString(n) + rest) == Some(n)
  {
    if n < 0 {
      NegativeTrailer(n, rest);
    } else {
      NaturalTrailer(n, rest);
    }
  }

  lemma NaturalTrailer(n: nat, rest: string)
    requires rest == [] || !IsDigit(rest[0])
    ensures ParseInt(IntToString(n) + rest) == Some(n)
  {
    var d := NatToString(n);
    var u := d + rest;
    assert IntToString(n) + rest == u;
    assert ParseInt(u) == ParseSigned(u) by {
      assert !IsJsSpace(u[0]);
      TrimStartStops(u, IsJsSpace);
    }
    assert ParseSigned(u) == Some(n) by {
      DigitPrefixStopsAt(d, rest);
      ParseSignedOfDigits(u);
    }
  }

  lemma NegativeTrailer(n: int, rest: string)
    requires n < 0 && (rest == [] || !IsDigit(rest[0]))
    ensures ParseInt(IntToString(n) + rest) == Some(n)
  {
    var d := NatToString(-n);
    var u := d + rest;
    var s := "-" + u;
    assert IntToString(n) + rest == s;
    assert ParseInt(s) == ParseSigned(s) by {
      assert !IsJsSpace(s[0]);
      TrimStartStops(s, IsJsSpace);
    }
    assert ParseSigned(s) == Some(n) by {
      DigitPrefixStopsAt(d, rest);
      ParseSignedOfMinus(u);
    }
  }

  lemma ParseSignedOfDigits(u: string)
    requires u != [] && IsDigit(u[0])
    ensures ParseSigned(u) == Some(DigitsValue(DigitPrefix(u)))
  {
    assert DigitPrefix(u) != [];
  }

  lemma ParseSignedOfMinus(u: string)
    requires u != [] && IsDigit(u[0])
    ensures ParseSigned("-" + u) == Some(-(DigitsValue(DigitPrefix(u)) as int))
  {
    var t := "-" + u;
    assert t[0] == '-' && t[1..] == u;
    assert DigitPrefix(u) != [];
  }

  lemma TrimStartStops(s: string, isSpace: char -> bool)
    requires s != [] && !isSpace(s[0])
    ensures TrimStart(s, isSpace) == s
  {
  }

  /** ASCII lower-casing of one character. */
  function LowerChar(ch: char): char {
    if 'A' <= ch <= 'Z' then (ch as int + 32) as char else ch
  }

  /** Python's `s.lower()` on ASCII text. */
  function LowerAscii(s: string): (r: string)
    ensures |r| == |s| && forall k :: 0 <= k < |s| ==> r[k] == LowerChar(s[k])
  {
    seq(|s|, k requires 0 <= k < |s| => LowerChar(s[k]))
  }
}
