/**
 * The Python `str` operations the application relies on, over `string`
 * (a sequence of Unicode scalar values): `isspace`, `strip`/`lstrip`/`rstrip`,
 * `lower` (ASCII letters only), `startswith`, the `in` operator on strings,
 * `replace`, `split`/`join` on one separator character, `zfill`, `str(int)`
 * and `int(str)`.
 */
module PyStr {
  import opened Common

  /** Python's `str.isspace()` for one character. */
  predicate IsSpace(c: char) {
    || c == ' '
    || '\t' <= c <= '\r'
    || '\U{1c}' <= c <= '\U{1f}'
    || c == '\U{85}' || c == '\U{a0}' || c == '\U{1680}'
    || '\U{2000}' <= c <= '\U{200a}'
    || c == '\U{2028}' || c == '\U{2029}' || c == '\U{202f}' || c == '\U{205f}' || c == '\U{3000}'
  }

  /** No whitespace at either end: what `strip()` leaves. */
  predicate Trimmed(s: string) {
    s == [] || (!IsSpace(s[0]) && !IsSpace(s[|s| - 1]))
  }

  predicate AllSpace(s: string) {
    forall i :: 0 <= i < |s| ==> IsSpace(s[i])
  }

  /** `s.lstrip()`: a suffix of `s`; everything dropped is whitespace. */
  function LStrip(s: string): (r: string)
    ensures |r| <= |s| && r == s[|s| - |r|..]
    ensures r == [] || !IsSpace(r[0])
    ensures AllSpace(s[..|s| - |r|])
  {
    if s != [] && IsSpace(s[0]) then LStrip(s[1..]) else s
  }

  /** `s.rstrip()`: a prefix of `s`; everything dropped is whitespace. */
  function RStrip(s: string): (r: string)
    ensures |r| <= |s| && r == s[..|r|]
    ensures r == [] || !IsSpace(r[|r| - 1])
    ensures AllSpace(s[|r|..])
  {
    if s != [] && IsSpace(s[|s| - 1]) then RStrip(s[..|s| - 1]) else s
  }

  /** `s.strip()` */
  function Strip(s: string): (r: string)
    ensures Trimmed(r)
    ensures r == [] <==> AllSpace(s)
  {
    var l := LStrip(s);
    var r := RStrip(l);
    assert r == [] ==> AllSpace(s) by {
      if r == [] {
        assert s == s[..|s| - |l|] + l;
        assert AllSpace(l[|r|..]);
      }
    }
    r
  }

  /** Strip returns a contiguous piece of its input. */
  lemma StripSlice(s: string) returns (i: nat, j: nat)
    ensures i <= j <= |s| && Strip(s) == s[i..j]
  {
    var l := LStrip(s);
    i, j := |s| - |l|, |s| - |l| + |RStrip(l)|;
  }

  lemma StripTrimmed(s: string)
    requires Trimmed(s)
    ensures Strip(s) == s
  {
  }

  /** Python `str.lower()` on ASCII letters. */
  function LowerChar(c: char): char {
    if 'A' <= c <= 'Z' then (c as int - 'A' as int + 'a' as int) as char else c
  }

  function Lower(s: string): string {
    seq(|s|, i requires 0 <= i < |s| => LowerChar(s[i]))
  }

  predicate IsLower(s: string) {
    Lower(s) == s
  }

  /** Lower-casing leaves whitespace where it was, so it keeps a stripped string stripped. */
  lemma LowerKeepsTrimmed(s: string)
    requires Trimmed(s)
    ensures Trimmed(Lower(s)) && |Lower(s)| == |s|
  {
  }

  /** `s.startswith(prefix)` */
  predicate StartsWith(s: string, prefix: string) {
    |prefix| <= |s| && s[..|prefix|] == prefix
  }

  /** `sub in s` */
  predicate Contains(s: string, sub: string) {
    exists i :: 0 <= i <= |s| - |sub| && StartsWith(s[i..], sub)
  }

  lemma ContainsAt(s: string, sub: string, i: nat)
    requires i + |sub| <= |s| && s[i..i + |sub|] == sub
    ensures Contains(s, sub)
  {
    assert StartsWith(s[i..], sub);
  }

  lemma ContainsPrefix(s: string, sub: string)
    ensures StartsWith(s, sub) ==> Contains(s, sub)
  {
    assert s[0..] == s;
  }

  /** A match inside a piece of `s` is a match in `s`. */
  lemma ContainsSlice(s: string, sub: string, i: nat, j: nat)
    requires i <= j <= |s|
    ensures Contains(s[i..j], sub) ==> Contains(s, sub)
  {
    if !Contains(s[i..j], sub) {
      return;
    }
    var k :| 0 <= k <= |s[i..j]| - |sub| && StartsWith(s[i..j][k..], sub);
    assert s[i + k..][..|sub|] == s[i..j][k..][..|sub|];
    assert StartsWith(s[i + k..], sub);
  }

  /** A match in `[c] + t` is at the front or inside `t`. */
  lemma ContainsCons(c: char, t: string, sub: string)
    ensures Contains([c] + t, sub) ==> StartsWith([c] + t, sub) || Contains(t, sub)
  {
    var s := [c] + t;
    if Contains(s, sub) {
      var k :| 0 <= k <= |s| - |sub| && StartsWith(s[k..], sub);
      if k > 0 {
        assert s[k..] == t[k - 1..];
      }
    }
  }

  lemma ContainsAppend(a: string, b: string, sub: string)
    requires Contains(a, sub) || Contains(b, sub)
    ensures Contains(a + b, sub)
  {
    var s := a + b;
    if Contains(a, sub) {
      assert s[..|a|] == a;
      ContainsSlice(s, sub, 0, |a|);
    } else {
      assert s[|a|..|s|] == b;
      ContainsSlice(s, sub, |a|, |s|);
    }
  }

  /** `s.replace(pat, rep)`: every non-overlapping occurrence, scanning left to right. */
  function ReplaceAll(s: string, pat: string, rep: string): string
    requires pat != []
    decreases |s|
  {
    if |s| < |pat| then s
    else if StartsWith(s, pat) then rep + ReplaceAll(s[|pat|..], pat, rep)
    else [s[0]] + ReplaceAll(s[1..], pat, rep)
  }

  /** Replacing a pattern that does not occur changes nothing. */
  lemma {:induction false} ReplaceAbsent(s: string, pat: string, rep: string)
    requires pat != [] && !Contains(s, pat)
    ensures ReplaceAll(s, pat, rep) == s
    decreases |s|
  {
    if |s| >= |pat| {
      ContainsPrefix(s, pat);
      ContainsSlice(s, pat, 1, |s|);
      assert s[1..|s|] == s[1..];
      ReplaceAbsent(s[1..], pat, rep);
    }
  }

  /** `s.split(sep)` for a one-character separator. */
  function Split(s: string, sep: char): (parts: seq<string>)
    ensures |parts| >= 1
    ensures forall k :: 0 <= k < |parts| ==> sep !in parts[k]
    decreases |s|
  {
    if s == [] then [[]]
    else
      var rest := Split(s[1..], sep);
      if s[0] == sep then [[]] + rest else [[s[0]] + rest[0]] + rest[1..]
  }

  /** `sep.join(parts)` for a one-character separator. */
  function Join(parts: seq<string>, sep: char): string
    decreases |parts|
  {
    if parts == [] then []
    else if |parts| == 1 then parts[0]
    else parts[0] + [sep] + Join(parts[1..], sep)
  }

  lemma {:induction false} SplitPiece(p: string, sep: char)
    requires sep !in p
    ensures Split(p, sep) == [p]
    decreases |p|
  {
    if p != [] {
      SplitPiece(p[1..], sep);
      assert [p[0]] + p[1..] == p;
    }
  }

  lemma {:induction false} SplitFirst(p: string, t: string, sep: char)
    requires sep !in p
    ensures Split(p + [sep] + t, sep) == [p] + Split(t, sep)
    decreases |p|
  {
    var s := p + [sep] + t;
    if p == [] {
      assert s[1..] == t;
    } else {
      assert s[1..] == p[1..] + [sep] + t;
      SplitFirst(p[1..], t, sep);
      assert [p[0]] + p[1..] == p;
    }
  }

  /** Splitting a join on the same separator gives the pieces back. */
  lemma {:induction false} SplitJoin(parts: seq<string>, sep: char)
    requires parts != []
    requires forall k :: 0 <= k < |parts| ==> sep !in parts[k]
    ensures Split(Join(parts, sep), sep) == parts
    decreases |parts|
  {
    if |parts| == 1 {
      SplitPiece(parts[0], sep);
    } else {
      SplitJoin(parts[1..], sep);
      SplitFirst(parts[0], Join(parts[1..], sep), sep);
      assert [parts[0]] + parts[1..] == parts;
    }
  }

  /** Joining the pieces of a split on the same separator gives the text back. */
  lemma {:induction false} JoinSplit(s: string, sep: char)
    ensures Join(Split(s, sep), sep) == s
    decreases |s|
  {
    if s != [] {
      var rest := Split(s[1..], sep);
      JoinSplit(s[1..], sep);
      if s[0] != sep && |rest| > 1 {
        assert Join(rest, sep) == rest[0] + [sep] + Join(rest[1..], sep);
        assert ([[s[0]] + rest[0]] + rest[1..])[1..] == rest[1..];
      }
      assert s == [s[0]] + s[1..];
    }
  }

  /** A separator in the text splits it into at least two pieces. */
  lemma {:induction false} SplitAtSeparator(s: string, sep: char)
    ensures sep in s ==> |Split(s, sep)| >= 2
    decreases |s|
  {
    if s != [] && s[0] != sep {
      assert sep in s ==> sep in s[1..] by {
        if sep in s {
          var i :| 0 <= i < |s| && s[i] == sep;
          assert s[1..][i - 1] == sep;
        }
      }
      SplitAtSeparator(s[1..], sep);
    }
  }

  /**
   * With a separator present, `s` is the first piece (which has no separator),
   * the separator, and the remaining pieces joined back.
   */
  lemma SplitFirstSeparator(s: string, sep: char)
    requires sep in s
    ensures var parts := Split(s, sep);
            |parts| >= 2 && sep !in parts[0] && s == parts[0] + [sep] + Join(parts[1..], sep)
  {
    SplitAtSeparator(s, sep);
    JoinSplit(s, sep);
  }

  /** `'0' * k` */
  function Zeros(k: nat): string {
    seq(k, _ => '0')
  }

  /** `s.zfill(width)`: pad with zeros on the left, after a leading sign if there is one. */
  function ZFill(s: string, width: nat): string {
    if |s| >= width then s
    else if s != [] && (s[0] == '+' || s[0] == '-') then [s[0]] + Zeros(width - |s|) + s[1..]
    else Zeros(width - |s|) + s
  }

  predicate IsDigit(c: char) {
    '0' <= c <= '9'
  }

  predicate AllDigits(s: string) {
    forall i :: 0 <= i < |s| ==> IsDigit(s[i])
  }

  function DigitChar(d: nat): (c: char)
    requires d < 10
    ensures IsDigit(c) && c as int - '0' as int == d
  {
    ('0' as int + d) as char
  }

  /** `str(n)` for a natural number. */
  function NatToDecimal(n: nat): (s: string)
    ensures s != [] && AllDigits(s)
  {
    if n < 10 then [DigitChar(n)] else NatToDecimal(n / 10) + [DigitChar(n % 10)]
  }

  /** `str(n)` */
  function Decimal(n: int): string {
    if n < 0 then "-" + NatToDecimal(-n) else NatToDecimal(n)
  }

  /** The value of a string of decimal digits. */
  function DigitsValue(s: string): nat
    requires AllDigits(s)
  {
    if s == [] then 0 else DigitsValue(s[..|s| - 1]) * 10 + (s[|s| - 1] as int - '0' as int)
  }

  /** `int(s)` for decimal text: surrounding whitespace, an optional sign, then at least one digit. */
  function ParseInt(s: string): Option<int> {
    var t := Strip(s);
    if t != [] && (t[0] == '+' || t[0] == '-') then
      var body := t[1..];
      if body != [] && AllDigits(body) then
        Some(if t[0] == '-' then -(DigitsValue(body) as int) else DigitsValue(body))
      else None
    else if t != [] && AllDigits(t) then Some(DigitsValue(t))
    else None
  }

  lemma {:induction false} DigitsOfDecimal(n: nat)
    ensures DigitsValue(NatToDecimal(n)) == n
  {
    if n >= 10 {
      DigitsOfDecimal(n / 10);
      var s := NatToDecimal(n);
      assert s[..|s| - 1] == NatToDecimal(n / 10);
    }
  }

  /** `int(str(n)) == n` */
  lemma ParseDecimal(n: int)
    ensures ParseInt(Decimal(n)) == Some(n)
  {
    var d := Decimal(n);
    if n < 0 {
      DigitsOfDecimal(-n);
      assert d[1..] == NatToDecimal(-n);
    } else {
      DigitsOfDecimal(n);
    }
    StripTrimmed(d);
  }
}
