/** The Python string operations the modelled code relies on, with Python's
    semantics: `str.split` on one character, substring `in`, `startswith`,
    `strip`, `find`/`rfind`, slicing with negative indices, `int()`,
    `f"{n:02d}"` and the ordering `<=` of `str`.  Characters are Unicode
    scalar values; `int()` and `isdigit()` are restricted to ASCII digits. */
module Strings {
  import opened Common

  // ---------------------------------------------------------------------
  // Prefixes and substrings

  /** `s.startswith(p)` */
  predicate StartsWith(s: string, p: string) {
    |p| <= |s| && s[..|p|] == p
  }

  /** `sub in s`: `sub` occurs as a contiguous run of `s` */
  predicate Contains(s: string, sub: string)
    decreases |s|
  {
    StartsWith(s, sub) || (|s| > 0 && Contains(s[1..], sub))
  }

  lemma StartsWithIsContains(s: string, p: string)
    requires StartsWith(s, p)
    ensures Contains(s, p)
  {
  }

  lemma ContainsItself(s: string)
    ensures Contains(s, s)
  {
    assert s[..|s|] == s;
  }

  // ---------------------------------------------------------------------
  // str.split(sep) for a one-character separator, and its inverse

  /** `s.split(sep)`: the maximal runs of `s` between occurrences of `sep`;
      always at least one part (`"".split("|") == [""]`). */
  function Split(s: string, sep: char): (parts: seq<string>)
    ensures |parts| >= 1
    ensures forall p :: p in parts ==> sep !in p
    decreases |s|
  {
    if s == [] then [""]
    else
      var rest := Split(s[1..], sep);
      if s[0] == sep then [""] + rest
      else [[s[0]] + rest[0]] + rest[1..]
  }

  /** `sep.join(parts)` */
  function Join(parts: seq<string>, sep: char): string
    requires |parts| >= 1
    decreases |parts|
  {
    if |parts| == 1 then parts[0] else parts[0] + [sep] + Join(parts[1..], sep)
  }

  /** Splitting loses nothing: joining the parts back gives the input. */
  lemma {:induction false} JoinSplit(s: string, sep: char)
    ensures Join(Split(s, sep), sep) == s
    decreases |s|
  {
    if s != [] {
      var rest := Split(s[1..], sep);
      JoinSplit(s[1..], sep);
      if s[0] == sep {
        assert Split(s, sep)[1..] == rest;
      } else {
        var parts := Split(s, sep);
        if |rest| == 1 {
          assert parts == [[s[0]] + rest[0]];
        } else {
          assert parts[1..] == rest[1..];
          assert Join(rest, sep) == rest[0] + [sep] + Join(rest[1..], sep);
        }
      }
    }
  }

  lemma {:induction false} SplitWithoutSeparator(s: string, sep: char)
    requires sep !in s
    ensures Split(s, sep) == [s]
    decreases |s|
  {
    if s != [] {
      assert sep !in s[1..];
      SplitWithoutSeparator(s[1..], sep);
      assert [s[0]] + s[1..] == s;
    }
  }

  /** The first part ends at the first separator. */
  lemma {:induction false} SplitAtFirst(a: string, sep: char, b: string)
    requires sep !in a
    ensures Split(a + [sep] + b, sep) == [a] + Split(b, sep)
    decreases |a|
  {
    var s := a + [sep] + b;
    if a == [] {
      assert s[1..] == b;
    } else {
      assert s[1..] == a[1..] + [sep] + b;
      assert sep !in a[1..];
      SplitAtFirst(a[1..], sep, b);
      assert [a[0]] + a[1..] == a;
    }
  }

  /** Joining parts that do not contain the separator and splitting again
      gives the parts back. */
  lemma {:induction false} SplitJoin(parts: seq<string>, sep: char)
    requires |parts| >= 1 && forall k :: 0 <= k < |parts| ==> sep !in parts[k]
    ensures Split(Join(parts, sep), sep) == parts
    decreases |parts|
  {
    if |parts| == 1 {
      SplitWithoutSeparator(parts[0], sep);
    } else {
      SplitJoin(parts[1..], sep);
      SplitAtFirst(parts[0], sep, Join(parts[1..], sep));
    }
  }

  /** `s.replace(from, to)` for single characters */
  function ReplaceChar(s: string, from: char, to: char): (r: string)
    ensures |r| == |s|
    ensures from != to ==> from !in r
  {
    seq(|s|, i requires 0 <= i < |s| => if s[i] == from then to else s[i])
  }

  // ---------------------------------------------------------------------
  // str.strip()

  /** `c.isspace()`: exactly the characters Python treats as whitespace. */
  predicate IsSpace(c: char) {
    || ('\t' <= c <= '\r')
    || ('\U{1C}' <= c <= '\U{1F}')
    || c == ' ' || c == '\U{85}' || c == '\U{A0}' || c == '\U{1680}'
    || ('\U{2000}' <= c <= '\U{200A}')
    || c == '\U{2028}' || c == '\U{2029}' || c == '\U{202F}' || c == '\U{205F}'
    || c == '\U{3000}'
  }

  function StripLeft(s: string): (r: string)
    ensures |r| <= |s| && r == s[|s| - |r|..]
    ensures r == [] || !IsSpace(r[0])
    decreases |s|
  {
    if s != [] && IsSpace(s[0]) then StripLeft(s[1..]) else s
  }

  function StripRight(s: string): (r: string)
    ensures |r| <= |s| && r == s[..|r|]
    ensures r == [] || !IsSpace(r[|r| - 1])
    decreases |s|
  {
    if s != [] && IsSpace(s[|s| - 1]) then StripRight(s[..|s| - 1]) else s
  }

  /** `s.strip()`: no leading or trailing whitespace remains. */
  function Strip(s: string): (r: string)
    ensures |r| <= |s|
    ensures r == [] || (!IsSpace(r[0]) && !IsSpace(r[|r| - 1]))
    ensures forall c :: c in r ==> c in s
  {
    var l := StripLeft(s);
    var r := StripRight(l);
    assert r != [] ==> r[0] == l[0];
    assert forall c :: c in r ==> c in l;
    r
  }

  // ---------------------------------------------------------------------
  // Digits, int() and f"{n:02d}"

  predicate IsDigit(c: char) {
    '0' <= c <= '9'
  }

  /** `s.isdigit()` for ASCII input: non-empty and made of digits only. */
  predicate AllDigits(s: string) {
    |s| > 0 && forall i :: 0 <= i < |s| ==> IsDigit(s[i])
  }

  function DigitValue(c: char): nat
    requires IsDigit(c)
  {
    (c - '0') as nat
  }

  function DigitChar(d: nat): (c: char)
    requires d < 10
    ensures IsDigit(c) && DigitValue(c) == d
  {
    ('0' as int + d) as char
  }

  /** The number a string of decimal digits denotes. */
  function DigitsValue(s: string): nat
    requires forall i :: 0 <= i < |s| ==> IsDigit(s[i])
    decreases |s|
  {
    if s == [] then 0 else DigitsValue(s[..|s| - 1]) * 10 + DigitValue(s[|s| - 1])
  }

  /** `int(s)` on ASCII text: surrounding whitespace, an optional sign and at
      least one digit; `None` stands for the `ValueError`. */
  function ParseInt(s: string): (r: Option<int>)
  {
    var t := Strip(s);
    if |t| > 0 && (t[0] == '+' || t[0] == '-') then
      var d := t[1..];
      if AllDigits(d) then Some(if t[0] == '-' then -(DigitsValue(d) as int) else DigitsValue(d)) else None
    else if AllDigits(t) then Some(DigitsValue(t))
    else None
  }

  /** `str(n)` for a natural number */
  function Decimal(n: nat): (s: string)
    ensures AllDigits(s)
    decreases n
  {
    if n < 10 then [DigitChar(n)] else Decimal(n / 10) + [DigitChar(n % 10)]
  }

  /** Printing and reading back a number is the identity. */
  lemma {:induction false} DecimalRoundTrip(n: nat)
    ensures DigitsValue(Decimal(n)) == n
    decreases n
  {
    if n >= 10 {
      var s := Decimal(n);
      DecimalRoundTrip(n / 10);
      assert s[..|s| - 1] == Decimal(n / 10);
    }
  }

  /** `f"{n:0{w}d}"`: sign first, then zero-padded to width `w` overall. */
  function ZeroPad(n: int, w: nat): (s: string)
    ensures |s| >= w
  {
    var digits := if n >= 0 then Decimal(n) else Decimal(-n);
    var sign := if n >= 0 then "" else "-";
    var pad := if |sign| + |digits| < w then w - |sign| - |digits| else 0;
    sign + seq(pad, _ => '0') + digits
  }

  /** `int()` reads a run of digits as the number it denotes. */
  lemma ParseIntOfDigits(d: string)
    requires AllDigits(d)
    ensures ParseInt(d) == Some(DigitsValue(d))
  {
    assert !IsSpace(d[0]) && !IsSpace(d[|d| - 1]);
    assert StripLeft(d) == d;
    assert StripRight(d) == d;
  }

  lemma ZeroPadTwoDigits(a: nat, b: nat)
    requires a < 10 && b < 10
    ensures ZeroPad(a * 10 + b, 2) == [DigitChar(a), DigitChar(b)]
  {
    var v := a * 10 + b;
    if a == 0 {
      assert Decimal(v) == [DigitChar(b)];
      assert seq(1, _ => '0') == ['0'];
    } else {
      assert v / 10 == a && v % 10 == b;
      assert Decimal(v) == [DigitChar(a), DigitChar(b)];
      assert seq(0, _ => '0') == [];
    }
  }

  /** A two-digit field survives `int()` followed by `:02d` unchanged. */
  lemma TwoDigitsRoundTrip(d: string)
    requires |d| == 2 && AllDigits(d)
    ensures ParseInt(d) == Some(DigitsValue(d))
    ensures ZeroPad(DigitsValue(d), 2) == d
  {
    ParseIntOfDigits(d);
    TwoDigitsPad(d);
  }

  lemma TwoDigitsPad(d: string)
    requires |d| == 2 && AllDigits(d)
    ensures ZeroPad(DigitsValue(d), 2) == d
  {
    assert d[..1] == [d[0]] && d[..1][..0] == [];
    assert DigitsValue(d[..1]) == DigitValue(d[0]);
    ZeroPadTwoDigits(DigitValue(d[0]), DigitValue(d[1]));
    assert DigitChar(DigitValue(d[0])) == d[0] && DigitChar(DigitValue(d[1])) == d[1];
  }

  function Pow10(k: nat): (p: nat)
    ensures p >= 1
  {
    if k == 0 then 1 else 10 * Pow10(k - 1)
  }

  lemma {:induction false} DecimalLength(n: nat, k: nat)
    requires k >= 1 && n < Pow10(k)
    ensures |Decimal(n)| <= k
    decreases k
  {
    if n >= 10 {
      assert k >= 2;
      DecimalLength(n / 10, k - 1);
    }
  }

  /** A number below `10^w` is printed by `:0{w}d` as exactly `w` digits. */
  lemma ZeroPadDigits(n: nat, w: nat)
    requires w >= 1 && n < Pow10(w)
    ensures |ZeroPad(n, w)| == w && AllDigits(ZeroPad(n, w))
  {
    DecimalLength(n, w);
    var digits := Decimal(n);
    var zeros := seq(w - |digits|, _ => '0');
    assert ZeroPad(n, w) == zeros + digits;
    assert forall i :: 0 <= i < |zeros| ==> IsDigit(zeros[i]);
  }

  // ---------------------------------------------------------------------
  // find, rfind and slicing

  /** `s.find(c)`: the first index of `c`, or -1 */
  function FindFirst(s: string, c: char): (r: int)
    ensures -1 <= r < |s|
    ensures r == -1 <==> c !in s
    ensures r >= 0 ==> s[r] == c && c !in s[..r]
    decreases |s|
  {
    if s == [] then -1
    else if s[0] == c then 0
    else
      var k := FindFirst(s[1..], c);
      assert s[1..] == s[..|s|][1..];
      if k == -1 then -1 else (assert s[..k + 1] == [s[0]] + s[1..][..k]; k + 1)
  }

  /** `s.rfind(c)`: the last index of `c`, or -1 */
  function FindLast(s: string, c: char): (r: int)
    ensures -1 <= r < |s|
    ensures r == -1 <==> c !in s
    ensures r >= 0 ==> s[r] == c && c !in s[r + 1..]
    decreases |s|
  {
    if s == [] then -1
    else if s[|s| - 1] == c then |s| - 1
    else
      var k := FindLast(s[..|s| - 1], c);
      if k == -1 then -1 else (assert s[k + 1..] == s[..|s| - 1][k + 1..] + [s[|s| - 1]]; k)
  }

  /** A Python slice bound: negative values count from the end, then the
      result is clamped into `0..n`. */
  function SliceBound(i: int, n: nat): (k: nat)
    ensures k <= n
  {
    var j := if i < 0 then i + n else i;
    if j < 0 then 0 else if j > n then n else j
  }

  /** `s[i:j]` */
  function Slice(s: string, i: int, j: int): string {
    var a, b := SliceBound(i, |s|), SliceBound(j, |s|);
    if a >= b then [] else s[a..b]
  }

  // ---------------------------------------------------------------------
  // The ordering of str (code point by code point)

  /** `a <= b` on Python strings */
  predicate LessEq(a: string, b: string)
    decreases |a|
  {
    a == [] || (b != [] && (a[0] < b[0] || (a[0] == b[0] && LessEq(a[1..], b[1..]))))
  }

  lemma {:induction false} LessEqReflexive(a: string)
    ensures LessEq(a, a)
    decreases |a|
  {
    if a != [] {
      LessEqReflexive(a[1..]);
    }
  }

  lemma {:induction false} LessEqTotal(a: string, b: string)
    ensures LessEq(a, b) || LessEq(b, a)
    decreases |a|
  {
    if a != [] && b != [] && a[0] == b[0] {
      LessEqTotal(a[1..], b[1..]);
    }
  }

  lemma {:induction false} LessEqTransitive(a: string, b: string, c: string)
    requires LessEq(a, b) && LessEq(b, c)
    ensures LessEq(a, c)
    decreases |a|
  {
    if a != [] && a[0] == b[0] && b[0] == c[0] {
      LessEqTransitive(a[1..], b[1..], c[1..]);
    }
  }

  lemma {:induction false} LessEqAntisymmetric(a: string, b: string)
    requires LessEq(a, b) && LessEq(b, a)
    ensures a == b
    decreases |a|
  {
    if a != [] {
      LessEqAntisymmetric(a[1..], b[1..]);
      assert a == [a[0]] + a[1..] && b == [b[0]] + b[1..];
    }
  }
}
