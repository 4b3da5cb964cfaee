/**
 * The JavaScript string and number primitives the handlers rely on:
 * ASCII case mapping, substring search, `Number.prototype.toString`,
 * `String.prototype.padStart`, `parseInt(s, 10)`, `substring` and the
 * code-unit ordering that `<` on strings (and an `ORDER BY` on a text
 * column under the C collation) uses.
 */
module Text {

  // ---------------------------------------------------------------------
  // Case mapping (ASCII letters only)

  function LowerChar(c: char): char {
    if 'A' <= c <= 'Z' then (c as int + 32) as char else c
  }

  function UpperChar(c: char): char {
    if 'a' <= c <= 'z' then (c as int - 32) as char else c
  }

  /** `s.toLowerCase()` on ASCII text. */
  function Lower(s: string): (r: string)
    ensures |r| == |s|
    ensures forall i :: 0 <= i < |s| ==> r[i] == LowerChar(s[i])
  {
    if s == [] then [] else [LowerChar(s[0])] + Lower(s[1..])
  }

  /** `s.toUpperCase()` on ASCII text. */
  function Upper(s: string): (r: string)
    ensures |r| == |s|
    ensures forall i :: 0 <= i < |s| ==> r[i] == UpperChar(s[i])
  {
    if s == [] then [] else [UpperChar(s[0])] + Upper(s[1..])
  }

  // ---------------------------------------------------------------------
  // Substring search

  predicate OccursAt(hay: string, needle: string, i: nat) {
    i + |needle| <= |hay| && hay[i..i + |needle|] == needle
  }

  /** `hay.includes(needle)`. */
  predicate Contains(hay: string, needle: string) {
    exists i: nat | i <= |hay| :: OccursAt(hay, needle, i)
  }

  /** `hay.toLowerCase().includes(needle.toLowerCase())`, and the
      store's case-insensitive `contains` filter. */
  predicate ContainsIgnoreCase(hay: string, needle: string) {
    Contains(Lower(hay), Lower(needle))
  }

  lemma EmptyIsEverywhere(hay: string)
    ensures Contains(hay, "")
  {
    assert OccursAt(hay, "", 0);
  }

  lemma ContainsSelf(hay: string)
    ensures Contains(hay, hay)
  {
    assert OccursAt(hay, hay, 0);
  }

  // ---------------------------------------------------------------------
  // `JSON`-level slices

  /** `s.substring(i, j)`, with JavaScript's clamping of both ends to the
      string (the arguments used here are never negative and `i <= j`). */
  function Substring(s: string, i: nat, j: nat): (r: string)
    requires i <= j
    ensures |r| <= |s| && |r| <= j - i
    ensures i + |r| <= |s| || r == []
  {
    if i >= |s| then [] else if j >= |s| then s[i..] else s[i..j]
  }

  /** `s.substring(i)`: the rest of `s` from `i` on, empty past its end. */
  function SubstringFrom(s: string, i: nat): (r: string)
    ensures i <= |s| ==> r == s[i..]
    ensures i > |s| ==> r == []
  {
    if i >= |s| then [] else s[i..]
  }

  /** `s.replace(/<c>/g, "")`: every occurrence of `c` removed. */
  function Without(s: string, c: char): (r: string)
    ensures |r| <= |s|
    ensures forall i :: 0 <= i < |r| ==> r[i] != c
  {
    if s == [] then [] else (if s[0] == c then [] else [s[0]]) + Without(s[1..], c)
  }

  // ---------------------------------------------------------------------
  // Decimal digits

  predicate IsDigit(c: char) { '0' <= c <= '9' }

  predicate AllDigits(s: string) {
    forall i :: 0 <= i < |s| ==> IsDigit(s[i])
  }

  function DigitChar(d: nat): (c: char)
    requires d < 10
    ensures IsDigit(c)
  {
    ('0' as int + d) as char
  }

  function DigitValue(c: char): (d: nat)
    requires IsDigit(c)
    ensures d < 10 && DigitChar(d) == c
  {
    c as int - '0' as int
  }

  function Pow10(k: nat): (p: nat)
    ensures p >= 1
  {
    if k == 0 then 1 else 10 * Pow10(k - 1)
  }

  /** The decimal digits of `n`, most significant first, without leading
      zeros (`n.toString()` for a non-negative integer). */
  function Digits(n: nat): (r: string)
    ensures |r| >= 1 && AllDigits(r)
  {
    if n < 10 then [DigitChar(n)] else Digits(n / 10) + [DigitChar(n % 10)]
  }

  /** The number a string of digits denotes. */
  function Value(s: string): nat
    requires AllDigits(s)
  {
    if s == [] then 0 else Value(s[..|s| - 1]) * 10 + DigitValue(s[|s| - 1])
  }

  /** Digits(n) has no more than `w` characters when `n < 10^w`. */
  lemma {:induction false} DigitsFit(n: nat, w: nat)
    requires w >= 1 && n < Pow10(w)
    ensures |Digits(n)| <= w
  {
    if n >= 10 {
      assert Pow10(1) == 10;
      assert w >= 2;
      assert n / 10 < Pow10(w - 1);
      DigitsFit(n / 10, w - 1);
    }
  }

  /** Reading back the digits of `n` gives `n`. */
  lemma {:induction false} ValueOfDigits(n: nat)
    ensures Value(Digits(n)) == n
  {
    if n >= 10 {
      var d := Digits(n);
      assert d[..|d| - 1] == Digits(n / 10);
      ValueOfDigits(n / 10);
    }
  }

  function Repeat(c: char, k: nat): (r: string)
    ensures |r| == k && forall i :: 0 <= i < k ==> r[i] == c
  {
    seq(k, _ => c)
  }

  /** Leading zeros do not change the value. */
  lemma {:induction false} ValueIgnoresZeros(k: nat, s: string)
    requires AllDigits(s)
    ensures AllDigits(Repeat('0', k) + s)
    ensures Value(Repeat('0', k) + s) == Value(s)
  {
    var z := Repeat('0', k);
    if s == [] {
      assert z + s == z;
      ZerosAreZero(k);
    } else {
      var s' := s[..|s| - 1];
      assert (z + s)[..|z + s| - 1] == z + s';
      ValueIgnoresZeros(k, s');
    }
  }

  lemma {:induction false} ZerosAreZero(k: nat)
    ensures Value(Repeat('0', k)) == 0
  {
    if k > 0 {
      assert Repeat('0', k)[..k - 1] == Repeat('0', k - 1);
      ZerosAreZero(k - 1);
    }
  }

  lemma {:induction false} ValueInjective(s: string, t: string)
    requires AllDigits(s) && AllDigits(t) && |s| == |t|
    requires Value(s) == Value(t)
    ensures s == t
  {
    if s != [] {
      var s', t' := s[..|s| - 1], t[..|t| - 1];
      var x, y := DigitValue(s[|s| - 1]), DigitValue(t[|t| - 1]);
      assert Value(s) == Value(s') * 10 + x;
      assert Value(t) == Value(t') * 10 + y;
      assert x == y && Value(s') == Value(t');
      ValueInjective(s', t');
      assert s == s' + [s[|s| - 1]] && t == t' + [t[|t| - 1]];
    }
  }

  // ---------------------------------------------------------------------
  // `String.prototype.padStart`

  /** `s.padStart(width, fill)`: `fill` repeated in front of `s` up to
      `width` characters; a longer `s` is returned whole. */
  function PadStart(s: string, width: nat, fill: char): (r: string)
    ensures |r| == if |s| >= width then |s| else width
    ensures r[|r| - |s|..] == s
  {
    if |s| >= width then s else Repeat(fill, width - |s|) + s
  }

  /** Zero-padding a digit string keeps it a digit string of the same value. */
  lemma PaddedDigits(d: string, width: nat)
    requires AllDigits(d)
    ensures AllDigits(PadStart(d, width, '0'))
    ensures Value(PadStart(d, width, '0')) == Value(d)
  {
    if |d| < width {
      ValueIgnoresZeros(width - |d|, d);
    }
  }

  // ---------------------------------------------------------------------
  // JavaScript numbers restricted to integers, and `parseInt`

  datatype JsNumber = Finite(value: int) | NaN

  /** `x + 1` on a JavaScript number: NaN stays NaN. */
  function Succ(x: JsNumber): JsNumber {
    match x
    case Finite(v) => Finite(v + 1)
    case NaN => NaN
  }

  /** `x.toString()`. */
  function NumberToString(x: JsNumber): string {
    match x
    case NaN => "NaN"
    case Finite(v) => if v < 0 then "-" + Digits(-v) else Digits(v)
  }

  /** The longest prefix of `s` made of digits. */
  function LeadingDigits(s: string): (r: string)
    ensures |r| <= |s| && r == s[..|r|] && AllDigits(r)
    ensures |r| < |s| ==> !IsDigit(s[|r|])
  {
    if s == [] || !IsDigit(s[0]) then [] else [s[0]] + LeadingDigits(s[1..])
  }

  /** `parseInt(s, 10)`: an optional sign, then the longest run of digits;
      NaN when there is none. */
  function ParseInt(s: string): JsNumber {
    var negative := |s| > 0 && s[0] == '-';
    var rest := if |s| > 0 && (s[0] == '-' || s[0] == '+') then s[1..] else s;
    var ds := LeadingDigits(rest);
    if ds == [] then NaN
    else if negative then Finite(-(Value(ds) as int))
    else Finite(Value(ds))
  }

  lemma {:induction false} LeadingDigitsOfDigits(s: string)
    requires AllDigits(s)
    ensures LeadingDigits(s) == s
  {
    if s != [] {
      LeadingDigitsOfDigits(s[1..]);
    }
  }

  /** `parseInt` of a non-empty digit string is the number it denotes. */
  lemma ParseAllDigits(d: string)
    requires AllDigits(d) && d != []
    ensures ParseInt(d) == Finite(Value(d))
  {
    LeadingDigitsOfDigits(d);
  }

  /** `parseInt` reads back any zero-padded decimal rendering of `n`. */
  lemma ParsePadded(n: nat, width: nat)
    ensures ParseInt(PadStart(Digits(n), width, '0')) == Finite(n)
  {
    var d := Digits(n);
    var p := PadStart(d, width, '0');
    PaddedDigits(d, width);
    ParseAllDigits(p);
    ValueOfDigits(n);
  }

  // ---------------------------------------------------------------------
  // Code-unit lexicographic order

  /** `a < b` on JavaScript strings: a proper prefix is smaller, otherwise
      the first differing character decides. */
  predicate StrLess(a: string, b: string)
    decreases |a|
  {
    |b| > 0 && (|a| == 0 || a[0] < b[0] || (a[0] == b[0] && StrLess(a[1..], b[1..])))
  }

  lemma {:induction false} StrLessIrreflexive(a: string)
    ensures !StrLess(a, a)
  {
    if |a| > 0 {
      StrLessIrreflexive(a[1..]);
    }
  }

  lemma {:induction false} StrLessTransitive(a: string, b: string, c: string)
    requires StrLess(a, b) && StrLess(b, c)
    ensures StrLess(a, c)
  {
    if |a| > 0 && a[0] == b[0] && b[0] == c[0] {
      StrLessTransitive(a[1..], b[1..], c[1..]);
    }
  }

  lemma {:induction false} StrLessAsymmetric(a: string, b: string)
    requires StrLess(a, b)
    ensures !StrLess(b, a)
  {
    if StrLess(b, a) {
      StrLessTransitive(a, b, a);
      StrLessIrreflexive(a);
    }
  }

  /** Any two different strings are ordered one way or the other. */
  lemma {:induction false} StrLessTotal(a: string, b: string)
    requires a != b
    ensures StrLess(a, b) || StrLess(b, a)
  {
    if |a| > 0 && |b| > 0 && a[0] == b[0] {
      assert a == [a[0]] + a[1..] && b == [b[0]] + b[1..];
      StrLessTotal(a[1..], b[1..]);
    }
  }

  /** Comparing two equal-length strings extended by one character each. */
  lemma {:induction false} StrLessSnoc(s: string, t: string, x: char, y: char)
    requires |s| == |t|
    ensures StrLess(s + [x], t + [y]) <==> StrLess(s, t) || (s == t && x < y)
  {
    if |s| == 0 {
      assert (s + [x])[1..] == [] && (t + [y])[1..] == [];
      assert !StrLess([], []);
    } else {
      assert (s + [x])[1..] == s[1..] + [x];
      assert (t + [y])[1..] == t[1..] + [y];
      StrLessSnoc(s[1..], t[1..], x, y);
      assert s == t <==> s[0] == t[0] && s[1..] == t[1..] by {
        if s[0] == t[0] && s[1..] == t[1..] {
          assert s == [s[0]] + s[1..] && t == [t[0]] + t[1..];
        }
      }
    }
  }

  /** On digit strings of one length, string order is numeric order. */
  lemma {:induction false} StrLessIsNumericOrder(s: string, t: string)
    requires AllDigits(s) && AllDigits(t) && |s| == |t|
    ensures StrLess(s, t) <==> Value(s) < Value(t)
    decreases |s|
  {
    if s == [] {
      assert !StrLess(s, t);
    } else {
      var s', t' := s[..|s| - 1], t[..|t| - 1];
      var x, y := s[|s| - 1], t[|t| - 1];
      assert s == s' + [x] && t == t' + [y];
      StrLessSnoc(s', t', x, y);
      StrLessIsNumericOrder(s', t');
      if Value(s') == Value(t') {
        ValueInjective(s', t');
        StrLessIrreflexive(s');
      } else if Value(s') > Value(t') {
        StrLessIsNumericOrder(t', s');
        StrLessAsymmetric(t', s');
      }
    }
  }

  /** A common first character does not change the order. */
  lemma SameHeadOrder(c: char, a: string, b: string)
    ensures StrLess([c] + a, [c] + b) <==> StrLess(a, b)
  {
    assert ([c] + a)[1..] == a && ([c] + b)[1..] == b;
  }
}
