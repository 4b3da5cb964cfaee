/**
 * The backend's identifier helpers: `generateId`, which renders a
 * sequential product id such as `P000001`, and `generateSKU`, which builds
 * `CATEGORY-YYYYMMDD-RANDOM` codes and retries until the code is unused.
 */
module Utils {
  import opened Text

  // ---------------------------------------------------------------------
  // generateId

  /** `generateId(prefix, number)`: the prefix, then the number's decimal
      rendering left-padded with '0' to at least six characters. */
  function GenerateId(prefix: string, number: JsNumber): string {
    prefix + PadStart(NumberToString(number), 6, '0')
  }

  /** The rendering never truncates: the id is `prefix`, then zeros up to
      six characters, then all of `n`'s digits. */
  lemma GenerateIdShape(prefix: string, n: nat)
    ensures |GenerateId(prefix, Finite(n))| == |prefix| + (if |Digits(n)| >= 6 then |Digits(n)| else 6)
    ensures GenerateId(prefix, Finite(n))[..|prefix|] == prefix
    ensures GenerateId(prefix, Finite(n))[|prefix|..] == PadStart(Digits(n), 6, '0')
    ensures AllDigits(GenerateId(prefix, Finite(n))[|prefix|..])
    ensures PadStart(Digits(n), 6, '0')[|PadStart(Digits(n), 6, '0')| - |Digits(n)|..] == Digits(n)
  {
    var pad := PadStart(Digits(n), 6, '0');
    assert NumberToString(Finite(n)) == Digits(n);
    assert GenerateId(prefix, Finite(n)) == prefix + pad;
    PaddedDigits(Digits(n), 6);
  }

  /** With a one-character prefix, `parseInt(id.substring(1), 10)` gives the
      number back. */
  lemma GenerateIdRoundTrip(c: char, n: nat)
    ensures ParseInt(Substring(GenerateId([c], Finite(n)), 1, |GenerateId([c], Finite(n))|)) == Finite(n)
  {
    var id := GenerateId([c], Finite(n));
    assert Substring(id, 1, |id|) == PadStart(Digits(n), 6, '0');
    ParsePadded(n, 6);
  }

  /** Below a million, every id is the prefix and exactly six digits. */
  lemma SixDigits(n: nat)
    requires n < 1000000
    ensures |PadStart(Digits(n), 6, '0')| == 6
    ensures AllDigits(PadStart(Digits(n), 6, '0'))
    ensures Value(PadStart(Digits(n), 6, '0')) == n
  {
    assert Pow10(6) == 1000000;
    DigitsFit(n, 6);
    PaddedDigits(Digits(n), 6);
    ValueOfDigits(n);
  }

  lemma {:induction false} CommonPrefixOrder(p: string, a: string, b: string)
    ensures StrLess(p + a, p + b) <==> StrLess(a, b)
  {
    if p != [] {
      assert p + a == [p[0]] + (p[1..] + a);
      assert p + b == [p[0]] + (p[1..] + b);
      SameHeadOrder(p[0], p[1..] + a, p[1..] + b);
      CommonPrefixOrder(p[1..], a, b);
    } else {
      assert p + a == a && p + b == b;
    }
  }

  /** For numbers below a million, ids compare as strings exactly as the
      numbers compare: the store's descending id order is numeric order. */
  lemma GenerateIdOrder(prefix: string, n: nat, m: nat)
    requires n < 1000000 && m < 1000000
    ensures StrLess(GenerateId(prefix, Finite(n)), GenerateId(prefix, Finite(m))) <==> n < m
  {
    SixDigits(n);
    SixDigits(m);
    CommonPrefixOrder(prefix, PadStart(Digits(n), 6, '0'), PadStart(Digits(m), 6, '0'));
    StrLessIsNumericOrder(PadStart(Digits(n), 6, '0'), PadStart(Digits(m), 6, '0'));
  }

  // ---------------------------------------------------------------------
  // generateSKU

  predicate IsUpperLetter(c: char) { 'A' <= c <= 'Z' }

  /** `s.replace(/[^A-Z]/g, "")`. */
  function KeepUpperLetters(s: string): (r: string)
    ensures |r| <= |s|
    ensures forall i :: 0 <= i < |r| ==> IsUpperLetter(r[i])
  {
    if s == [] then []
    else (if IsUpperLetter(s[0]) then [s[0]] else []) + KeepUpperLetters(s[1..])
  }

  /** The category part of a SKU: the first three characters of the
      category, upper-cased, keeping only the letters A to Z. */
  function CategoryPrefix(category: string): (r: string)
    ensures |r| <= 3
    ensures forall i :: 0 <= i < |r| ==> IsUpperLetter(r[i])
  {
    KeepUpperLetters(Upper(Substring(category, 0, 3)))
  }

  predicate IsAsciiLetter(c: char) { 'A' <= c <= 'Z' || 'a' <= c <= 'z' }

  lemma {:induction false} KeepAllLetters(s: string)
    requires forall i :: 0 <= i < |s| ==> IsUpperLetter(s[i])
    ensures KeepUpperLetters(s) == s
  {
    if s != [] {
      KeepAllLetters(s[1..]);
    }
  }

  /** A category that starts with three ASCII letters contributes exactly
      those letters, upper-cased; one made of digits contributes nothing. */
  lemma CategoryPrefixOfLetters(category: string)
    requires |category| >= 3
    requires forall i :: 0 <= i < 3 ==> IsAsciiLetter(category[i])
    ensures CategoryPrefix(category) == Upper(category[..3])
  {
    assert Substring(category, 0, 3) == category[..3];
    var u := Upper(category[..3]);
    assert forall i :: 0 <= i < |u| ==> IsUpperLetter(u[i]) by {
      forall i | 0 <= i < |u| ensures IsUpperLetter(u[i]) {
        assert u[i] == UpperChar(category[i]);
      }
    }
    KeepAllLetters(u);
  }

  lemma {:induction false} KeepNoLetters(s: string)
    requires forall i :: 0 <= i < |s| ==> !IsUpperLetter(s[i])
    ensures KeepUpperLetters(s) == []
  {
    if s != [] {
      KeepNoLetters(s[1..]);
    }
  }

  lemma CategoryPrefixOfDigits(category: string)
    requires AllDigits(category)
    ensures CategoryPrefix(category) == []
  {
    KeepNoLetters(Upper(Substring(category, 0, 3)));
  }

  /** `new Date().toISOString().slice(0, 10).replace(/-/g, "")`. */
  function DateStamp(iso: string): string {
    Without(Substring(iso, 0, 10), '-')
  }

  /** `Math.random().toString(36).substring(2, 6).toUpperCase()`, where
      `draw` is the base-36 rendering of the random number. */
  function RandomPart(draw: string): string {
    Upper(Substring(draw, 2, 6))
  }

  /** One attempt of the retry loop: the clock reading and the random
      number it used. */
  datatype Attempt = Attempt(iso: string, draw: string)

  function SkuOf(prefix: string, stamp: string, random: string): string {
    prefix + "-" + stamp + "-" + random
  }

  function Candidate(category: string, a: Attempt): string {
    SkuOf(CategoryPrefix(category), DateStamp(a.iso), RandomPart(a.draw))
  }

  /** `generateSKU(category)`: candidates are built attempt by attempt, and
      the first one that no stored product uses is returned. The attempts
      stand for the clock and random number generator, which are outside
      the model; the requirement says the generator eventually produces an
      unused code, on which the unbounded retry of `generateSKU` relies. */
  method GenerateSku(category: string, attempts: seq<Attempt>, taken: set<string>)
    returns (sku: string, k: nat)
    requires exists j :: 0 <= j < |attempts| && Candidate(category, attempts[j]) !in taken
    ensures k < |attempts| && sku == Candidate(category, attempts[k])
    ensures sku !in taken
    ensures forall j :: 0 <= j < k ==> Candidate(category, attempts[j]) in taken
  {
    k := 0;
    while Candidate(category, attempts[k]) in taken
      invariant k < |attempts|
      invariant forall j :: 0 <= j < k ==> Candidate(category, attempts[j]) in taken
      invariant exists j :: k <= j < |attempts| && Candidate(category, attempts[j]) !in taken
      decreases |attempts| - k
    {
      k := k + 1;
    }
    sku := Candidate(category, attempts[k]);
  }

  // ---------------------------------------------------------------------
  // Reading a SKU back

  /** `s.split(sep)`. */
  function Split(s: string, sep: char): (r: seq<string>)
    ensures |r| >= 1
  {
    if s == [] then [[]]
    else if s[0] == sep then [[]] + Split(s[1..], sep)
    else var rest := Split(s[1..], sep); [[s[0]] + rest[0]] + rest[1..]
  }

  predicate Free(s: string, c: char) { forall i :: 0 <= i < |s| ==> s[i] != c }

  lemma {:induction false} SplitFree(s: string, sep: char)
    requires Free(s, sep)
    ensures Split(s, sep) == [s]
  {
    if s != [] {
      SplitFree(s[1..], sep);
      assert [s[0]] + s[1..] == s;
    }
  }

  lemma {:induction false} SplitAt(a: string, sep: char, b: string)
    requires Free(a, sep)
    ensures Split(a + [sep] + b, sep) == [a] + Split(b, sep)
  {
    if a == [] {
      assert a + [sep] + b == [sep] + b;
      assert ([sep] + b)[1..] == b;
    } else {
      assert (a + [sep] + b)[1..] == a[1..] + [sep] + b;
      SplitAt(a[1..], sep, b);
      assert [a[0]] + a[1..] == a;
    }
  }

  /** A generated SKU splits on '-' into its three parts: the prefix, the
      eight-character date stamp and the random part. */
  lemma SkuSplits(category: string, a: Attempt)
    requires Free(a.draw, '-')
    ensures Split(Candidate(category, a), '-')
         == [CategoryPrefix(category), DateStamp(a.iso), RandomPart(a.draw)]
  {
    var p, d, r := CategoryPrefix(category), DateStamp(a.iso), RandomPart(a.draw);
    assert Free(p, '-');
    assert Free(d, '-');
    assert Free(r, '-') by {
      var sub := Substring(a.draw, 2, 6);
      assert Free(sub, '-');
    }
    assert Candidate(category, a) == p + ['-'] + (d + ['-'] + r);
    SplitAt(p, '-', d + ['-'] + r);
    SplitAt(d, '-', r);
    SplitFree(r, '-');
  }

  /** An ISO-8601 timestamp's date part `YYYY-MM-DD` becomes `YYYYMMDD`. */
  lemma DateStampOfIso(iso: string)
    requires |iso| >= 10 && iso[4] == '-' && iso[7] == '-'
    requires AllDigits(iso[..4]) && AllDigits(iso[5..7]) && AllDigits(iso[8..10])
    ensures DateStamp(iso) == iso[..4] + iso[5..7] + iso[8..10]
    ensures |DateStamp(iso)| == 8 && AllDigits(DateStamp(iso))
  {
    var y, m, d := iso[..4], iso[5..7], iso[8..10];
    var tail := ['-'] + d;
    var mid := m + tail;
    var rest := ['-'] + mid;
    assert Substring(iso, 0, 10) == y + rest;
    WithoutFree(y, '-');
    WithoutFree(m, '-');
    WithoutFree(d, '-');
    assert Without(['-'], '-') == [];
    WithoutConcat(['-'], d, '-');
    assert Without(tail, '-') == d;
    WithoutConcat(m, tail, '-');
    assert Without(mid, '-') == m + d;
    WithoutConcat(['-'], mid, '-');
    assert Without(rest, '-') == m + d;
    WithoutConcat(y, rest, '-');
    assert DateStamp(iso) == y + (m + d);
  }

  lemma {:induction false} WithoutConcat(a: string, b: string, c: char)
    ensures Without(a + b, c) == Without(a, c) + Without(b, c)
  {
    if a != [] {
      assert (a + b)[1..] == a[1..] + b;
      WithoutConcat(a[1..], b, c);
    } else {
      assert a + b == b;
    }
  }

  lemma {:induction false} WithoutFree(a: string, c: char)
    requires Free(a, c)
    ensures Without(a, c) == a
  {
    if a != [] {
      WithoutFree(a[1..], c);
      assert [a[0]] + a[1..] == a;
    }
  }
}
