/**
 * String helpers that stand in for the JavaScript built-ins the application
 * leans on: relational comparison of strings, `includes`, ASCII `toLowerCase`,
 * `join`/`split` and decimal rendering of numbers.
 */
module Text {

  // ---------------------------------------------------------------------------
  // Lexicographic comparison (JavaScript `<`, `>=` on strings)
  // ---------------------------------------------------------------------------

  /**
   * Three-way lexicographic comparison by character: negative when `a` sorts
   * first, zero when equal, positive when `b` sorts first. Characters are
   * Unicode scalar values, not the UTF-16 code units JavaScript compares, so
   * the two orders differ only when a character lies outside the Basic
   * Multilingual Plane.
   */
  function LexCompare(a: string, b: string): (r: int)
    ensures -1 <= r <= 1
    ensures r == 0 <==> a == b
  {
    if a == [] && b == [] then 0
    else if a == [] then -1
    else if b == [] then 1
    else if a[0] < b[0] then -1
    else if b[0] < a[0] then 1
    else
      var r := LexCompare(a[1..], b[1..]);
      assert r == 0 ==> a == [a[0]] + a[1..] == [b[0]] + b[1..] == b;
      r
  }

  /** JavaScript `a >= b` on strings: it holds exactly when `b > a` does not. */
  predicate LexGe(a: string, b: string): (ge: bool)
    ensures ge <==> !(LexCompare(b, a) > 0)
    ensures a == b ==> ge
  {
    LexCompareAntisymmetric(a, b);
    LexCompare(a, b) >= 0
  }

  /** JavaScript `a > b` on strings: `a >= b` with the strings different. */
  predicate LexGt(a: string, b: string): (gt: bool)
    ensures gt <==> LexGe(a, b) && a != b
    ensures gt ==> !LexGe(b, a)
  {
    LexCompareAntisymmetric(a, b);
    LexCompare(a, b) > 0
  }

  /** Swapping the arguments negates the comparison. */
  lemma {:induction false} LexCompareAntisymmetric(a: string, b: string)
    ensures LexCompare(a, b) == -LexCompare(b, a)
  {
    if a != [] && b != [] && a[0] == b[0] {
      LexCompareAntisymmetric(a[1..], b[1..]);
    }
  }

  /** "Sorts no later than" is transitive. */
  lemma {:induction false} LexCompareTransitive(a: string, b: string, c: string)
    requires LexCompare(a, b) <= 0 && LexCompare(b, c) <= 0
    ensures LexCompare(a, c) <= 0
  {
    if a != [] && b != [] && c != [] && a[0] == b[0] && b[0] == c[0] {
      LexCompareTransitive(a[1..], b[1..], c[1..]);
    }
  }

  /**
   * Comparing two strings split at the same length: the first halves decide
   * unless they are equal, in which case the second halves do.
   */
  lemma {:induction false} LexCompareConcat(a1: string, a2: string, b1: string, b2: string)
    requires |a1| == |b1|
    ensures LexCompare(a1 + a2, b1 + b2)
         == if a1 == b1 then LexCompare(a2, b2) else LexCompare(a1, b1)
  {
    if a1 != [] {
      assert (a1 + a2)[1..] == a1[1..] + a2;
      assert (b1 + b2)[1..] == b1[1..] + b2;
      LexCompareConcat(a1[1..], a2, b1[1..], b2);
      if a1[0] == b1[0] && a1[1..] == b1[1..] {
        assert a1 == [a1[0]] + a1[1..] == [b1[0]] + b1[1..] == b1;
      }
    } else {
      assert a1 + a2 == a2 && b1 + b2 == b2;
    }
  }

  // ---------------------------------------------------------------------------
  // Decimal digits
  // ---------------------------------------------------------------------------

  /** JavaScript regular-expression class `\d`: the ASCII digits only. */
  predicate IsDigit(c: char) {
    '0' <= c <= '9'
  }

  predicate AllDigits(s: string) {
    forall i :: 0 <= i < |s| ==> IsDigit(s[i])
  }

  function DigitValue(c: char): (d: nat)
    requires IsDigit(c)
    ensures d < 10
  {
    (c as int - '0' as int) as nat
  }

  function DigitChar(d: nat): (c: char)
    requires d < 10
    ensures IsDigit(c) && DigitValue(c) == d
  {
    ('0' as int + d) as char
  }

  function Pow10(n: nat): (p: nat)
    ensures p >= 1
  {
    if n == 0 then 1 else 10 * Pow10(n - 1)
  }

  /** The number a string of decimal digits denotes, most significant first. */
  function NumValue(s: string): nat
    requires AllDigits(s)
  {
    if s == [] then 0 else DigitValue(s[0]) * Pow10(|s| - 1) + NumValue(s[1..])
  }

  /** Scaling a place value: `a <= b` implies `a * p <= b * p`. */
  lemma MulMonotone(a: nat, b: nat, p: nat)
    requires a <= b
    ensures a * p <= b * p
  {
  }

  /** A string of `n` digits denotes less than 10^n. */
  lemma {:induction false} NumValueBound(s: string)
    requires AllDigits(s)
    ensures NumValue(s) < Pow10(|s|)
  {
    if s != [] {
      var d, p := DigitValue(s[0]), Pow10(|s| - 1);
      NumValueBound(s[1..]);
      MulMonotone(d, 9, p);
      assert NumValue(s) == d * p + NumValue(s[1..]);
      assert Pow10(|s|) == 10 * p;
    }
  }

  /** Appending a digit multiplies by ten and adds it. */
  lemma {:induction false} NumValueSnoc(s: string, c: char)
    requires AllDigits(s) && IsDigit(c)
    ensures AllDigits(s + [c])
    ensures NumValue(s + [c]) == NumValue(s) * 10 + DigitValue(c)
  {
    if s != [] {
      var d, p := DigitValue(s[0]), Pow10(|s| - 1);
      assert (s + [c])[1..] == s[1..] + [c];
      assert (s + [c])[0] == s[0];
      NumValueSnoc(s[1..], c);
      assert Pow10(|s|) == 10 * p;
      assert d * (10 * p) == 10 * (d * p);
      assert NumValue(s + [c]) == d * (10 * p) + NumValue(s[1..] + [c]);
      assert NumValue(s) == d * p + NumValue(s[1..]);
    } else {
      assert s + [c] == [c];
    }
  }

  /** When the leading digits differ, the smaller one decides. */
  lemma LeadingDigitDecides(a: string, b: string)
    requires AllDigits(a) && AllDigits(b) && |a| == |b| > 0
    requires a[0] < b[0]
    ensures NumValue(a) < NumValue(b)
  {
    var da, db, p := DigitValue(a[0]), DigitValue(b[0]), Pow10(|a| - 1);
    NumValueBound(a[1..]);
    MulMonotone(da + 1, db, p);
    assert (da + 1) * p == da * p + p;
    assert NumValue(a) == da * p + NumValue(a[1..]);
    assert NumValue(b) == db * p + NumValue(b[1..]);
  }

  /**
   * For digit strings of equal length, lexicographic order is numeric order.
   * This is what makes comparing zero-padded numerals as strings sound.
   */
  lemma {:induction false} LexCompareDigits(a: string, b: string)
    requires AllDigits(a) && AllDigits(b) && |a| == |b|
    ensures LexCompare(a, b) < 0 <==> NumValue(a) < NumValue(b)
    ensures LexCompare(a, b) == 0 <==> NumValue(a) == NumValue(b)
  {
    if a != [] {
      if a[0] == b[0] {
        LexCompareDigits(a[1..], b[1..]);
        assert NumValue(a) - NumValue(b) == NumValue(a[1..]) - NumValue(b[1..]);
        assert a[1..] == b[1..] ==> a == b by {
          assert a == [a[0]] + a[1..] && b == [b[0]] + b[1..];
        }
      } else if a[0] < b[0] {
        LeadingDigitDecides(a, b);
      } else {
        LeadingDigitDecides(b, a);
      }
    }
  }

  /**
   * Decimal rendering of a natural number (JavaScript `String(n)` / template
   * interpolation for a non-negative integer).
   */
  function NatToString(n: nat): (s: string)
    ensures s != [] && AllDigits(s)
    ensures NumValue(s) == n
    ensures |s| > 1 ==> s[0] != '0'
  {
    if n < 10 then [DigitChar(n)]
    else
      var prefix := NatToString(n / 10);
      NumValueSnoc(prefix, DigitChar(n % 10));
      prefix + [DigitChar(n % 10)]
  }

  /** Decimal rendering of an integer, with a leading `-` when negative. */
  function IntToString(n: int): (s: string)
    ensures s != []
    ensures n >= 0 ==> s == NatToString(n)
    ensures n < 0 ==> s == "-" + NatToString(-n)
  {
    if n >= 0 then NatToString(n) else "-" + NatToString(-n)
  }

  // ---------------------------------------------------------------------------
  // Substring search and case folding
  // ---------------------------------------------------------------------------

  /** JavaScript `s.includes(q)`: `q` occurs somewhere in `s` as a contiguous run. */
  predicate Contains(s: string, q: string)
    decreases |s|
  {
    q <= s || (s != [] && Contains(s[1..], q))
  }

  /** The empty query occurs in every string. */
  lemma ContainsEmpty(s: string)
    ensures Contains(s, [])
  {
  }

  /** A string containing `q + t` also contains `q`. */
  lemma {:induction false} ContainsPrefixOfQuery(s: string, q: string, t: string)
    requires Contains(s, q + t)
    ensures Contains(s, q)
    decreases |s|
  {
    if q + t <= s {
      assert q <= s by {
        assert s[..|q|] == (q + t)[..|q|] == q;
      }
    } else {
      ContainsPrefixOfQuery(s[1..], q, t);
    }
  }

  /** JavaScript `toLowerCase` restricted to ASCII letters. */
  function LowerChar(c: char): char {
    if 'A' <= c <= 'Z' then (c as int + 32) as char else c
  }

  function Lower(s: string): (r: string)
    ensures |r| == |s|
    ensures forall i :: 0 <= i < |s| ==> r[i] == LowerChar(s[i])
  {
    seq(|s|, i requires 0 <= i < |s| => LowerChar(s[i]))
  }

  lemma LowerConcat(a: string, b: string)
    ensures Lower(a + b) == Lower(a) + Lower(b)
  {
  }

  // ---------------------------------------------------------------------------
  // Join and split on a single separator character
  // ---------------------------------------------------------------------------

  /** JavaScript `xs.join(sep)`: the empty list joins to the empty string. */
  function Join(xs: seq<string>, sep: char): string
  {
    if |xs| == 0 then ""
    else if |xs| == 1 then xs[0]
    else xs[0] + [sep] + Join(xs[1..], sep)
  }

  /** A joined list's text begins with its first piece and ends with its last. */
  lemma {:induction false} JoinEnds(xs: seq<string>, sep: char)
    requires |xs| >= 1
    ensures var r := Join(xs, sep);
      && |r| >= |xs[0]| && r[..|xs[0]|] == xs[0]
      && |r| >= |xs[|xs| - 1]| && r[|r| - |xs[|xs| - 1]|..] == xs[|xs| - 1]
  {
    if |xs| >= 2 {
      JoinEnds(xs[1..], sep);
      var t := Join(xs[1..], sep);
      assert Join(xs, sep) == xs[0] + [sep] + t;
      assert xs[1..][|xs| - 2] == xs[|xs| - 1];
    }
  }

  /** Joining two pieces puts one separator between them. */
  lemma JoinTwo(a: string, b: string, sep: char)
    ensures Join([a, b], sep) == a + [sep] + b
  {
    assert [a, b][1..] == [b];
  }

  lemma JoinThree(a: string, b: string, c: string, sep: char)
    ensures Join([a, b, c], sep) == a + [sep] + b + [sep] + c
  {
    assert [a, b, c][1..] == [b, c];
    JoinTwo(b, c, sep);
    assert Join([a, b, c], sep) == (a + [sep]) + (b + [sep] + c);
  }

  lemma JoinFour(a: string, b: string, c: string, d: string, sep: char)
    ensures Join([a, b, c, d], sep) == a + [sep] + b + [sep] + c + [sep] + d
  {
    assert [a, b, c, d][1..] == [b, c, d];
    JoinThree(b, c, d, sep);
    assert Join([a, b, c, d], sep) == (a + [sep]) + (b + [sep] + c + [sep] + d);
  }

  lemma JoinFive(a: string, b: string, c: string, d: string, e: string, sep: char)
    ensures Join([a, b, c, d, e], sep) == a + [sep] + b + [sep] + c + [sep] + d + [sep] + e
  {
    assert [a, b, c, d, e][1..] == [b, c, d, e];
    JoinFour(b, c, d, e, sep);
    assert Join([a, b, c, d, e], sep) == (a + [sep]) + (b + [sep] + c + [sep] + d + [sep] + e);
  }

  /** JavaScript `s.split(sep)` for a one-character separator: always at least one piece. */
  function Split(s: string, sep: char): (pieces: seq<string>)
    ensures |pieces| >= 1
  {
    if s == [] then [""]
    else
      var rest := Split(s[1..], sep);
      if s[0] == sep then [""] + rest
      else [[s[0]] + rest[0]] + rest[1..]
  }

  /** No piece contains the separator. */
  predicate SeparatorFree(xs: seq<string>, sep: char) {
    forall i :: 0 <= i < |xs| ==> sep !in xs[i]
  }

  /** A separator-free prefix is glued onto the first piece. */
  lemma {:induction false} SplitFreePrefix(x: string, t: string, sep: char)
    requires sep !in x
    ensures Split(x + t, sep) == [x + Split(t, sep)[0]] + Split(t, sep)[1..]
  {
    if x != [] {
      assert (x + t)[1..] == x[1..] + t;
      assert (x + t)[0] == x[0] != sep;
      assert sep !in x[1..];
      SplitFreePrefix(x[1..], t, sep);
      var s := Split(t, sep);
      assert Split(x[1..] + t, sep) == [x[1..] + s[0]] + s[1..];
      var r := Split(x[1..] + t, sep);
      assert Split(x + t, sep) == [[x[0]] + r[0]] + r[1..];
      assert [x[0]] + (x[1..] + s[0]) == x + s[0];
    } else {
      var s := Split(t, sep);
      assert x + t == t && x + s[0] == s[0];
      assert s == [s[0]] + s[1..];
    }
  }

  /**
   * Splitting undoes joining when no piece contains the separator and there is
   * at least one piece.
   */
  lemma {:induction false} SplitJoin(xs: seq<string>, sep: char)
    requires |xs| >= 1 && SeparatorFree(xs, sep)
    ensures Split(Join(xs, sep), sep) == xs
  {
    if |xs| == 1 {
      SplitFreePrefix(xs[0], "", sep);
      assert xs[0] + "" == xs[0];
    } else {
      var tail := Join(xs[1..], sep);
      SplitJoin(xs[1..], sep);
      assert ([sep] + tail)[1..] == tail;
      assert Split([sep] + tail, sep) == [""] + xs[1..];
      assert Join(xs, sep) == xs[0] + ([sep] + tail);
      SplitFreePrefix(xs[0], [sep] + tail, sep);
      assert xs[0] + "" == xs[0];
      assert xs == [xs[0]] + xs[1..];
    }
  }

  /** A joined string contains the separator only between pieces. */
  lemma {:induction false} JoinSeparatorFree(xs: seq<string>, sep: char, c: char)
    requires SeparatorFree(xs, c) && c != sep
    ensures c !in Join(xs, sep)
  {
    if |xs| > 1 {
      JoinSeparatorFree(xs[1..], sep, c);
      assert Join(xs, sep) == xs[0] + [sep] + Join(xs[1..], sep);
    }
  }
}
