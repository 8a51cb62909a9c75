/**
 * Calendar dates written as zero-padded `YYYY-MM-DD` strings, the form the
 * date inputs and `toISOString().split('T')[0]` produce. Comparing such
 * strings with JavaScript's `<`/`>=` agrees with comparing the dates.
 */
module IsoDate {
  import opened Text

  predicate IsIsoDate(s: string) {
    && |s| == 10 && s[4] == '-' && s[7] == '-'
    && AllDigits(s[..4]) && AllDigits(s[5..7]) && AllDigits(s[8..])
  }

  function Year(s: string): nat
    requires IsIsoDate(s)
  {
    NumValue(s[..4])
  }

  function Month(s: string): nat
    requires IsIsoDate(s)
  {
    NumValue(s[5..7])
  }

  function Day(s: string): nat
    requires IsIsoDate(s)
  {
    NumValue(s[8..])
  }

  /** `a` is an earlier day than `b`: by year, then month, then day. */
  predicate CalendarBefore(a: string, b: string)
    requires IsIsoDate(a) && IsIsoDate(b)
  {
    || Year(a) < Year(b)
    || (Year(a) == Year(b) && Month(a) < Month(b))
    || (Year(a) == Year(b) && Month(a) == Month(b) && Day(a) < Day(b))
  }

  predicate SameDay(a: string, b: string)
    requires IsIsoDate(a) && IsIsoDate(b)
  {
    Year(a) == Year(b) && Month(a) == Month(b) && Day(a) == Day(b)
  }

  /** Comparing two equal-length digit segments: equal strings iff equal values. */
  lemma SegmentCompare(x: string, y: string)
    requires AllDigits(x) && AllDigits(y) && |x| == |y|
    ensures LexCompare(x, y) < 0 <==> NumValue(x) < NumValue(y)
    ensures x == y <==> NumValue(x) == NumValue(y)
  {
    LexCompareDigits(x, y);
  }

  /** The date string assembled from its year, month and day segments. */
  function Assemble(y: string, m: string, d: string): string {
    y + ("-" + (m + ("-" + d)))
  }

  /**
   * Comparing two assembled dates: the first differing segment decides,
   * because segments of equal length line up and the dashes agree.
   */
  lemma AssembledCompare(y1: string, m1: string, d1: string, y2: string, m2: string, d2: string)
    requires |y1| == |y2| && |m1| == |m2|
    ensures LexCompare(Assemble(y1, m1, d1), Assemble(y2, m2, d2))
         == if y1 != y2 then LexCompare(y1, y2)
            else if m1 != m2 then LexCompare(m1, m2)
            else LexCompare(d1, d2)
  {
    LexCompareConcat("-", d1, "-", d2);
    LexCompareConcat(m1, "-" + d1, m2, "-" + d2);
    LexCompareConcat("-", m1 + ("-" + d1), "-", m2 + ("-" + d2));
    LexCompareConcat(y1, "-" + (m1 + ("-" + d1)), y2, "-" + (m2 + ("-" + d2)));
  }

  /** A well-formed date is its three segments joined by dashes. */
  lemma Segments(a: string)
    requires IsIsoDate(a)
    ensures a == Assemble(a[..4], a[5..7], a[8..])
  {
    assert a == a[..4] + a[4..5] + a[5..7] + a[7..8] + a[8..];
  }

  /**
   * For well-formed dates, string order is calendar order: `a` sorts before
   * `b` exactly when it is an earlier day, and the strings are equal exactly
   * when the days are.
   */
  lemma IsoOrderIsCalendarOrder(a: string, b: string)
    requires IsIsoDate(a) && IsIsoDate(b)
    ensures LexCompare(a, b) < 0 <==> CalendarBefore(a, b)
    ensures a == b <==> SameDay(a, b)
  {
    var ya, ma, da := a[..4], a[5..7], a[8..];
    var yb, mb, db := b[..4], b[5..7], b[8..];
    Segments(a);
    Segments(b);
    SegmentCompare(ya, yb);
    SegmentCompare(ma, mb);
    SegmentCompare(da, db);
    AssembledCompare(ya, ma, da, yb, mb, db);
  }

  /** JavaScript `a >= b` on well-formed dates: `a` is the same day as `b` or later. */
  lemma IsoGeIsNotBefore(a: string, b: string)
    requires IsIsoDate(a) && IsIsoDate(b)
    ensures LexGe(a, b) <==> !CalendarBefore(a, b)
  {
    IsoOrderIsCalendarOrder(a, b);
  }
}
