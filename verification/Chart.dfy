/** The activity chart of the overview (view/overview_templ.go): its scale, its bars and
    the share of a bar drawn red. The int64 products are wrapped as Go wraps them. */
module Chart {
  import opened Overview

  datatype Bucket = Bucket(total: int, errors: int)

  function Wrap64(n: int): (r: int)
    ensures IsInt64(r)
    ensures IsInt64(n) ==> r == n
  {
    (n - MIN_INT64) % 0x1_0000_0000_0000_0000 + MIN_INT64
  }

  /** Go's division truncates towards zero. */
  function Quotient(a: int, b: int): int
    requires b > 0
  {
    if a >= 0 then a / b else -((-a) / b)
  }

  method ChartPeak(buckets: seq<Bucket>) returns (peak: int)
    ensures peak >= 1 && forall b :: b in buckets ==> b.total <= peak
    ensures peak == 1 || exists b :: b in buckets && b.total == peak
  {
    peak := 1;
    for i := 0 to |buckets|
      invariant peak >= 1 && forall b :: b in buckets[..i] ==> b.total <= peak
      invariant peak == 1 || exists b :: b in buckets[..i] && b.total == peak
    {
      assert buckets[..i + 1] == buckets[..i] + [buckets[i]];
      if buckets[i].total > peak {
        peak := buckets[i].total;
      }
    }
    assert buckets[..|buckets|] == buckets;
  }

  function BarHeight(count: int, peak: int): int
    requires peak > 0
  {
    if count == 0 then 2
    else
      var h := Quotient(Wrap64(count * 100), peak);
      if h < 4 then 4 else h
  }

  function ErrorShare(b: Bucket): int
    requires b.total >= 0
  {
    if b.total == 0 then 0
    else
      var share := Quotient(Wrap64(b.errors * 100), b.total);
      if share < 6 then 6 else if share > 100 then 100 else share
  }

  lemma QuotientIsMonotone(a: int, b: int, d: int)
    requires 0 <= a <= b && d > 0
    ensures Quotient(a, d) <= Quotient(b, d)
  {
    var qa, qb := a / d, b / d;
    assert a == qa * d + a % d && b == qb * d + b % d;
    if qa > qb {
      TimesIsMonotone(qb + 1, qa, d);
      assert false;
    }
  }

  lemma TimesIsMonotone(x: int, y: int, d: int)
    requires x <= y && d > 0
    ensures x * d <= y * d
  {}

  lemma HundredTimes(d: int)
    requires d > 0
    ensures Quotient(100 * d, d) == 100
  {}

  lemma QuotientBelow(a: int, d: int)
    requires 0 <= a < 100 * d && d > 0
    ensures Quotient(a, d) < 100
  {
    assert a == a / d * d + a % d;
  }

  /** Bars keep their scale: for counts up to the peak, and a peak whose hundredfold
      still is an int64, every bar is between 2 and 100, a taller count never draws a
      shorter bar, 2 is only for an empty bucket, and 100 only for the peak itself. */
  lemma BarsKeepTheirScale(a: int, b: int, peak: int)
    requires 0 <= a <= b <= peak && peak > 0 && peak * 100 <= MAX_INT64
    ensures 2 <= BarHeight(a, peak) <= BarHeight(b, peak) <= 100
    ensures BarHeight(a, peak) == 2 <==> a == 0
    ensures BarHeight(b, peak) == 100 <==> b == peak
  {
    QuotientIsMonotone(a * 100, b * 100, peak);
    QuotientIsMonotone(b * 100, peak * 100, peak);
    HundredTimes(peak);
    assert 100 * peak == peak * 100;
    if b < peak {
      QuotientBelow(b * 100, peak);
    }
  }

  lemma QuotientIsWhole(a: int, d: int)
    requires a >= 0 && d > 0
    ensures Quotient(a, d) * d <= a < (Quotient(a, d) + 1) * d
  {
    assert a == a / d * d + a % d;
  }

  /** Within it a bar that is not empty is as high as its whole hundredths of the peak, but
      at least 4. */
  lemma BarIsItsHundredths(count: int, peak: int)
    requires 0 < count <= peak && peak * 100 <= MAX_INT64
    ensures var h := BarHeight(count, peak);
            h >= 4 && count * 100 < (h + 1) * peak && (h > 4 ==> h * peak <= count * 100)
  {
    QuotientIsWhole(count * 100, peak);
    TimesIsMonotone(Quotient(count * 100, peak) + 1, BarHeight(count, peak) + 1, peak);
  }

  /** Beyond that bound the product wraps, and the tallest bar is the first to go wrong:
      it is drawn at 100 exactly when its hundredfold is still an int64. */
  lemma TallestBarIsFullExactlyWithinTheBound(peak: int)
    requires 0 < peak <= MAX_INT64
    ensures BarHeight(peak, peak) == 100 <==> peak * 100 <= MAX_INT64
  {
    HundredTimes(peak);
    assert 100 * peak == peak * 100;
    if peak * 100 > MAX_INT64 {
      var w := Wrap64(peak * 100);
      assert w < peak * 100;
      if w >= 0 {
        QuotientBelow(w, peak);
      }
    }
  }

  /** The red share is never more than the bar, never less than a sliver in a bucket that
      has logs, and grows with the errors. */
  lemma ErrorShareGrows(total: int, fewer: int, more: int)
    requires total >= 0 && 0 <= fewer <= more && more * 100 <= MAX_INT64
    ensures 0 <= ErrorShare(Bucket(total, fewer)) <= ErrorShare(Bucket(total, more)) <= 100
    ensures ErrorShare(Bucket(total, more)) == 0 <==> total == 0
    ensures total > 0 ==> (ErrorShare(Bucket(total, more)) == 100 <==> more >= total)
  {
    if total > 0 {
      QuotientIsMonotone(fewer * 100, more * 100, total);
      HundredTimes(total);
      if more >= total {
        QuotientIsMonotone(100 * total, more * 100, total);
      } else {
        QuotientBelow(more * 100, total);
      }
    }
  }

  /** In between it is the whole hundredths of the logs that are errors, at least 6. */
  lemma ErrorShareIsItsHundredths(b: Bucket)
    requires b.total > 0 && b.errors >= 0 && b.errors * 100 <= MAX_INT64
    ensures var s := ErrorShare(b);
            && 6 <= s <= 100 && (s < 100 ==> b.errors * 100 < (s + 1) * b.total)
            && (6 < s ==> s * b.total <= b.errors * 100)
  {
    var q, s := Quotient(b.errors * 100, b.total), ErrorShare(b);
    QuotientIsWhole(b.errors * 100, b.total);
    if q < s {
      TimesIsMonotone(q + 1, s + 1, b.total);
    } else {
      TimesIsMonotone(s, q, b.total);
    }
  }
}
