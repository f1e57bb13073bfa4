/**
 * `calculate_statistics`: mean, maximum and minimum of the AQIH, PM2.5 and PM10
 * columns. Pandas gives NaN for each aggregate of an empty column; here that is None.
 */
module Statistics {
  import opened Wrappers

  function Sum(xs: seq<real>): real
  {
    if xs == [] then 0.0 else Sum(xs[..|xs| - 1]) + xs[|xs| - 1]
  }

  /** `Series.max()` on a non-empty series. */
  function Max(xs: seq<real>): (m: real)
    requires xs != []
    ensures m in xs
    ensures forall x :: x in xs ==> x <= m
  {
    if |xs| == 1 then xs[0]
    else
      var rest := Max(xs[1..]);
      assert forall x :: x in xs ==> x == xs[0] || x in xs[1..];
      if xs[0] >= rest then xs[0] else rest
  }

  /** `Series.min()` on a non-empty series. */
  function Min(xs: seq<real>): (m: real)
    requires xs != []
    ensures m in xs
    ensures forall x :: x in xs ==> m <= x
  {
    if |xs| == 1 then xs[0]
    else
      var rest := Min(xs[1..]);
      assert forall x :: x in xs ==> x == xs[0] || x in xs[1..];
      if xs[0] <= rest then xs[0] else rest
  }

  /** The sum of n values lies between n times a lower and n times an upper bound of them. */
  lemma {:induction false} SumBetween(xs: seq<real>, lo: real, hi: real)
    requires forall x :: x in xs ==> lo <= x <= hi
    ensures lo * |xs| as real <= Sum(xs) <= hi * |xs| as real
  {
    if xs != [] {
      var init := xs[..|xs| - 1];
      assert forall x :: x in init ==> x in xs;
      SumBetween(init, lo, hi);
      assert xs[|xs| - 1] in xs;
      assert Sum(xs) == Sum(init) + xs[|xs| - 1];
      var m := |init| as real;
      assert |xs| as real == m + 1.0;
      assert lo * (m + 1.0) == lo * m + lo && hi * (m + 1.0) == hi * m + hi;
    }
  }

  /** Dividing `lo * n <= s <= hi * n` by a positive n. */
  lemma QuotientBetween(s: real, n: real, lo: real, hi: real)
    requires n > 0.0 && lo * n <= s <= hi * n
    ensures (s / n) * n == s && lo <= s / n <= hi
  {
    var q := s / n;
    assert q * n == s;
  }

  /** The three aggregates of one column. */
  datatype Summary = Summary(average: real, max: real, min: real)

  /**
   * What a correct summary of `xs` is: NaN (None) for an empty column; otherwise the
   * arithmetic mean, and a maximum and a minimum that occur in the column and bound it.
   */
  ghost predicate Describes(r: Option<Summary>, xs: seq<real>)
  {
    match r
    case None => xs == []
    case Some(s) =>
      && xs != []
      && s.average * |xs| as real == Sum(xs)
      && s.max in xs && s.min in xs
      && (forall x :: x in xs ==> s.min <= x <= s.max)
      && s.min <= s.average <= s.max
  }

  function Summarize(xs: seq<real>): (r: Option<Summary>)
    ensures Describes(r, xs)
  {
    if xs == [] then None
    else
      var n := |xs| as real;
      SumBetween(xs, Min(xs), Max(xs));
      QuotientBetween(Sum(xs), n, Min(xs), Max(xs));
      Some(Summary(Sum(xs) / n, Max(xs), Min(xs)))
  }

  /** The nine entries of the statistics dictionary, grouped by column. */
  datatype Stats = Stats(aqi: Option<Summary>, pm25: Option<Summary>, pm10: Option<Summary>)

  function CalculateStatistics(aqih: seq<real>, pm25: seq<real>, pm10: seq<real>): (s: Stats)
    ensures Describes(s.aqi, aqih) && Describes(s.pm25, pm25) && Describes(s.pm10, pm10)
  {
    Stats(Summarize(aqih), Summarize(pm25), Summarize(pm10))
  }

  /** The arithmetic mean is determined: any two summaries that describe a column agree. */
  lemma SummaryUnique(xs: seq<real>, r1: Option<Summary>, r2: Option<Summary>)
    requires Describes(r1, xs) && Describes(r2, xs)
    ensures r1 == r2
  {
    if r1.Some? {
      var n := |xs| as real;
      assert r1.value.average * n == r2.value.average * n;
    }
  }
}
