/**
 * `analyze_hourly_aqi`: readings are grouped into calendar-hour buckets (the timestamp
 * floored to the hour, so one bucket per day and hour), each bucket's mean AQIH is taken,
 * the buckets whose mean is strictly above 150 are kept, and those are counted per
 * hour of the day (0-23), giving a histogram ordered by hour.
 */
module Hourly {
  import opened Wrappers
  import opened Frames

  /** A bucket is flagged only when its mean is strictly above this value. */
  const Threshold: real := 150.0

  /** The label `resample('H')` gives the bucket of `t`: `t` floored to its hour. */
  function FloorHour(t: Timestamp): (r: Timestamp)
    ensures r.minute == 0 && r.(minute := t.minute) == t
  {
    Timestamp(t.date, t.hour, 0)
  }

  /** Sum of the AQIH readings that fall in bucket `k`. */
  function BucketSum(times: seq<Timestamp>, aqih: seq<real>, k: Timestamp): real
    requires |times| == |aqih|
  {
    if times == [] then 0.0
    else
      var n := |times| - 1;
      BucketSum(times[..n], aqih[..n], k) + (if FloorHour(times[n]) == k then aqih[n] else 0.0)
  }

  /** Number of readings that fall in bucket `k`. */
  function BucketSize(times: seq<Timestamp>, k: Timestamp): nat
  {
    if times == [] then 0
    else
      var n := |times| - 1;
      BucketSize(times[..n], k) + (if FloorHour(times[n]) == k then 1 else 0)
  }

  /** The bucket's mean AQIH; None (pandas' NaN) for a bucket without readings. */
  function BucketMean(times: seq<Timestamp>, aqih: seq<real>, k: Timestamp): (m: Option<real>)
    requires |times| == |aqih|
    ensures m.None? <==> k !in Buckets(times)
    ensures m.Some? ==> m.value * BucketSize(times, k) as real == BucketSum(times, aqih, k)
  {
    OccupiedIff(times, k);
    var size := BucketSize(times, k);
    if size == 0 then None else Some(BucketSum(times, aqih, k) / size as real)
  }

  /** `hourly_avg['AQIH'] > 150` for bucket `k`; NaN compares false. */
  predicate Exceeds(times: seq<Timestamp>, aqih: seq<real>, k: Timestamp)
    requires |times| == |aqih|
    ensures Exceeds(times, aqih, k) ==> k in Buckets(times)
  {
    var mean := BucketMean(times, aqih, k);
    mean.Some? && mean.value > Threshold
  }

  /** The buckets that hold at least one reading. */
  function Buckets(times: seq<Timestamp>): set<Timestamp>
  {
    set t | t in times :: FloorHour(t)
  }

  /** The calendar days present in the data. */
  function Days(times: seq<Timestamp>): set<Date>
  {
    set t | t in times :: t.date
  }

  /** `high_aqi_times`: the buckets whose mean exceeds the threshold. */
  ghost function Exceeding(times: seq<Timestamp>, aqih: seq<real>): set<Timestamp>
    requires |times| == |aqih|
  {
    set k | k in Buckets(times) && Exceeds(times, aqih, k)
  }

  /** The exceeding buckets among `ks` whose hour of day is `h`. */
  ghost function ExceedingAt(ks: set<Timestamp>, times: seq<Timestamp>, aqih: seq<real>, h: int): set<Timestamp>
    requires |times| == |aqih|
  {
    set k | k in ks && Exceeds(times, aqih, k) && k.hour == h
  }

  /** How many calendar-hour buckets at hour of day `h` exceed the threshold. */
  ghost function HourCount(times: seq<Timestamp>, aqih: seq<real>, h: int): nat
    requires |times| == |aqih|
  {
    |ExceedingAt(Buckets(times), times, aqih, h)|
  }

  /** The count of every hour of the day, 0 to 23. */
  ghost function HourCounts(times: seq<Timestamp>, aqih: seq<real>): (cs: seq<nat>)
    requires |times| == |aqih|
    ensures |cs| == 24
  {
    seq(24, h => HourCount(times, aqih, h))
  }

  /** The (hour, count) pairs of the hours below `n` whose count is not zero, in ascending order. */
  function NonZeroPairs(cs: seq<nat>, n: nat): seq<(int, int)>
    requires n <= |cs|
  {
    if n == 0 then []
    else NonZeroPairs(cs, n - 1) + (if cs[n - 1] > 0 then [(n - 1, cs[n - 1] as int)] else [])
  }

  /** `high_aqi_times.index.hour.value_counts().sort_index()` */
  ghost function Histogram(times: seq<Timestamp>, aqih: seq<real>): seq<(int, int)>
    requires |times| == |aqih|
  {
    NonZeroPairs(HourCounts(times, aqih), 24)
  }

  function SumFirst(cs: seq<nat>, n: nat): nat
    requires n <= |cs|
  {
    if n == 0 then 0 else SumFirst(cs, n - 1) + cs[n - 1]
  }

  function SumCounts(counts: seq<(int, int)>): int
  {
    if counts == [] then 0 else SumCounts(counts[..|counts| - 1]) + counts[|counts| - 1].1
  }

  /** A bucket is occupied exactly when some reading falls into it. */
  lemma {:induction false} OccupiedIff(times: seq<Timestamp>, k: Timestamp)
    ensures k in Buckets(times) <==> BucketSize(times, k) > 0
  {
    if times != [] {
      var n := |times| - 1;
      OccupiedIff(times[..n], k);
      assert times == times[..n] + [times[n]];
      assert Buckets(times) == Buckets(times[..n]) + {FloorHour(times[n])};
    }
  }

  /** Hours without readings never contribute: their mean is NaN and fails the test. */
  lemma EmptyBucketNeverCounted(times: seq<Timestamp>, aqih: seq<real>, k: Timestamp)
    requires |times| == |aqih| && k !in Buckets(times)
    ensures BucketMean(times, aqih, k) == None
    ensures !Exceeds(times, aqih, k) && k !in Exceeding(times, aqih)
  {
    OccupiedIff(times, k);
  }

  /**
   * `df.resample('H').mean()` for the AQIH column: the running sum and the number of
   * readings of every occupied bucket.
   */
  method ResampleHourly(times: seq<Timestamp>, aqih: seq<real>)
    returns (sums: map<Timestamp, real>, sizes: map<Timestamp, nat>)
    requires |times| == |aqih|
    ensures sums.Keys == sizes.Keys == Buckets(times)
    ensures forall k :: k in sizes ==>
      sizes[k] == BucketSize(times, k) > 0 && sums[k] == BucketSum(times, aqih, k)
    ensures forall k :: k in sizes ==> BucketMean(times, aqih, k) == Some(sums[k] / sizes[k] as real)
  {
    sums, sizes := map[], map[];
    var i := 0;
    while i < |times|
      invariant 0 <= i <= |times|
      invariant sums.Keys == sizes.Keys
      invariant forall k :: k in sizes <==> BucketSize(times[..i], k) > 0
      invariant forall k :: k !in sizes ==> BucketSum(times[..i], aqih[..i], k) == 0.0
      invariant forall k :: k in sizes ==>
        sizes[k] == BucketSize(times[..i], k) && sums[k] == BucketSum(times[..i], aqih[..i], k)
    {
      var k := FloorHour(times[i]);
      assert times[..i + 1][..i] == times[..i] && aqih[..i + 1][..i] == aqih[..i];
      assert forall k' :: BucketSize(times[..i + 1], k') == BucketSize(times[..i], k') + (if k == k' then 1 else 0);
      assert forall k' :: (BucketSum(times[..i + 1], aqih[..i + 1], k') ==
        BucketSum(times[..i], aqih[..i], k') + (if k == k' then aqih[i] else 0.0));
      if k in sizes {
        sums := sums[k := sums[k] + aqih[i]];
        sizes := sizes[k := sizes[k] + 1];
      } else {
        sums := sums[k := aqih[i]];
        sizes := sizes[k := 1];
      }
      i := i + 1;
    }
    assert times[..i] == times && aqih[..i] == aqih;
    forall k ensures k in sizes <==> k in Buckets(times) {
      OccupiedIff(times, k);
    }
  }

  /** The count a tally holds for hour `h`: zero when the hour is absent. */
  function CountOf(hist: map<int, nat>, h: int): nat
  {
    if h in hist then hist[h] else 0
  }

  /** `hourly_avg['AQIH'] > 150` on the resampled sums and sizes: the mean of bucket `k` is above the threshold. */
  predicate MeanAbove(sums: map<Timestamp, real>, sizes: map<Timestamp, nat>, k: Timestamp)
  {
    k in sums && k in sizes && sizes[k] > 0 && sums[k] / sizes[k] as real > Threshold
  }

  /** The buckets among `ks` whose resampled mean is above the threshold and whose hour of day is `h`. */
  ghost function Flagged(sums: map<Timestamp, real>, sizes: map<Timestamp, nat>, ks: set<Timestamp>, h: int): set<Timestamp>
  {
    set k | k in ks && MeanAbove(sums, sizes, k) && k.hour == h
  }

  /** On the output of the resampling, the flagged buckets are exactly the exceeding ones. */
  lemma FlaggedAreExceeding(times: seq<Timestamp>, aqih: seq<real>, sums: map<Timestamp, real>, sizes: map<Timestamp, nat>, h: int)
    requires |times| == |aqih|
    requires sums.Keys == sizes.Keys == Buckets(times)
    requires forall k :: k in sizes ==> sizes[k] > 0 && BucketMean(times, aqih, k) == Some(sums[k] / sizes[k] as real)
    ensures Flagged(sums, sizes, sizes.Keys, h) == ExceedingAt(Buckets(times), times, aqih, h)
  {
    forall k | k in sizes ensures MeanAbove(sums, sizes, k) == Exceeds(times, aqih, k) {
    }
  }

  /** Adding one bucket to the examined ones adds it to the flagged ones of its hour if its mean is above the threshold. */
  lemma FlaggedAdd(sums: map<Timestamp, real>, sizes: map<Timestamp, nat>, ks: set<Timestamp>, k: Timestamp, h: int)
    ensures Flagged(sums, sizes, ks + {k}, h) ==
      Flagged(sums, sizes, ks, h) + (if MeanAbove(sums, sizes, k) && k.hour == h then {k} else {})
  {
  }

  /** The histogram after examining bucket `k`: one more for its hour when it exceeds. */
  function Tallied(hist: map<int, nat>, k: Timestamp, exceeds: bool): map<int, nat>
  {
    if exceeds then hist[k.hour := CountOf(hist, k.hour) + 1] else hist
  }

  /** Examining one more bucket adds one to its hour's count if it exceeds, and nothing otherwise. */
  lemma TallyStep(hist: map<int, nat>, ks: set<Timestamp>, k: Timestamp, sums: map<Timestamp, real>, sizes: map<Timestamp, nat>, exceeds: bool)
    requires k !in ks && exceeds == MeanAbove(sums, sizes, k)
    requires forall h :: h in hist ==> 0 <= h < 24 && hist[h] > 0
    requires forall h :: CountOf(hist, h) == |Flagged(sums, sizes, ks, h)|
    ensures forall h :: h in Tallied(hist, k, exceeds) ==> 0 <= h < 24 && Tallied(hist, k, exceeds)[h] > 0
    ensures forall h :: CountOf(Tallied(hist, k, exceeds), h) == |Flagged(sums, sizes, ks + {k}, h)|
  {
    forall h ensures CountOf(Tallied(hist, k, exceeds), h) == |Flagged(sums, sizes, ks + {k}, h)| {
      var before := Flagged(sums, sizes, ks, h);
      FlaggedAdd(sums, sizes, ks, k, h);
      if exceeds && k.hour == h {
        assert k !in before;
        assert |before + {k}| == |before| + 1;
      } else {
        assert CountOf(Tallied(hist, k, exceeds), h) == CountOf(hist, h);
      }
    }
  }

  /**
   * `hourly_avg[hourly_avg['AQIH'] > 150]` followed by `.index.hour.value_counts()`:
   * for every hour of the day, the number of buckets whose mean exceeds the threshold.
   */
  method CountExceeding(sums: map<Timestamp, real>, sizes: map<Timestamp, nat>) returns (hist: map<int, nat>)
    requires sums.Keys == sizes.Keys
    requires forall k :: k in sizes ==> sizes[k] > 0
    ensures forall h :: h in hist ==> 0 <= h < 24 && hist[h] > 0
    ensures forall h :: CountOf(hist, h) == |Flagged(sums, sizes, sizes.Keys, h)|
  {
    hist := map[];
    var todo := sizes.Keys;
    ghost var done: set<Timestamp> := {};
    while todo != {}
      invariant todo + done == sizes.Keys && todo !! done
      invariant forall h :: h in hist ==> 0 <= h < 24 && hist[h] > 0
      invariant forall h :: CountOf(hist, h) == |Flagged(sums, sizes, done, h)|
      decreases todo
    {
      var k :| k in todo;
      var exceeds := sums[k] / sizes[k] as real > Threshold;
      TallyStep(hist, done, k, sums, sizes, exceeds);
      hist := Tallied(hist, k, exceeds);
      todo := todo - {k};
      done := done + {k};
    }
  }

  /** `.sort_index()`: the non-zero hours of the tally, in ascending order of hour. */
  method SortByHour(hist: map<int, nat>, ghost cs: seq<nat>) returns (counts: seq<(int, int)>)
    requires |cs| == 24
    requires forall h :: h in hist ==> 0 <= h < 24 && hist[h] > 0
    requires forall h :: 0 <= h < 24 ==> CountOf(hist, h) == cs[h]
    ensures counts == NonZeroPairs(cs, 24)
  {
    counts := [];
    var h := 0;
    while h < 24
      invariant 0 <= h <= 24
      invariant counts == NonZeroPairs(cs, h)
    {
      if h in hist {
        counts := counts + [(h, hist[h])];
      }
      h := h + 1;
    }
  }

  /** `analyze_hourly_aqi` once the timestamps are the index: resample, filter, count, sort. */
  method HourlyCounts(times: seq<Timestamp>, aqih: seq<real>) returns (counts: seq<(int, int)>)
    requires |times| == |aqih|
    ensures counts == Histogram(times, aqih)
  {
    var sums, sizes := ResampleHourly(times, aqih);
    var hist := CountExceeding(sums, sizes);
    forall h {
      FlaggedAreExceeding(times, aqih, sums, sizes, h);
    }
    counts := SortByHour(hist, HourCounts(times, aqih));
  }

  /** `hs` has an entry for hour `h`. */
  ghost predicate Lists(hs: seq<(int, int)>, h: int)
  {
    exists i :: 0 <= i < |hs| && hs[i].0 == h
  }

  /** Every pair is an hour below `n` with its count from `cs`, and that count is positive. */
  lemma {:induction false} NonZeroPairsEntries(cs: seq<nat>, n: nat)
    requires n <= |cs|
    ensures forall i :: 0 <= i < |NonZeroPairs(cs, n)| ==>
      0 <= NonZeroPairs(cs, n)[i].0 < n && NonZeroPairs(cs, n)[i].1 == cs[NonZeroPairs(cs, n)[i].0] >= 1
  {
    if n > 0 {
      NonZeroPairsEntries(cs, n - 1);
      var prev := NonZeroPairs(cs, n - 1);
      var hs := NonZeroPairs(cs, n);
      forall i | 0 <= i < |hs| ensures 0 <= hs[i].0 < n && hs[i].1 == cs[hs[i].0] >= 1 {
        if i < |prev| {
          assert hs[i] == prev[i];
        } else {
          assert hs[i] == (n - 1, cs[n - 1] as int);
        }
      }
    }
  }

  /** The hours of the pairs are strictly ascending. */
  lemma {:induction false} NonZeroPairsSorted(cs: seq<nat>, n: nat)
    requires n <= |cs|
    ensures forall i, j :: 0 <= i < j < |NonZeroPairs(cs, n)| ==> NonZeroPairs(cs, n)[i].0 < NonZeroPairs(cs, n)[j].0
  {
    if n > 0 {
      NonZeroPairsSorted(cs, n - 1);
      NonZeroPairsEntries(cs, n - 1);
      var prev := NonZeroPairs(cs, n - 1);
      var hs := NonZeroPairs(cs, n);
      forall i, j | 0 <= i < j < |hs| ensures hs[i].0 < hs[j].0 {
        assert hs[i] == prev[i];
        if j < |prev| {
          assert hs[j] == prev[j];
        } else {
          assert hs[j] == (n - 1, cs[n - 1] as int);
        }
      }
    }
  }

  /** Every hour below `n` with a non-zero count has a pair. */
  lemma {:induction false} NonZeroPairsCover(cs: seq<nat>, n: nat, h: int)
    requires n <= |cs| && 0 <= h < n && cs[h] > 0
    ensures Lists(NonZeroPairs(cs, n), h)
  {
    var prev := NonZeroPairs(cs, n - 1);
    var hs := NonZeroPairs(cs, n);
    if h < n - 1 {
      NonZeroPairsCover(cs, n - 1, h);
      var i :| 0 <= i < |prev| && prev[i].0 == h;
      assert hs[i] == prev[i];
    } else {
      assert hs[|prev|].0 == h;
    }
  }

  /** An hour is listed exactly when it is below `n` and its count is positive. */
  lemma NonZeroPairsListedIff(cs: seq<nat>, n: nat, h: int)
    requires n <= |cs|
    ensures Lists(NonZeroPairs(cs, n), h) <==> 0 <= h < n && cs[h] > 0
  {
    NonZeroPairsEntries(cs, n);
    if 0 <= h < n && cs[h] > 0 {
      NonZeroPairsCover(cs, n, h);
    }
    if Lists(NonZeroPairs(cs, n), h) {
      var i :| 0 <= i < |NonZeroPairs(cs, n)| && NonZeroPairs(cs, n)[i].0 == h;
    }
  }

  /** The counts of the pairs add up to the sum of the first `n` counts. */
  lemma {:induction false} NonZeroPairsSum(cs: seq<nat>, n: nat)
    requires n <= |cs|
    ensures SumCounts(NonZeroPairs(cs, n)) == SumFirst(cs, n)
  {
    if n > 0 {
      NonZeroPairsSum(cs, n - 1);
      var prev := NonZeroPairs(cs, n - 1);
      if cs[n - 1] > 0 {
        var hs := prev + [(n - 1, cs[n - 1] as int)];
        assert hs[..|hs| - 1] == prev;
      } else {
        assert NonZeroPairs(cs, n) == prev;
      }
    }
  }

  /** An hour of the day has a positive count exactly when some exceeding bucket falls at that hour. */
  lemma HourCountPositive(times: seq<Timestamp>, aqih: seq<real>, h: int)
    requires |times| == |aqih|
    ensures HourCount(times, aqih, h) > 0 <==> exists k :: k in Exceeding(times, aqih) && k.hour == h
  {
    if exists k :: k in Exceeding(times, aqih) && k.hour == h {
      var k :| k in Exceeding(times, aqih) && k.hour == h;
      assert k in ExceedingAt(Buckets(times), times, aqih, h);
    }
    if HourCount(times, aqih, h) > 0 {
      var k :| k in ExceedingAt(Buckets(times), times, aqih, h);
    }
  }

  /**
   * The result of the analysis is ordered by hour of day, every count is positive and is
   * that hour's count, and an hour appears exactly when some calendar-hour bucket at that
   * hour has a mean above 150.
   */
  lemma HistogramShape(times: seq<Timestamp>, aqih: seq<real>)
    requires |times| == |aqih|
    ensures forall i :: 0 <= i < |Histogram(times, aqih)| ==>
      && 0 <= Histogram(times, aqih)[i].0 < 24
      && Histogram(times, aqih)[i].1 == HourCount(times, aqih, Histogram(times, aqih)[i].0) >= 1
    ensures forall i, j :: 0 <= i < j < |Histogram(times, aqih)| ==> Histogram(times, aqih)[i].0 < Histogram(times, aqih)[j].0
    ensures forall h :: Lists(Histogram(times, aqih), h) <==> exists k :: k in Exceeding(times, aqih) && k.hour == h
  {
    var cs := HourCounts(times, aqih);
    var hs := Histogram(times, aqih);
    NonZeroPairsEntries(cs, 24);
    NonZeroPairsSorted(cs, 24);
    forall h ensures Lists(hs, h) <==> exists k :: k in Exceeding(times, aqih) && k.hour == h
    {
      HourCountPositive(times, aqih, h);
      if Lists(hs, h) {
        var i :| 0 <= i < |hs| && hs[i].0 == h;
      }
      if 0 <= h < 24 && cs[h] > 0 {
        NonZeroPairsCover(cs, 24, h);
      }
    }
  }

  /** The size of a union of disjoint sets. */
  lemma {:induction false} DisjointUnionSize<T>(a: set<T>, b: set<T>)
    requires a !! b
    ensures |a + b| == |a| + |b|
    decreases |b|
  {
    if b != {} {
      var x :| x in b;
      DisjointUnionSize(a, b - {x});
      assert a + b == (a + (b - {x})) + {x};
    }
  }

  lemma SubsetSize<T>(a: set<T>, b: set<T>)
    requires a <= b
    ensures |a| <= |b|
  {
    DisjointUnionSize(a, b - a);
    assert b == a + (b - a);
  }

  /** The exceeding buckets whose hour of day is below `n`. */
  /** The members of `e` whose hour of day is `h`. */
  ghost function AtHour(e: set<Timestamp>, h: int): set<Timestamp>
  {
    set k | k in e && k.hour == h
  }

  /** The members of `e` whose hour of day is below `n`. */
  ghost function BeforeHour(e: set<Timestamp>, n: int): set<Timestamp>
  {
    set k | k in e && k.hour < n
  }

  /** Counting a set hour by hour: the first `n` counts add up to the members before hour `n`. */
  lemma {:induction false} SumFirstAtHours(cs: seq<nat>, e: set<Timestamp>, n: nat)
    requires n <= |cs|
    requires forall h :: 0 <= h < |cs| ==> cs[h] == |AtHour(e, h)|
    ensures SumFirst(cs, n) == |BeforeHour(e, n)|
  {
    if n == 0 {
      assert BeforeHour(e, 0) == {};
    } else {
      SumFirstAtHours(cs, e, n - 1);
      assert BeforeHour(e, n) == BeforeHour(e, n - 1) + AtHour(e, n - 1);
      DisjointUnionSize(BeforeHour(e, n - 1), AtHour(e, n - 1));
    }
  }

  /** The first `n` hour counts add up to the number of exceeding buckets before hour `n`. */
  lemma SumFirstHourCounts(times: seq<Timestamp>, aqih: seq<real>, n: nat)
    requires |times| == |aqih| && n <= 24
    ensures SumFirst(HourCounts(times, aqih), n) == |BeforeHour(Exceeding(times, aqih), n)|
  {
    var e := Exceeding(times, aqih);
    forall h | 0 <= h < 24 ensures HourCounts(times, aqih)[h] == |AtHour(e, h)| {
      assert ExceedingAt(Buckets(times), times, aqih, h) == AtHour(e, h);
    }
    SumFirstAtHours(HourCounts(times, aqih), e, n);
  }

  /** The counts add up to the number of calendar-hour buckets whose mean exceeds 150. */
  lemma HistogramTotal(times: seq<Timestamp>, aqih: seq<real>)
    requires |times| == |aqih|
    ensures SumCounts(Histogram(times, aqih)) == |Exceeding(times, aqih)|
  {
    NonZeroPairsSum(HourCounts(times, aqih), 24);
    SumFirstHourCounts(times, aqih, 24);
    assert BeforeHour(Exceeding(times, aqih), 24) == Exceeding(times, aqih);
  }

  /** The calendar days of a set of buckets. */
  function DatesOf(ks: set<Timestamp>): set<Date>
  {
    set k | k in ks :: k.date
  }

  /** Buckets that share their hour of day differ in their day. */
  lemma {:induction false} DatesOfSameHour(ks: set<Timestamp>, h: int)
    requires forall k :: k in ks ==> k.hour == h && k.minute == 0
    ensures |DatesOf(ks)| == |ks|
    decreases |ks|
  {
    if ks != {} {
      var k :| k in ks;
      var rest := ks - {k};
      DatesOfSameHour(rest, h);
      assert DatesOf(ks) == DatesOf(rest) + {k.date};
      assert k.date !in DatesOf(rest);
    }
  }

  /** No hour of day can be counted more often than there are days in the data. */
  lemma CountAtMostDays(times: seq<Timestamp>, aqih: seq<real>, h: int)
    requires |times| == |aqih|
    ensures HourCount(times, aqih, h) <= |Days(times)|
  {
    var at := ExceedingAt(Buckets(times), times, aqih, h);
    DatesOfSameHour(at, h);
    assert DatesOf(at) <= Days(times) by {
      forall d | d in DatesOf(at) ensures d in Days(times) {
        var k :| k in at && k.date == d;
        var t :| t in times && FloorHour(t) == k;
      }
    }
    SubsetSize(DatesOf(at), Days(times));
  }

  /** The analysis reports "generally safe" (an empty result) exactly when no bucket mean exceeds 150. */
  lemma SafeIffNoneExceeds(times: seq<Timestamp>, aqih: seq<real>)
    requires |times| == |aqih|
    ensures Histogram(times, aqih) == [] <==> forall k :: k in Buckets(times) ==> !Exceeds(times, aqih, k)
  {
    var hs := Histogram(times, aqih);
    HistogramShape(times, aqih);
    if hs != [] {
      assert Lists(hs, hs[0].0);
    }
    if exists k :: k in Buckets(times) && Exceeds(times, aqih, k) {
      var k :| k in Buckets(times) && Exceeds(times, aqih, k);
      assert k in Exceeding(times, aqih);
      assert Lists(hs, k.hour);
    }
  }

  lemma {:induction false} SumCountsAtLeastLength(hs: seq<(int, int)>)
    requires forall i :: 0 <= i < |hs| ==> hs[i].1 >= 1
    ensures SumCounts(hs) >= |hs|
    ensures |hs| == 1 ==> SumCounts(hs) == hs[0].1
  {
    if hs != [] {
      SumCountsAtLeastLength(hs[..|hs| - 1]);
    }
  }

  /** Positive counts summing to one, one of them at hour `h`: a single entry for `h`. */
  lemma SingleEntry(hs: seq<(int, int)>, h: int)
    requires forall i :: 0 <= i < |hs| ==> hs[i].1 >= 1
    requires SumCounts(hs) == 1 && Lists(hs, h)
    ensures hs == [(h, 1)]
  {
    SumCountsAtLeastLength(hs);
    var i :| 0 <= i < |hs| && hs[i].0 == h;
    assert |hs| == 1 && i == 0;
  }

  /** When exactly one calendar-hour bucket exceeds, the result is that bucket's hour with count one. */
  lemma SingleExceedingBucket(times: seq<Timestamp>, aqih: seq<real>, k: Timestamp)
    requires |times| == |aqih| && Exceeding(times, aqih) == {k}
    ensures Histogram(times, aqih) == [(k.hour as int, 1)]
  {
    HistogramShape(times, aqih);
    HistogramTotal(times, aqih);
    assert Lists(Histogram(times, aqih), k.hour);
    SingleEntry(Histogram(times, aqih), k.hour);
  }

  /** The threshold is strict: a lone reading of exactly 150 is not counted, one of 151 is. */
  lemma ThresholdIsStrict(t: Timestamp)
    ensures Histogram([t], [150.0]) == []
    ensures Histogram([t], [151.0]) == [(t.hour as int, 1)]
  {
    var k := FloorHour(t);
    assert [t][..0] == [];
    assert Buckets([t]) == {k};
    assert BucketSize([t], k) == 1;
    assert BucketSum([t], [150.0], k) == 150.0;
    assert BucketSum([t], [151.0], k) == 151.0;
    SafeIffNoneExceeds([t], [150.0]);
    assert Exceeding([t], [151.0]) == {k};
    SingleExceedingBucket([t], [151.0], k);
  }

  /**
   * Bucketing happens per calendar hour before the projection to hour of day: 10:00 on one
   * day at 200 and 10:30 on the next at 100 give one exceeding bucket at hour 10, although
   * the mean over both readings at that hour of day is exactly 150.
   */
  lemma CalendarHourBeforeHourOfDay()
    ensures var t1 := Timestamp(Date(2024, 1, 1), 10, 0);
      var t2 := Timestamp(Date(2024, 1, 2), 10, 30);
      && (200.0 + 100.0) / 2.0 == Threshold
      && Histogram([t1, t2], [200.0, 100.0]) == [(10, 1)]
  {
    var t1 := Timestamp(Date(2024, 1, 1), 10, 0);
    var t2 := Timestamp(Date(2024, 1, 2), 10, 30);
    var times, aqih := [t1, t2], [200.0, 100.0];
    var k1, k2 := FloorHour(t1), FloorHour(t2);
    assert times[..1] == [t1] && aqih[..1] == [200.0] && [t1][..0] == [] && [200.0][..0] == [];
    assert Buckets(times) == {k1, k2};
    assert k1 != k2;
    assert BucketSize([t1], k1) == 1 && BucketSize([t1], k2) == 0;
    assert BucketSum([t1], [200.0], k1) == 200.0 && BucketSum([t1], [200.0], k2) == 0.0;
    assert BucketSize(times, k1) == 1 && BucketSum(times, aqih, k1) == 200.0;
    assert BucketSize(times, k2) == 1 && BucketSum(times, aqih, k2) == 100.0;
    assert Exceeding(times, aqih) == {k1};
    SingleExceedingBucket(times, aqih, k1);
  }
}
