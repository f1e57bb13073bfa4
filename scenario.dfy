/**
 * The simulation notebook: the required-column check, the ratio options offered by the
 * three select boxes, and `simulate_aqi`, which writes three adjusted columns into the
 * frame it receives, each the original scaled by (1 - veg)(1 - ev)(1 - filter).
 */
module Scenario {
  import opened Wrappers
  import opened Frames

  const AqiAdjusted := "AQI_Adjusted"
  const Pm25Adjusted := "PM2.5_Adjusted"
  const Pm10Adjusted := "PM10_Adjusted"

  /** The columns checked before anything is simulated, in the order they are checked. */
  const SimulationRequired: seq<string> := [AqiColumn, Pm25Column, Pm10Column]

  /**
   * The validation loop: the first required column that is absent, if any. The notebook
   * reports that column and stops.
   */
  method FirstMissingColumn(present: set<string>, required: seq<string>) returns (missing: Option<string>)
    ensures missing.None? <==> HasAll(present, required)
    ensures missing.Some? ==> exists i :: (0 <= i < |required| && required[i] == missing.value
      && required[i] !in present && forall j :: 0 <= j < i ==> required[j] in present)
  {
    for i := 0 to |required|
      invariant forall j :: 0 <= j < i ==> required[j] in present
    {
      if required[i] !in present {
        return Some(required[i]);
      }
    }
    return None;
  }

  /** `[i / 100.0 for i in range(10, 101, 5)]`: the values each select box offers. */
  function RatioOptions(): (opts: seq<real>)
    ensures |opts| == 19
    ensures forall i, j :: 0 <= i < j < |opts| ==> opts[i] < opts[j]
  {
    seq(19, i => (10 + 5 * i) as real / 100.0)
  }

  /** The combined factor of the three effects. */
  function Factor(veg: real, ev: real, filt: real): real
  {
    (1.0 - veg) * (1.0 - ev) * (1.0 - filt)
  }

  /**
   * `df[col] * vegetation_effect * ev_effect * filter_effect`, element by element: every
   * value scaled by the one combined factor.
   */
  function Adjust(xs: seq<real>, veg: real, ev: real, filt: real): (ys: seq<real>)
    ensures |ys| == |xs|
    ensures forall i :: 0 <= i < |xs| ==> ys[i] == xs[i] * Factor(veg, ev, filt)
  {
    seq(|xs|, i requires 0 <= i < |xs| => xs[i] * (1.0 - veg) * (1.0 - ev) * (1.0 - filt))
  }

  /** The three measured columns are present as numeric columns. */
  ghost predicate Simulable(cols: map<string, Column>)
  {
    && AqiColumn in cols && cols[AqiColumn].Values?
    && Pm25Column in cols && cols[Pm25Column].Values?
    && Pm10Column in cols && cols[Pm10Column].Values?
  }

  /** The columns of the frame after `simulate_aqi`: three assignments, in the notebook's order. */
  ghost function Simulated(cols: map<string, Column>, veg: real, ev: real, filt: real): map<string, Column>
    requires Simulable(cols)
  {
    cols[AqiAdjusted := Values(Adjust(cols[AqiColumn].values, veg, ev, filt))]
        [Pm25Adjusted := Values(Adjust(cols[Pm25Column].values, veg, ev, filt))]
        [Pm10Adjusted := Values(Adjust(cols[Pm10Column].values, veg, ev, filt))]
  }

  /** `simulate_aqi(df, ...)`: writes the adjusted columns into `f` and returns `f` itself. */
  method SimulateAqi(f: Frame, veg: real, ev: real, filt: real) returns (g: Frame)
    requires f.Valid() && HasAll(f.columns.Keys, SimulationRequired)
    modifies f
    ensures g == f && f.Valid()
    ensures Simulable(old(f.columns)) && f.columns == Simulated(old(f.columns), veg, ev, filt)
    ensures f.rows == old(f.rows) && f.index == old(f.index)
  {
    assert SimulationRequired[0] in f.columns && SimulationRequired[1] in f.columns && SimulationRequired[2] in f.columns;
    var aqi := f.columns[AqiColumn].values;
    var pm25 := f.columns[Pm25Column].values;
    var pm10 := f.columns[Pm10Column].values;
    f.SetColumn(AqiAdjusted, Adjust(aqi, veg, ev, filt));
    f.SetColumn(Pm25Adjusted, Adjust(pm25, veg, ev, filt));
    f.SetColumn(Pm10Adjusted, Adjust(pm10, veg, ev, filt));
    g := f;
  }

  /**
   * The notebook's control flow: validate, and simulate when the button is pressed. The
   * ratios come from the select boxes.
   */
  method Session(f: Frame, veg: real, ev: real, filt: real, visualize: bool) returns (stopped: Option<string>)
    requires f.Valid()
    requires veg in RatioOptions() && ev in RatioOptions() && filt in RatioOptions()
    modifies f
    ensures f.Valid() && f.rows == old(f.rows) && f.index == old(f.index)
    ensures stopped.Some? <==> !HasAll(old(f.columns).Keys, SimulationRequired)
    ensures stopped.Some? ==> stopped.value in SimulationRequired && stopped.value !in old(f.columns)
    ensures stopped.Some? || !visualize ==> f.columns == old(f.columns)
    ensures stopped.None? && visualize ==>
      Simulable(old(f.columns)) && f.columns == Simulated(old(f.columns), veg, ev, filt)
  {
    stopped := FirstMissingColumn(f.columns.Keys, SimulationRequired);
    if stopped.None? && visualize {
      var adjusted := SimulateAqi(f, veg, ev, filt);
    }
  }

  /**
   * `simulate_aqi` adds or overwrites only the three adjusted columns, each the scaled copy
   * of its source column; every other column is left as it was.
   */
  lemma SimulatedColumns(cols: map<string, Column>, veg: real, ev: real, filt: real)
    requires Simulable(cols)
    ensures Simulated(cols, veg, ev, filt).Keys == cols.Keys + {AqiAdjusted, Pm25Adjusted, Pm10Adjusted}
    ensures forall c :: c in cols && c != AqiAdjusted && c != Pm25Adjusted && c != Pm10Adjusted ==>
      Simulated(cols, veg, ev, filt)[c] == cols[c]
    ensures Simulated(cols, veg, ev, filt)[AqiAdjusted] == Values(Adjust(cols[AqiColumn].values, veg, ev, filt))
    ensures Simulated(cols, veg, ev, filt)[Pm25Adjusted] == Values(Adjust(cols[Pm25Column].values, veg, ev, filt))
    ensures Simulated(cols, veg, ev, filt)[Pm10Adjusted] == Values(Adjust(cols[Pm10Column].values, veg, ev, filt))
  {
  }

  /** Simulating keeps every column one entry per row, so the row count is unchanged. */
  lemma SimulatedWellFormed(cols: map<string, Column>, rows: nat, veg: real, ev: real, filt: real)
    requires Simulable(cols) && WellFormed(cols, rows)
    ensures Simulable(Simulated(cols, veg, ev, filt)) && WellFormed(Simulated(cols, veg, ev, filt), rows)
  {
  }

  /** Simulating twice with the same ratios gives the same columns as simulating once. */
  lemma SimulateIdempotent(cols: map<string, Column>, veg: real, ev: real, filt: real)
    requires Simulable(cols)
    ensures Simulable(Simulated(cols, veg, ev, filt))
    ensures Simulated(Simulated(cols, veg, ev, filt), veg, ev, filt) == Simulated(cols, veg, ev, filt)
  {
  }

  /** Multiplying by a non-negative number keeps an inequality. */
  lemma MulMonotone(a: real, b: real, c: real)
    requires a <= b && 0.0 <= c
    ensures a * c <= b * c
  {
    assert (b - a) * c >= 0.0;
  }

  /** Two factors in [0, pMax] and [0, qMax] give a product in [0, pMax * qMax]. */
  lemma ProductBounds(p: real, q: real, pMax: real, qMax: real)
    requires 0.0 <= p <= pMax && 0.0 <= q <= qMax
    ensures 0.0 <= p * q <= pMax * qMax
  {
    MulMonotone(p, pMax, q);
    MulMonotone(q, qMax, pMax);
  }

  /** With every ratio in [0, 1] the combined factor lies in [0, 1]. */
  lemma FactorInUnitInterval(veg: real, ev: real, filt: real)
    requires 0.0 <= veg <= 1.0 && 0.0 <= ev <= 1.0 && 0.0 <= filt <= 1.0
    ensures 0.0 <= Factor(veg, ev, filt) <= 1.0
  {
    var a, b, c := 1.0 - veg, 1.0 - ev, 1.0 - filt;
    ProductBounds(a, b, 1.0, 1.0);
    ProductBounds(a * b, c, 1.0, 1.0);
  }

  /** With ratios in [0, 1], an adjusted non-negative reading lies between 0 and the original. */
  lemma AdjustedBounds(xs: seq<real>, veg: real, ev: real, filt: real)
    requires 0.0 <= veg <= 1.0 && 0.0 <= ev <= 1.0 && 0.0 <= filt <= 1.0
    requires forall i :: 0 <= i < |xs| ==> xs[i] >= 0.0
    ensures forall i :: 0 <= i < |xs| ==> 0.0 <= Adjust(xs, veg, ev, filt)[i] <= xs[i]
  {
    var f := Factor(veg, ev, filt);
    FactorInUnitInterval(veg, ev, filt);
    forall i | 0 <= i < |xs| ensures 0.0 <= Adjust(xs, veg, ev, filt)[i] <= xs[i] {
      ProductBounds(xs[i], f, xs[i], 1.0);
    }
  }

  /** A positive reading is left unchanged exactly when all three ratios are zero. */
  lemma UnchangedIffNoMeasures(x: real, veg: real, ev: real, filt: real)
    requires 0.0 <= veg <= 1.0 && 0.0 <= ev <= 1.0 && 0.0 <= filt <= 1.0 && x > 0.0
    ensures x * Factor(veg, ev, filt) == x <==> veg == 0.0 && ev == 0.0 && filt == 0.0
  {
    var a, b, c := 1.0 - veg, 1.0 - ev, 1.0 - filt;
    if veg > 0.0 || ev > 0.0 || filt > 0.0 {
      ProductBounds(a, b, 1.0, 1.0);
      MulMonotone(b, 1.0, a);
      MulMonotone(a, 1.0, b);
      assert a * b <= a && a * b <= b;
      MulMonotone(c, 1.0, a * b);
      MulMonotone(a * b, 1.0, c);
      assert Factor(veg, ev, filt) == a * b * c;
      assert Factor(veg, ev, filt) < 1.0 by {
        if veg > 0.0 {
          assert a * b * c <= a * b <= a < 1.0;
        } else if ev > 0.0 {
          assert a * b * c <= a * b <= b < 1.0;
        } else {
          assert a * b * c <= c < 1.0;
        }
      }
      MulMonotone(Factor(veg, ev, filt), 1.0, x);
      assert x * Factor(veg, ev, filt) < x by {
        assert (1.0 - Factor(veg, ev, filt)) * x > 0.0;
      }
    }
  }

  /** If any one ratio is 1.0, every adjusted value is 0. */
  lemma FullRatioZeroes(xs: seq<real>, veg: real, ev: real, filt: real)
    requires veg == 1.0 || ev == 1.0 || filt == 1.0
    ensures forall i :: 0 <= i < |xs| ==> Adjust(xs, veg, ev, filt)[i] == 0.0
  {
    forall i | 0 <= i < |xs| ensures Adjust(xs, veg, ev, filt)[i] == 0.0 {
    }
  }

  /** Each selectable ratio is i/100 for i = 10, 15, ..., 100, so it lies in [0.10, 1.00]. */
  lemma RatioOptionsRange()
    ensures |RatioOptions()| == 19
    ensures RatioOptions()[0] == 0.10 && RatioOptions()[18] == 1.0
    ensures forall r :: r in RatioOptions() ==>
      0.10 <= r <= 1.0 && exists j :: 2 <= j <= 20 && r == (5 * j) as real / 100.0
  {
    forall r | r in RatioOptions()
      ensures 0.10 <= r <= 1.0 && exists j :: 2 <= j <= 20 && r == (5 * j) as real / 100.0
    {
      var k :| 0 <= k < 19 && RatioOptions()[k] == r;
      assert r == (5 * (k + 2)) as real / 100.0;
    }
  }

  /** The current vegetation cover shown beside the select boxes. */
  const CurrentVegetation: real := 0.30

  /**
   * The pre-selected position of the vegetation and EV select boxes as the notebook computes
   * it, `int(current * 20) - 1`; `int` truncates, which is the floor for the non-negative
   * ratios used here.
   */
  function DefaultIndexAsWritten(current: real): int
  {
    (current * 20.0).Floor - 1
  }

  /** As written, the vegetation box opens on 0.35 although the current cover is 0.30. */
  lemma VegetationDefaultOffByOne()
    ensures DefaultIndexAsWritten(CurrentVegetation) == 5
    ensures RatioOptions()[DefaultIndexAsWritten(CurrentVegetation)] == 0.35 != CurrentVegetation
  {
    assert CurrentVegetation * 20.0 == 6.0;
  }

  /** As written, the position computed for option k is k + 1: one step above it, and past the end for 1.00. */
  lemma DefaultIndexAsWrittenShifts(k: int)
    requires 0 <= k < |RatioOptions()|
    ensures DefaultIndexAsWritten(RatioOptions()[k]) == k + 1
  {
    assert RatioOptions()[k] * 20.0 == (k + 2) as real;
  }

  /** The position of ratio `current` among the options: option k is (k + 2) / 20. */
  function DefaultIndex(current: real): int
  {
    (current * 20.0).Floor - 2
  }

  /** Every option is found at its own position: the box opens on the current value. */
  lemma DefaultIndexSelectsCurrent(k: int)
    requires 0 <= k < |RatioOptions()|
    ensures DefaultIndex(RatioOptions()[k]) == k
  {
    assert RatioOptions()[k] * 20.0 == (k + 2) as real;
  }

  /** The pre-selected ratio for a current value that is one of the options. */
  function DefaultSelection(current: real): (r: real)
    requires current in RatioOptions()
    ensures r == current
  {
    var k :| 0 <= k < |RatioOptions()| && RatioOptions()[k] == current;
    DefaultIndexSelectsCurrent(k);
    RatioOptions()[DefaultIndex(current)]
  }

  /**
   * With selectable ratios the combined factor is at most 0.9 cubed, so every positive
   * reading is strictly reduced.
   */
  lemma SelectableRatiosReduce(x: real, veg: real, ev: real, filt: real)
    requires veg in RatioOptions() && ev in RatioOptions() && filt in RatioOptions()
    ensures 0.0 <= Factor(veg, ev, filt) <= 0.729
    ensures x > 0.0 ==> x * Factor(veg, ev, filt) < x
  {
    assert 0.10 <= veg <= 1.0 && 0.10 <= ev <= 1.0 && 0.10 <= filt <= 1.0 by {
      RatioOptionsRange();
    }
    var a, b, c := 1.0 - veg, 1.0 - ev, 1.0 - filt;
    ProductBounds(a, b, 0.9, 0.9);
    ProductBounds(a * b, c, 0.81, 0.9);
    assert Factor(veg, ev, filt) == a * b * c;
    if x > 0.0 {
      assert (1.0 - Factor(veg, ev, filt)) * x > 0.0;
    }
  }

  /** The worked example: ratios 0.30, 0.05 and 0.40 turn an AQIH of 120 into 47.88. */
  lemma WorkedExample()
    ensures Factor(0.30, 0.05, 0.40) == 0.399
    ensures Adjust([120.0, 80.0, 100.0], 0.30, 0.05, 0.40) == [47.88, 31.92, 39.9]
  {
  }
}
