/**
 * The part of a pandas DataFrame that both notebooks rely on: named columns of equal
 * length, one of which ("timestamp") holds parsed date-times and the others numbers,
 * and an index that `set_index` can replace by the timestamp column.
 */
module Frames {
  import opened Wrappers

  type Month = m: int | 1 <= m <= 12 witness 1
  type Day = d: int | 1 <= d <= 31 witness 1
  type Hour = h: int | 0 <= h < 24
  type Minute = m: int | 0 <= m < 60

  datatype Date = Date(year: int, month: Month, day: Day)

  /** A value of the format `%d-%m-%Y %H:%M` once parsed: no seconds. */
  datatype Timestamp = Timestamp(date: Date, hour: Hour, minute: Minute)

  /** A column is either the parsed timestamps or a numeric series. */
  datatype Column = Times(times: seq<Timestamp>) | Values(values: seq<real>)
  {
    function Length(): nat
    {
      match this
      case Times(ts) => |ts|
      case Values(vs) => |vs|
    }
  }

  const TimestampColumn := "timestamp"
  const AqiColumn := "AQIH"
  const Pm25Column := "PM2.5"
  const Pm10Column := "PM10"

  /** Every column has one entry per row; only "timestamp" holds date-times. */
  ghost predicate WellFormed(columns: map<string, Column>, rows: nat)
  {
    forall c :: c in columns ==>
      columns[c].Length() == rows && (columns[c].Times? <==> c == TimestampColumn)
  }

  /** `all(col in df.columns for col in required)` */
  predicate HasAll(present: set<string>, required: seq<string>)
  {
    forall i :: 0 <= i < |required| ==> required[i] in present
  }

  class Frame {
    var columns: map<string, Column>
    /** None: the default integer index; Some(ts): the timestamps after set_index. */
    var index: Option<seq<Timestamp>>
    var rows: nat

    ghost predicate Valid()
      reads this
    {
      WellFormed(columns, rows) && (index.Some? ==> |index.value| == rows)
    }

    /** A frame as loaded: the given columns and the default integer index. */
    constructor(columns: map<string, Column>, rows: nat)
      requires WellFormed(columns, rows)
      ensures Valid()
      ensures this.columns == columns && this.rows == rows && index == None
    {
      this.columns := columns;
      this.rows := rows;
      index := None;
    }

    /** `df.set_index('timestamp', inplace=True)`: the column becomes the index. */
    method SetIndex()
      requires Valid() && TimestampColumn in columns
      modifies this
      ensures Valid()
      ensures index == Some(old(columns[TimestampColumn].times))
      ensures columns == old(columns) - {TimestampColumn}
      ensures rows == old(rows)
    {
      index := Some(columns[TimestampColumn].times);
      columns := columns - {TimestampColumn};
    }

    /** `df[name] = values`: adds the column or overwrites it. */
    method SetColumn(name: string, values: seq<real>)
      requires Valid() && name != TimestampColumn && |values| == rows
      modifies this
      ensures Valid()
      ensures columns == old(columns)[name := Values(values)]
      ensures index == old(index) && rows == old(rows)
    {
      columns := columns[name := Values(values)];
    }
  }
}
