/** The rows of the weather dataset and the two categorical columns the
    dashboard filters on. */
module Weather {

  /** The sentinel both selectors put first. It is compared as a plain string:
      a selection equal to it never filters, whatever the data holds. */
  const All: string := "All"

  /** The numeric columns of a row. The filter stage never inspects them; it
      only carries them along with the row. */
  datatype Payload = Payload(temperature: real, humidity: real, windSpeed: real,
                             uvIndex: real, otherCells: seq<string>)

  /** One row of the dataset: its `Weather Type` and `Location` cells and the rest. */
  datatype Record = Record(weatherType: string, location: string, payload: Payload)

  /** The two columns the sidebar offers a selector for. */
  datatype Column = WeatherType | Location

  /** The cell of row `r` in column `c`. */
  function Cell(r: Record, c: Column): string
  {
    match c
    case WeatherType => r.weatherType
    case Location => r.location
  }

  /** `df[column]`: the column's cells, one per row, in row order. */
  function ColumnValues(d: seq<Record>, c: Column): (col: seq<string>)
    ensures |col| == |d|
    ensures forall i :: 0 <= i < |d| ==> col[i] == Cell(d[i], c)
  {
    seq(|d|, i requires 0 <= i < |d| => Cell(d[i], c))
  }

  /** `v` is the value of column `c` in at least one row of `d`. */
  predicate Occurs(d: seq<Record>, c: Column, v: string)
  {
    exists i :: 0 <= i < |d| && Cell(d[i], c) == v
  }
}
