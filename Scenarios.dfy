/** Concrete datasets that show the filter stage's edge behaviour. */
module Scenarios {
  import opened Weather
  import opened OptionLists
  import opened Filter
  import opened StringOrder

  /** A row with the given categories and temperature; the other columns are fixed. */
  function Row(weatherType: string, location: string, temperature: real): Record
  {
    Record(weatherType, location, Payload(temperature, 50.0, 5.0, 3.0, []))
  }

  /** Five rows, two of them Sunny. */
  function FiveRows(): seq<Record>
  {
    [Row("Sunny", "inland", 30.0), Row("Rainy", "coastal", 18.0), Row("Sunny", "mountain", 32.0),
     Row("Cloudy", "inland", 22.0), Row("Rainy", "inland", 19.0)]
  }

  /** Selecting Sunny keeps the first and third rows, in that order. */
  lemma SunnySelection()
    ensures View(FiveRows(), "Sunny", All) == [FiveRows()[0], FiveRows()[2]]
    ensures |View(FiveRows(), "Sunny", All)| == 2
    ensures View(FiveRows(), "Sunny", All)[0].payload.temperature == 30.0
    ensures View(FiveRows(), "Sunny", All)[1].payload.temperature == 32.0
  {
    var rows := FiveRows();
    var r0, r1, r2, r3, r4 := rows[0], rows[1], rows[2], rows[3], rows[4];
    var d0: seq<Record> := [];
    var d1 := d0 + [r0];
    var d2 := d1 + [r1];
    var d3 := d2 + [r2];
    var d4 := d3 + [r3];
    var d5 := d4 + [r4];
    assert d5 == rows;
    SunnyStep(d0, r0);
    assert SunnyRows(d1) == [r0];
    SunnyStep(d1, r1);
    assert SunnyRows(d2) == [r0];
    SunnyStep(d2, r2);
    assert SunnyRows(d3) == [r0, r2];
    SunnyStep(d3, r3);
    assert SunnyRows(d4) == [r0, r2];
    SunnyStep(d4, r4);
    assert SunnyRows(d5) == [r0, r2];
    assert View(rows, "Sunny", All) == Select(rows, WeatherType, "Sunny") == SunnyRows(rows);
  }

  /** The rows of `d` whose weather type is Sunny. */
  function SunnyRows(d: seq<Record>): seq<Record>
  {
    Compress(d, PassMask(d, WeatherType, "Sunny"))
  }

  /** Selecting Sunny on a frame with one more row. */
  lemma SunnyStep(d: seq<Record>, e: Record)
    ensures SunnyRows(d + [e]) == SunnyRows(d) + (if e.weatherType == "Sunny" then [e] else [])
  {
    assert PassMask(d + [e], WeatherType, "Sunny") == PassMask(d, WeatherType, "Sunny") + [e.weatherType == "Sunny"];
    CompressSnoc(d, PassMask(d, WeatherType, "Sunny"), e, e.weatherType == "Sunny");
  }

  /** A weather type no row carries gives an empty view, not the whole dataset. */
  lemma AbsentWeatherTypeGivesEmptyView()
    ensures View(FiveRows(), "Blizzard", All) == []
  {
    var d := FiveRows();
    assert !Occurs(d, WeatherType, "Blizzard");
    AbsentSelectionEmptiesView(d, "Blizzard", All);
  }

  /** Two rows, the first with the literal weather type "All". */
  function AllAndSunnyRows(): seq<Record>
  {
    [Row("All", "inland", 10.0), Row("Sunny", "inland", 30.0)]
  }

  /** The weather column of the two rows holds no repeated value. */
  lemma UniqueAllSunny()
    ensures Unique(["All", "Sunny"]) == ["All", "Sunny"]
  {
    assert Unique(["All"]) == ["All"] by {
      assert ["All"][..0] == [];
    }
    assert ["All", "Sunny"][..1] == ["All"];
  }

  /** "All" sorts before "Sunny" ('A' comes before 'S'). */
  lemma SortedAllSunny()
    ensures Sorted(["All", "Sunny"]) == ["All", "Sunny"]
  {
    assert Sorted(["Sunny"]) == ["Sunny"];
    assert Below("All", "Sunny");
    assert ["All", "Sunny"][1..] == ["Sunny"];
  }

  /** When "All" is also a data value, the option list holds it twice. */
  lemma AllAsDataValueIsOfferedTwice()
    ensures Options(AllAndSunnyRows(), WeatherType) == ["All", "All", "Sunny"]
  {
    ColumnOfAllAndSunny();
    UniqueAllSunny();
    SortedAllSunny();
  }

  /** The weather column of the two rows, in row order. */
  lemma ColumnOfAllAndSunny()
    ensures ColumnValues(AllAndSunnyRows(), WeatherType) == ["All", "Sunny"]
  {
  }

  /** `AllSelectionsKeepDataset` on that data: selecting "All" keeps the
      Sunny row too, although only the first row's cell is the literal "All". */
  lemma AllAsDataValueDoesNotFilter()
    ensures View(AllAndSunnyRows(), All, All) == AllAndSunnyRows()
  {
    AllSelectionsKeepDataset(AllAndSunnyRows());
  }
}
