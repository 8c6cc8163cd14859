/** The filter stage of app.py lines 28-34 and the preview of line 75.
    A view is built from pandas boolean masks: `frame[frame[column] == value]`. */
module Filter {
  import opened Weather
  import opened OptionLists

  /** `frame[mask]`: the rows whose mask entry is true, in row order
      (their order is stated by `CompressEmbeds`). */
  function Compress(d: seq<Record>, m: seq<bool>): (r: seq<Record>)
    requires |m| == |d|
    ensures |r| <= |d|
    ensures forall x :: x in r <==> exists i :: 0 <= i < |d| && m[i] && d[i] == x
    decreases |d|
  {
    if |d| == 0 then []
    else Compress(d[..|d| - 1], m[..|m| - 1]) + (if m[|m| - 1] then [d[|d| - 1]] else [])
  }

  /** The positions of the rows a mask keeps, ascending (pandas carries them
      along as the index of the filtered frame). */
  function Positions(m: seq<bool>): seq<nat>
    decreases |m|
  {
    if |m| == 0 then []
    else Positions(m[..|m| - 1]) + (if m[|m| - 1] then [|m| - 1] else [])
  }

  /** `v` is the subsequence of `d` at the strictly increasing positions `p`. */
  ghost predicate OrderedSubsequence(v: seq<Record>, d: seq<Record>, p: seq<nat>)
  {
    && |p| == |v|
    && (forall k :: 0 <= k < |p| ==> p[k] < |d| && v[k] == d[p[k]])
    && (forall k1, k2 :: 0 <= k1 < k2 < |p| ==> p[k1] < p[k2])
  }

  /** `frame[mask]` is the subsequence of the rows at the mask's true
      positions, and a position is kept exactly when its entry is true. */
  lemma {:induction false} CompressEmbeds(d: seq<Record>, m: seq<bool>)
    requires |m| == |d|
    ensures OrderedSubsequence(Compress(d, m), d, Positions(m))
    ensures forall i :: 0 <= i < |d| ==> (m[i] <==> i in Positions(m))
    decreases |d|
  {
    if |d| > 0 {
      var n := |d|;
      CompressEmbeds(d[..n - 1], m[..n - 1]);
      var p := Positions(m[..n - 1]);
      forall i | 0 <= i < n
        ensures m[i] <==> i in Positions(m)
      {
        if i < n - 1 {
          assert m[..n - 1][i] == m[i];
        }
      }
    }
  }

  /** A mask that is true everywhere keeps the frame as it is. */
  lemma {:induction false} CompressAllTrue(d: seq<Record>, m: seq<bool>)
    requires |m| == |d|
    requires forall i :: 0 <= i < |m| ==> m[i]
    ensures Compress(d, m) == d
    decreases |d|
  {
    if |d| > 0 {
      CompressAllTrue(d[..|d| - 1], m[..|m| - 1]);
      assert d == d[..|d| - 1] + [d[|d| - 1]];
    }
  }

  /** A mask that is false everywhere keeps no row. */
  lemma {:induction false} CompressAllFalse(d: seq<Record>, m: seq<bool>)
    requires |m| == |d|
    requires forall i :: 0 <= i < |m| ==> !m[i]
    ensures Compress(d, m) == []
    decreases |d|
  {
    if |d| > 0 {
      CompressAllFalse(d[..|d| - 1], m[..|m| - 1]);
    }
  }

  /** Row `r` passes the selector for column `c` set to `sel`. */
  predicate Passes(r: Record, c: Column, sel: string)
  {
    sel == All || Cell(r, c) == sel
  }

  /** Row `r` satisfies every active constraint of the two selectors. */
  predicate Admits(r: Record, selectedWeather: string, selectedLocation: string)
  {
    Passes(r, WeatherType, selectedWeather) && Passes(r, Location, selectedLocation)
  }

  /** The mask of the rows that pass the selector for column `c`. For a
      selection other than "All" this is pandas' `frame[column] == sel`. */
  function PassMask(d: seq<Record>, c: Column, sel: string): (m: seq<bool>)
    ensures |m| == |d|
    ensures forall i :: 0 <= i < |d| ==> (m[i] <==> Passes(d[i], c, sel))
  {
    seq(|d|, i requires 0 <= i < |d| => Passes(d[i], c, sel))
  }

  /** The conjunctive reference mask: true at a row iff the row satisfies
      every active constraint. */
  function AdmitMask(d: seq<Record>, selectedWeather: string, selectedLocation: string): (m: seq<bool>)
    ensures |m| == |d|
    ensures forall i :: 0 <= i < |d| ==> (m[i] <==> Admits(d[i], selectedWeather, selectedLocation))
  {
    seq(|d|, i requires 0 <= i < |d| => Admits(d[i], selectedWeather, selectedLocation))
  }

  /** The entrywise conjunction of two masks of the same length. */
  function Both(m1: seq<bool>, m2: seq<bool>): (m: seq<bool>)
    requires |m1| == |m2|
    ensures |m| == |m1|
    ensures forall i :: 0 <= i < |m1| ==> (m[i] <==> m1[i] && m2[i])
  {
    seq(|m1|, i requires 0 <= i < |m1| => m1[i] && m2[i])
  }

  /** One conditional step of the filter stage: no change for "All",
      otherwise keep the rows whose cell equals the selection. */
  function Select(d: seq<Record>, c: Column, sel: string): (r: seq<Record>)
    ensures |r| <= |d|
    ensures forall x :: x in r <==> x in d && Passes(x, c, sel)
  {
    if sel == All then d else Compress(d, PassMask(d, c, sel))
  }

  /** The filtered frame: weather step first, then location step. */
  function View(d: seq<Record>, selectedWeather: string, selectedLocation: string): (r: seq<Record>)
    ensures |r| <= |d|
    ensures forall x :: x in r <==> x in d && Admits(x, selectedWeather, selectedLocation)
  {
    Select(Select(d, WeatherType, selectedWeather), Location, selectedLocation)
  }

  /** The positions, in the dataset, of the rows the view keeps. */
  function ViewPositions(d: seq<Record>, selectedWeather: string, selectedLocation: string): seq<nat>
  {
    Positions(AdmitMask(d, selectedWeather, selectedLocation))
  }

  /** A step, "All" or not, keeps exactly the rows that pass its selector. */
  lemma SelectIsPassMask(d: seq<Record>, c: Column, sel: string)
    ensures Select(d, c, sel) == Compress(d, PassMask(d, c, sel))
  {
    if sel == All {
      CompressAllTrue(d, PassMask(d, c, sel));
    }
  }

  /** Appending a row and its mask entry appends the row when the entry is true. */
  lemma CompressSnoc(d: seq<Record>, m: seq<bool>, e: Record, keep: bool)
    requires |m| == |d|
    ensures Compress(d + [e], m + [keep]) == Compress(d, m) + (if keep then [e] else [])
  {
    assert (d + [e])[..|d|] == d;
    assert (m + [keep])[..|m|] == m;
  }

  /** Appending a row appends its pass entry to the mask. */
  lemma PassMaskSnoc(d: seq<Record>, e: Record, c: Column, sel: string)
    ensures PassMask(d + [e], c, sel) == PassMask(d, c, sel) + [Passes(e, c, sel)]
  {
  }

  /** Appending an entry to both masks appends their conjunction. */
  lemma BothSnoc(m1: seq<bool>, m2: seq<bool>, b1: bool, b2: bool)
    requires |m1| == |m2|
    ensures Both(m1 + [b1], m2 + [b2]) == Both(m1, m2) + [b1 && b2]
  {
  }

  /** Filtering an already filtered frame is filtering once by both masks. */
  lemma {:induction false} CompressTwice(d: seq<Record>, m: seq<bool>, c: Column, sel: string)
    requires |m| == |d|
    ensures Compress(Compress(d, m), PassMask(Compress(d, m), c, sel))
         == Compress(d, Both(m, PassMask(d, c, sel)))
    decreases |d|
  {
    if |d| > 0 {
      var n := |d|;
      var d', m', e := d[..n - 1], m[..n - 1], d[n - 1];
      assert d == d' + [e] && m == m' + [m[n - 1]];
      CompressTwice(d', m', c, sel);
      var x := Compress(d', m');
      var both' := Both(m', PassMask(d', c, sel));
      PassMaskSnoc(d', e, c, sel);
      BothSnoc(m', PassMask(d', c, sel), m[n - 1], Passes(e, c, sel));
      CompressSnoc(d', both', e, m[n - 1] && Passes(e, c, sel));
      if m[n - 1] {
        assert Compress(d, m) == x + [e];
        PassMaskSnoc(x, e, c, sel);
        CompressSnoc(x, PassMask(x, c, sel), e, Passes(e, c, sel));
      } else {
        assert Compress(d, m) == x;
      }
    }
  }

  /** Both step masks together, in either order, are the conjunctive mask. */
  lemma StepMasksMakeAdmitMask(d: seq<Record>, selectedWeather: string, selectedLocation: string)
    ensures Both(PassMask(d, WeatherType, selectedWeather), PassMask(d, Location, selectedLocation))
         == AdmitMask(d, selectedWeather, selectedLocation)
    ensures Both(PassMask(d, Location, selectedLocation), PassMask(d, WeatherType, selectedWeather))
         == AdmitMask(d, selectedWeather, selectedLocation)
  {
  }

  /** The view is the dataset filtered by the conjunction of the two
      active constraints. */
  lemma ViewIsConjunction(d: seq<Record>, selectedWeather: string, selectedLocation: string)
    ensures View(d, selectedWeather, selectedLocation)
         == Compress(d, AdmitMask(d, selectedWeather, selectedLocation))
  {
    var s1 := Select(d, WeatherType, selectedWeather);
    SelectIsPassMask(d, WeatherType, selectedWeather);
    SelectIsPassMask(s1, Location, selectedLocation);
    CompressTwice(d, PassMask(d, WeatherType, selectedWeather), Location, selectedLocation);
    StepMasksMakeAdmitMask(d, selectedWeather, selectedLocation);
  }

  /** Applying the location step before the weather step gives the same view. */
  lemma FilterOrderIrrelevant(d: seq<Record>, selectedWeather: string, selectedLocation: string)
    ensures Select(Select(d, Location, selectedLocation), WeatherType, selectedWeather)
         == View(d, selectedWeather, selectedLocation)
  {
    var s1 := Select(d, Location, selectedLocation);
    SelectIsPassMask(d, Location, selectedLocation);
    SelectIsPassMask(s1, WeatherType, selectedWeather);
    CompressTwice(d, PassMask(d, Location, selectedLocation), WeatherType, selectedWeather);
    StepMasksMakeAdmitMask(d, selectedWeather, selectedLocation);
    ViewIsConjunction(d, selectedWeather, selectedLocation);
  }

  /** The view is an order-preserving subsequence of the dataset, and a
      dataset row is in it exactly when it satisfies every active constraint. */
  lemma ViewIsOrderedSubsequence(d: seq<Record>, selectedWeather: string, selectedLocation: string)
    ensures OrderedSubsequence(View(d, selectedWeather, selectedLocation), d,
                               ViewPositions(d, selectedWeather, selectedLocation))
    ensures |View(d, selectedWeather, selectedLocation)| <= |d|
    ensures forall i :: 0 <= i < |d| ==>
              (i in ViewPositions(d, selectedWeather, selectedLocation)
               <==> Admits(d[i], selectedWeather, selectedLocation))
  {
    ViewIsConjunction(d, selectedWeather, selectedLocation);
    CompressEmbeds(d, AdmitMask(d, selectedWeather, selectedLocation));
  }

  /** With a weather selection other than "All", every view row has that
      weather type; likewise for the location. */
  lemma ViewSoundness(d: seq<Record>, selectedWeather: string, selectedLocation: string)
    ensures selectedWeather != All ==>
              forall r :: r in View(d, selectedWeather, selectedLocation) ==> r.weatherType == selectedWeather
    ensures selectedLocation != All ==>
              forall r :: r in View(d, selectedWeather, selectedLocation) ==> r.location == selectedLocation
  {
  }

  /** Both selectors on "All": the view is the dataset, row for row. The
      sentinel is compared as a string, so this holds even when "All" is
      also a value in the data. */
  lemma AllSelectionsKeepDataset(d: seq<Record>)
    ensures View(d, All, All) == d
  {
  }

  /** A selection (other than "All") that no row carries empties the view;
      there is no fallback to "All". */
  lemma AbsentSelectionEmptiesView(d: seq<Record>, selectedWeather: string, selectedLocation: string)
    requires || (selectedWeather != All && !Occurs(d, WeatherType, selectedWeather))
             || (selectedLocation != All && !Occurs(d, Location, selectedLocation))
    ensures View(d, selectedWeather, selectedLocation) == []
  {
    ViewIsConjunction(d, selectedWeather, selectedLocation);
    CompressAllFalse(d, AdmitMask(d, selectedWeather, selectedLocation));
  }

  /** Choosing any entry of a selector after "All" keeps at least one row. */
  lemma OptionSelectsRows(d: seq<Record>, c: Column, v: string)
    requires v in Options(d, c)[1..]
    ensures |Select(d, c, v)| > 0
  {
  }

  /** The number of rows the preview table shows. */
  const PreviewRows: nat := 20

  /** `frame.head(n)`: the first `n` rows, or all of them when there are fewer. */
  function Head(v: seq<Record>, n: nat): (h: seq<Record>)
    ensures |h| == if n < |v| then n else |v|
    ensures forall k :: 0 <= k < |h| ==> h[k] == v[k]
  {
    if n < |v| then v[..n] else v
  }

  /** The preview table: `filtered_df.head(20)`, the first min(20, |v|) rows in order. */
  function Preview(v: seq<Record>): (pv: seq<Record>)
    ensures |pv| == if PreviewRows < |v| then PreviewRows else |v|
    ensures forall k :: 0 <= k < |pv| ==> pv[k] == v[k]
  {
    Head(v, PreviewRows)
  }

  /** The preview shows the first min(20, |view|) view rows, each one a
      dataset row at an increasing position that satisfies the constraints. */
  lemma PreviewOfView(d: seq<Record>, selectedWeather: string, selectedLocation: string)
    ensures var v := View(d, selectedWeather, selectedLocation);
            var pv := Preview(v);
            var p := ViewPositions(d, selectedWeather, selectedLocation);
            && OrderedSubsequence(v, d, p)
            && |pv| == (if PreviewRows < |v| then PreviewRows else |v|)
            && OrderedSubsequence(pv, d, p[..|pv|])
            && forall k :: 0 <= k < |pv| ==> Admits(pv[k], selectedWeather, selectedLocation)
  {
    var v := View(d, selectedWeather, selectedLocation);
    var pv := Preview(v);
    ViewIsOrderedSubsequence(d, selectedWeather, selectedLocation);
    forall k | 0 <= k < |pv|
      ensures Admits(pv[k], selectedWeather, selectedLocation)
    {
      assert v[k] in v;
    }
  }

  /** The filter stage as the script runs it: start from a copy of the
      dataset and rebind the frame once per active selector. */
  method FilterStage(df: seq<Record>, selectedWeather: string, selectedLocation: string)
    returns (filteredDf: seq<Record>)
    ensures filteredDf == Compress(df, AdmitMask(df, selectedWeather, selectedLocation))
    ensures forall r :: r in filteredDf <==> r in df && Admits(r, selectedWeather, selectedLocation)
  {
    filteredDf := df;
    if selectedWeather != All {
      filteredDf := Compress(filteredDf, PassMask(filteredDf, WeatherType, selectedWeather));
    }
    if selectedLocation != All {
      filteredDf := Compress(filteredDf, PassMask(filteredDf, Location, selectedLocation));
    }
    assert filteredDf == View(df, selectedWeather, selectedLocation);
    ViewIsConjunction(df, selectedWeather, selectedLocation);
  }
}
