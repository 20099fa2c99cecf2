/**
 * The sidebar's derived selector values: the province list offered for the
 * chosen scheme and region, and the default year range of the slider.
 */
module Selectors {

  import opened Wrappers
  import opened Regional
  import opened TextOrder

  /** The region selector: "all" followed by the scheme's regions in dictionary order. */
  function RegionOptions(scheme: Scheme): (options: seq<string>)
    ensures |options| == |scheme| + 1 && options[0] == All
    ensures forall i :: 0 <= i < |scheme| ==> options[i + 1] == scheme[i].0
  {
    if scheme == [] then [All]
    else
      var rest := RegionOptions(scheme[1..]);
      [All, scheme[0].0] + rest[1..]
  }

  /** Every region the selector offers can be looked up, so it never reaches the KeyError path. */
  lemma RegionOptionsKnown(scheme: Scheme, region: string)
    requires region in RegionOptions(scheme)
    ensures region == All || Lookup(scheme, region).Some?
  {
    var options := RegionOptions(scheme);
    var k :| 0 <= k < |options| && options[k] == region;
    if k > 0 {
      assert scheme[k - 1].0 == region;
    }
  }

  /** p can be picked for region: any listed province under "all", otherwise one of the region's. */
  ghost predicate Offered(scheme: Scheme, region: string, p: string) {
    if region == All then Listed(scheme, p)
    else Lookup(scheme, region).Some? && p in Lookup(scheme, region).value
  }

  /**
   * The province selector: "all" followed by the distinct candidate
   * provinces in ascending order. The candidates are every province of the
   * scheme when no region is chosen, otherwise the chosen region's list;
   * an unknown region is the KeyError case.
   */
  method ProvinceOptions(scheme: Scheme, region: string) returns (options: Option<seq<string>>)
    ensures options.None? <==> region != All && Lookup(scheme, region).None?
    ensures options.Some? ==> |options.value| >= 1 && options.value[0] == All
    ensures options.Some? ==> StrictlyAscending(options.value[1..])
    ensures options.Some? ==> forall p :: p in options.value[1..] <==> p != All && Offered(scheme, region, p)
  {
    var candidates := [All];
    if region == All {
      var i := 0;
      while i < |scheme|
        invariant 0 <= i <= |scheme|
        invariant forall p :: p in candidates <==> p == All || exists k :: 0 <= k < i && p in scheme[k].1
      {
        forall p ensures p in candidates + scheme[i].1 <==> p == All || exists k :: 0 <= k < i + 1 && p in scheme[k].1 {
          if p in scheme[i].1 {
            assert exists k :: 0 <= k < i + 1 && p in scheme[k].1;
          }
        }
        candidates := candidates + scheme[i].1;
        i := i + 1;
      }
    } else {
      match Lookup(scheme, region)
      case None =>
        return None;
      case Some(members) =>
        candidates := candidates + members;
    }
    var rest := SortedUnique(Without(candidates, All));
    options := Some([All] + rest);
    assert options.value[1..] == rest;
  }

  /**
   * The year slider's bounds: a row year no later than any other and one no
   * earlier. They read the integer year of a row directly; ForecastPrep.Largest
   * is the maximum of a real series, a different element type.
   */
  function MinYear(rows: seq<Row>): (y: int)
    requires rows != []
    ensures exists i :: 0 <= i < |rows| && rows[i].year == y
    ensures forall i :: 0 <= i < |rows| ==> y <= rows[i].year
  {
    if |rows| == 1 then rows[0].year
    else
      var m := MinYear(rows[1..]);
      assert forall i :: 1 <= i < |rows| ==> rows[i] == rows[1..][i - 1];
      if rows[0].year <= m then rows[0].year else m
  }

  function MaxYear(rows: seq<Row>): (y: int)
    requires rows != []
    ensures exists i :: 0 <= i < |rows| && rows[i].year == y
    ensures forall i :: 0 <= i < |rows| ==> rows[i].year <= y
  {
    if |rows| == 1 then rows[0].year
    else
      var m := MaxYear(rows[1..]);
      assert forall i :: 1 <= i < |rows| ==> rows[i] == rows[1..][i - 1];
      if rows[0].year >= m then rows[0].year else m
  }

  /** The slider's fallback when the table is empty or has no year column. */
  const DefaultFrom: int := 2560
  const DefaultTo: int := 2565

  /**
   * The initial year range: the earliest and latest year of the table, or
   * the fixed fallback when the table is empty or lacks the year column.
   */
  function DefaultYearRange(rows: seq<Row>, hasYearColumn: bool): (range: (int, int))
    ensures rows == [] || !hasYearColumn ==> range == (DefaultFrom, DefaultTo)
    ensures rows != [] && hasYearColumn ==>
      && (exists i :: 0 <= i < |rows| && rows[i].year == range.0)
      && (exists i :: 0 <= i < |rows| && rows[i].year == range.1)
      && forall i :: 0 <= i < |rows| ==> range.0 <= rows[i].year <= range.1
  {
    if rows != [] && hasYearColumn then (MinYear(rows), MaxYear(rows)) else (DefaultFrom, DefaultTo)
  }

  /** Filtering by the initial year range removes nothing, and the range is never empty. */
  lemma DefaultRangeKeepsAll(rows: seq<Row>, hasYearColumn: bool)
    ensures DefaultYearRange(rows, hasYearColumn).0 <= DefaultYearRange(rows, hasYearColumn).1
    ensures hasYearColumn ==>
      Filter(rows, Years(DefaultYearRange(rows, hasYearColumn).0, DefaultYearRange(rows, hasYearColumn).1)) == rows
  {
    var (lo, hi) := DefaultYearRange(rows, hasYearColumn);
    if rows != [] && hasYearColumn {
      assert lo <= rows[0].year <= hi;
      FilterAllHold(rows, Years(lo, hi));
    }
  }
}
