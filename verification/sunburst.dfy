/** The two rings of the component, built from the static season table. */
module Sunburst {
  import opened BloomTables
  import opened Rings

  /** Data of the outer (season) ring. */
  const SeasonData: seq<SeasonSlice> := SeasonRing(Seasons)

  /** Data of the inner (month) ring. */
  const MonthData: seq<MonthSlice> := MonthRing(Seasons)

  /** The inner ring holds the twelve months in season-table order and,
      within each season, in month-list order: February first, March last.
      The seasons are not walked in reverse. */
  lemma StaticMonthOrder()
    ensures |MonthData| == 12
    ensures MonthData == [
      MonthSlice("February", "Winter", 1), MonthSlice("January", "Winter", 1),
      MonthSlice("December", "Winter", 1), MonthSlice("November", "Fall", 1),
      MonthSlice("October", "Fall", 1), MonthSlice("September", "Fall", 1),
      MonthSlice("August", "Summer", 1), MonthSlice("July", "Summer", 1),
      MonthSlice("June", "Summer", 1), MonthSlice("May", "Spring", 1),
      MonthSlice("April", "Spring", 1), MonthSlice("March", "Spring", 1)]
  {
  }

  /** The outer ring has four slices of weight 3 each; they add up to the
      twelve month slices, so every season covers a quarter of the ring and
      every month a twelfth. */
  lemma StaticSeasonShares()
    ensures |SeasonData| == 4
    ensures Total(SeasonData) == |MonthData| == 12
    ensures forall k :: 0 <= k < |SeasonData| ==> 4 * SeasonData[k].value == Total(SeasonData)
  {
    SeasonRingTotal(Seasons);
  }

  /** No colour or plant lookup made while rendering the rings or the
      hovered month's plants misses. */
  lemma StaticLookupsNeverMiss()
    ensures forall i :: 0 <= i < |MonthData| ==>
      MonthData[i].name in PlantData && MonthData[i].season in SeasonColors
    ensures forall k :: 0 <= k < |SeasonData| ==> SeasonData[k].name in SeasonColors
  {
    StaticLookupsTotal();
    RingLookupsTotal(Seasons, PlantData, SeasonColors);
  }

  /** A month slice's season field is exact: the one season of the table
      whose month list contains the slice's month is the season it names. */
  lemma StaticSeasonOfMonth()
    ensures forall i, k :: 0 <= i < |MonthData| && 0 <= k < |Seasons| ==>
      (MonthData[i].name in Seasons[k].months <==> Seasons[k].name == MonthData[i].season)
  {
    StaticMonthOrder();
  }

  /** The inner ring's slices are the twelve plant-table months, each once:
      no two slices share a month, and the slices' months are exactly the
      keys of the plant table. */
  lemma StaticMonthDataPartition()
    ensures |MonthData| == 12
    ensures forall a, b :: 0 <= a < b < |MonthData| ==> MonthData[a].name != MonthData[b].name
    ensures (set i | 0 <= i < |MonthData| :: MonthData[i].name) == PlantData.Keys
  {
    MonthRingNames(Seasons);
    StaticMonthsDistinct();
    StaticMonthsAreKeys();
    var names := Names(MonthData);
    assert forall a, b :: 0 <= a < b < |MonthData| ==> names[a] != names[b];
    assert (set i | 0 <= i < |MonthData| :: MonthData[i].name) == (set m | m in names);
  }
}
