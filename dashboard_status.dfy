/**
  The values the dashboard's stat cards derive from the power series: the
  latest reading, the battery percentage, the live generation and
  consumption, the grid status with its colour, and the battery trend label.
*/
module DashboardStatus {
  import opened Wrappers
  import opened TimeOrder
  import opened PowerSeries

  /** The tail of the series; the source uses an empty object when there is none. */
  function Latest(series: seq<PowerReading>): (r: Option<PowerReading>)
    ensures r == None <==> series == []
    ensures r.Some? ==> r.value == series[|series| - 1]
  {
    if |series| > 0 then Some(series[|series| - 1]) else None
  }

  /** `latestData.battery || 0`: the latest battery percentage, or 0 with no reading. */
  function BatteryStatus(series: seq<PowerReading>): (r: int)
    ensures series == [] ==> r == 0
    ensures series != [] ==> r == series[|series| - 1].battery
  {
    match Latest(series)
    case None => 0
    case Some(x) => x.battery
  }

  /** `latestData.generation || 0`, shown on the "Live Generation" card. */
  function LiveGeneration(series: seq<PowerReading>): (r: int)
    ensures series == [] ==> r == 0
    ensures series != [] ==> r == series[|series| - 1].generation
  {
    match Latest(series)
    case None => 0
    case Some(x) => x.generation
  }

  /** `latestData.consumption || 0`, shown on the "Consumption" card. */
  function LiveConsumption(series: seq<PowerReading>): (r: int)
    ensures series == [] ==> r == 0
    ensures series != [] ==> r == series[|series| - 1].consumption
  {
    match Latest(series)
    case None => 0
    case Some(x) => x.consumption
  }

  /**
    "Exporting" when the latest reading generates more than it consumes,
    "Importing" otherwise, including when there is no reading (the source then
    compares `undefined > undefined`, which is false).
  */
  function GridStatus(series: seq<PowerReading>): (r: string)
    ensures r == "Exporting" || r == "Importing"
    ensures r == "Exporting" <==>
      series != [] && series[|series| - 1].generation > series[|series| - 1].consumption
  {
    match Latest(series)
    case Some(x) => if x.generation > x.consumption then "Exporting" else "Importing"
    case None => "Importing"
  }

  /** The grid card is green when exporting and red otherwise. */
  function GridColor(status: string): (r: string)
    ensures r == "green" || r == "red"
    ensures r == "green" <==> status == "Exporting"
  {
    if status == "Exporting" then "green" else "red"
  }

  /** The battery card's trend label: "Full" above 99 percent, "Charging" otherwise. */
  function BatteryTrend(battery: int): (r: string)
    ensures r == "Full" || r == "Charging"
    ensures r == "Full" <==> battery > 99
  {
    if battery > 99 then "Full" else "Charging"
  }

  /** In a sorted series the latest reading has the latest time. */
  lemma LatestHasLatestTime(series: seq<PowerReading>, i: nat)
    requires Sorted(series) && i < |series|
    ensures Latest(series).Some? && NoLater(series[i], Latest(series).value)
  {
    SortedAllPairs(series, i, |series| - 1);
  }

  /**
    Entering a reading at or after every time already in a sorted series makes
    it the one the cards show.
  */
  lemma AddedLatestIsShown(series: seq<PowerReading>, p: PowerReading)
    requires Sorted(series)
    requires forall i :: 0 <= i < |series| ==> NoLater(series[i], p)
    ensures Latest(StableSort(series + [p])) == Some(p)
    ensures BatteryStatus(StableSort(series + [p])) == p.battery
    ensures GridStatus(StableSort(series + [p])) == "Exporting" <==> p.generation > p.consumption
  {
    var s := series + [p];
    assert Sorted(s) by {
      if series != [] {
        assert NoLater(series[|series| - 1], p);
      }
    }
    StableSortOfSorted(s);
    assert s[|s| - 1] == p;
  }

  /**
    Entering a reading earlier than the latest one of a sorted series leaves the
    cards showing the same reading.
  */
  lemma AddedEarlierLeavesLatest(series: seq<PowerReading>, p: PowerReading)
    requires Sorted(series) && series != []
    requires !NoLater(series[|series| - 1], p)
    ensures Latest(StableSort(series + [p])) == Latest(series)
  {
    AddToSortedSeries(series, p);
    var j := InsertionPoint(series, p);
    InsertShape(series, p);
    assert j < |series|;
    var r := series[..j] + [p] + series[j..];
    assert r[|r| - 1] == series[|series| - 1];
  }
}
