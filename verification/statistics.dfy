/**
  The statistics recorder (src/statistics): immutable data points, labelled
  time series that map timestamps to values, and a get-or-create collection
  of series.  Values are only stored and handed back, so `f64` becomes `real`.
*/
module Statistics {
  import opened Wrappers
  import opened Text

  // ---------------------------------------------------------------- data_point.rs

  /** A data point is written once and then only read: a Dafny value. */
  datatype DataPoint = DataPoint(timestamp: nat, value: real, unit: string) {
    function GetTimestamp(): nat { timestamp }
    function GetValue(): real { value }
    function GetUnit(): string { unit }
  }

  /** `DataPoint::new`: each getter gives back what was passed in. */
  function NewDataPoint(timestamp: nat, value: real, unit: string): (p: DataPoint)
    ensures p.GetTimestamp() == timestamp && p.GetValue() == value && p.GetUnit() == unit
  {
    DataPoint(timestamp, value, unit)
  }

  // ---------------------------------------------------------------- timeseries.rs

  /** The unit a series has before its unit is known. */
  const UnknownUnit: string := "Unknown"

  /** A series with the given label, no points and an unknown unit. */
  function EmptySeries(name: string): SeriesView {
    SeriesView(name, UnknownUnit, map[])
  }

  /** The value held by a `TimeSeries`: its label, its unit and its ordered map. */
  datatype SeriesView = SeriesView(statisticLabel: string, unit: string, series: map<nat, real>) {

    /** What `add_data_point` does to a series. */
    function WithPoint(p: DataPoint): SeriesView {
      SeriesView(statisticLabel, if unit == UnknownUnit then p.unit else unit, series[p.timestamp := p.value])
    }

    /** Several points added one after the other. */
    function WithPoints(ps: seq<DataPoint>): SeriesView
      decreases |ps|
    {
      if ps == [] then this else WithPoint(ps[0]).WithPoints(ps[1..])
    }

    /**
      The lines of the `Display` rendering: a rule of '=' as long as the label,
      the label, the rule again, the heading "Timestamp | unit", then one row
      per entry, the i-th row for the i-th smallest timestamp (see
      `SortedKeys`).  How `f64` prints is left to `renderValue`.
    */
    function Lines(renderValue: real -> string): (lines: seq<string>)
      ensures |lines| == 4 + |series|
      ensures lines[..4] == Header(statisticLabel, unit)
      ensures forall i :: 0 <= i < |series| ==>
        var t := SortedKeys(series.Keys)[i]; t in series && lines[4 + i] == Row(t, renderValue(series[t]))
    {
      var keys := SortedKeys(series.Keys);
      assert |keys| == |series|;
      var rows := Rows(keys, series, renderValue);
      var header := Header(statisticLabel, unit);
      assert (header + rows)[..4] == header;
      assert forall i :: 0 <= i < |rows| ==>
        keys[i] in series && (header + rows)[4 + i] == Row(keys[i], renderValue(series[keys[i]]));
      header + rows
    }
  }

  /**
    The four heading lines: a rule of '=' as long as the label, the label,
    the rule again, and "Timestamp | " followed by the unit.
  */
  function Header(name: string, unit: string): (lines: seq<string>)
    ensures |lines| == 4
    ensures lines[0] == Repeat('=', |name|) + "\n" && lines[2] == lines[0]
    ensures lines[1] == name + "\n"
    ensures lines[3] == "Timestamp | " + unit + "\n"
  {
    var rule := Repeat('=', |name|) + "\n";
    [rule, name + "\n", rule, "Timestamp | " + unit + "\n"]
  }

  /** The heading lines as one text. */
  function HeadingText(name: string, unit: string): string {
    var rule := Repeat('=', |name|) + "\n";
    rule + (name + "\n") + rule + ("Timestamp | " + unit + "\n")
  }

  lemma HeaderText(name: string, unit: string)
    ensures Concat(Header(name, unit)) == HeadingText(name, unit)
  {
    var h := Header(name, unit);
    assert h[..3][..2] == h[..2] && h[..2][..1] == h[..1] && h[..1][..0] == [];
    assert Concat(h[..1]) == h[0] by {
      assert "" + h[0] == h[0];
    }
    assert Concat(h[..2]) == h[0] + h[1];
    assert Concat(h[..3]) == h[0] + h[1] + h[2];
    assert Concat(h) == h[0] + h[1] + h[2] + h[3];
  }

  /**
    Adding a point keeps the label, maps its timestamp to its value, leaves
    every other entry alone, grows the map only for a new timestamp, and
    takes the point's unit only while the unit is still unknown.
  */
  lemma WithPointFacts(v: SeriesView, p: DataPoint)
    ensures v.WithPoint(p).statisticLabel == v.statisticLabel
    ensures v.WithPoint(p).series[p.timestamp] == p.value
    ensures v.WithPoint(p).series.Keys == v.series.Keys + {p.timestamp}
    ensures forall t :: t in v.series && t != p.timestamp ==> v.WithPoint(p).series[t] == v.series[t]
    ensures |v.WithPoint(p).series| == if p.timestamp in v.series then |v.series| else |v.series| + 1
    ensures v.unit != UnknownUnit ==> v.WithPoint(p).unit == v.unit
    ensures v.unit == UnknownUnit ==> v.WithPoint(p).unit == p.unit
  {
    var m := v.WithPoint(p).series;
    if p.timestamp in v.series {
      assert m.Keys == v.series.Keys;
    } else {
      assert m.Keys == v.series.Keys + {p.timestamp};
    }
  }

  /** Once a series knows its unit, no later point changes it, nor the label. */
  lemma {:induction false} UnitFixedOnceKnown(v: SeriesView, ps: seq<DataPoint>)
    requires v.unit != UnknownUnit
    ensures v.WithPoints(ps).unit == v.unit && v.WithPoints(ps).statisticLabel == v.statisticLabel
    decreases |ps|
  {
    if ps != [] {
      UnitFixedOnceKnown(v.WithPoint(ps[0]), ps[1..]);
    }
  }

  /** A non-empty key set has a largest key. */
  lemma {:induction false} LargestExists(keys: set<nat>) returns (m: nat)
    requires keys != {}
    ensures m in keys && forall k :: k in keys ==> k <= m
    decreases |keys|
  {
    var x :| x in keys;
    var rest := keys - {x};
    assert forall k :: k in keys ==> k == x || k in rest;
    if rest == {} {
      m := x;
    } else {
      var hi := LargestExists(rest);
      m := if x <= hi then hi else x;
    }
  }

  /** A non-empty key set has a smallest key. */
  lemma {:induction false} SmallestExists(keys: set<nat>) returns (m: nat)
    requires keys != {}
    ensures m in keys && forall k :: k in keys ==> m <= k
    decreases |keys|
  {
    var x :| x in keys;
    var rest := keys - {x};
    assert forall k :: k in keys ==> k == x || k in rest;
    if rest == {} {
      m := x;
    } else {
      var lo := SmallestExists(rest);
      m := if lo <= x then lo else x;
    }
  }

  /** The largest key of a non-empty key set. */
  function MaxKey(keys: set<nat>): (m: nat)
    requires keys != {}
    ensures m in keys && forall k :: k in keys ==> k <= m
  {
    assert exists m :: m in keys && forall k :: k in keys ==> k <= m by {
      var w := LargestExists(keys);
    }
    var m :| m in keys && forall k :: k in keys ==> k <= m;
    m
  }

  /** The smallest key of a non-empty key set. */
  function MinKey(keys: set<nat>): (m: nat)
    requires keys != {}
    ensures m in keys && forall k :: k in keys ==> m <= k
  {
    assert exists m :: m in keys && forall k :: k in keys ==> m <= k by {
      var w := SmallestExists(keys);
    }
    var m :| m in keys && forall k :: k in keys ==> m <= k;
    m
  }

  /** The keys in ascending order, as a `BTreeMap` iterates them. */
  function SortedKeys(keys: set<nat>): (r: seq<nat>)
    ensures |r| == |keys|
    ensures forall i :: 0 <= i < |r| ==> r[i] in keys
    ensures forall k :: k in keys ==> k in r
    ensures forall i, j :: 0 <= i < j < |r| ==> r[i] < r[j]
    decreases |keys|
  {
    if keys == {} then []
    else
      var m := MinKey(keys);
      var rest := SortedKeys(keys - {m});
      PrependSmallest(keys, m, rest);
      [m] + rest
  }

  /** Putting the smallest key in front of the others, sorted, sorts them all. */
  lemma PrependSmallest(keys: set<nat>, m: nat, rest: seq<nat>)
    requires m in keys && forall k :: k in keys ==> m <= k
    requires |rest| == |keys - {m}|
    requires forall i :: 0 <= i < |rest| ==> rest[i] in keys - {m}
    requires forall k :: k in keys - {m} ==> k in rest
    requires forall i, j :: 0 <= i < j < |rest| ==> rest[i] < rest[j]
    ensures |[m] + rest| == |keys|
    ensures forall i :: 0 <= i < |[m] + rest| ==> ([m] + rest)[i] in keys
    ensures forall k :: k in keys ==> k in [m] + rest
    ensures forall i, j :: 0 <= i < j < |[m] + rest| ==> ([m] + rest)[i] < ([m] + rest)[j]
  {
    assert forall j :: 0 <= j < |rest| ==> m < rest[j];
  }

  /** One row of the table: the timestamp left-aligned in nine columns, then the value. */
  function Row(timestamp: nat, rendered: string): string {
    PadRight(NatToString(timestamp), 9) + " | " + rendered + "\n"
  }

  /** One row per key, in the order of `keys`. */
  function Rows(keys: seq<nat>, entries: map<nat, real>, renderValue: real -> string): (rows: seq<string>)
    requires forall i :: 0 <= i < |keys| ==> keys[i] in entries
    ensures |rows| == |keys|
    ensures forall i :: 0 <= i < |keys| ==> rows[i] == Row(keys[i], renderValue(entries[keys[i]]))
  {
    seq(|keys|, i requires 0 <= i < |keys| => Row(keys[i], renderValue(entries[keys[i]])))
  }

  class TimeSeries {
    var statisticLabel: string
    var unit: string
    var series: map<nat, real>

    /** `TimeSeries::new`: the given label, unit "Unknown", no entries. */
    constructor (statisticLabel: string)
      ensures this.statisticLabel == statisticLabel && unit == UnknownUnit && series == map[]
    {
      this.statisticLabel := statisticLabel;
      unit := UnknownUnit;
      series := map[];
    }

    function View(): SeriesView
      reads this
    {
      SeriesView(statisticLabel, unit, series)
    }

    /** `add_data_point` (see `SeriesView.WithPoint` and `WithPointFacts`). */
    method AddDataPoint(p: DataPoint)
      modifies this
      ensures View() == old(View()).WithPoint(p)
    {
      if unit == UnknownUnit {
        unit := p.GetUnit();
      }
      series := series[p.GetTimestamp() := p.GetValue()];
    }

    /**
      `get_last_value`: the value at the largest timestamp, which need not be
      the one added last.  `None` stands for the panic on an empty series.
    */
    function GetLastValue(): (r: Option<real>)
      reads this
      ensures r.None? <==> series == map[]
      ensures r.Some? ==> exists t :: t in series && series[t] == r.value && forall k :: k in series ==> k <= t
    {
      if series == map[] then None
      else
        var t := MaxKey(series.Keys);
        Some(series[t])
    }

    /**
      `Display::fmt`: the lines of `SeriesView.Lines` one after the other.
      The text opens with the four heading lines, and a series without
      entries renders as just those.
    */
    function Render(renderValue: real -> string): (s: string)
      reads this
      ensures |HeadingText(statisticLabel, unit)| <= |s|
      ensures s[..|HeadingText(statisticLabel, unit)|] == HeadingText(statisticLabel, unit)
      ensures series == map[] ==> s == HeadingText(statisticLabel, unit)
    {
      var lines := View().Lines(renderValue);
      ConcatAppend(lines[..4], lines[4..]);
      assert lines[..4] + lines[4..] == lines;
      HeaderText(statisticLabel, unit);
      Concat(lines)
    }
  }

  // ---------------------------------------------------------------- stats.rs

  /** The index of the first series labelled `name`, if any. */
  function FirstWithLabel(views: seq<SeriesView>, name: string): (r: Option<nat>)
    ensures r.None? <==> forall i :: 0 <= i < |views| ==> views[i].statisticLabel != name
    ensures r.Some? ==> r.value < |views| && views[r.value].statisticLabel == name
    ensures r.Some? ==> forall i :: 0 <= i < r.value ==> views[i].statisticLabel != name
    decreases |views|
  {
    if views == [] then None
    else if views[0].statisticLabel == name then Some(0)
    else
      match FirstWithLabel(views[1..], name)
      case None => None
      case Some(i) => Some(i + 1)
  }

  /**
    What `add_statistic` does to the list of series: the first series with
    this label receives the point; when there is none, a new series with this
    label is appended and receives it.
  */
  function AddedStatistic(views: seq<SeriesView>, p: DataPoint, name: string): seq<SeriesView>
    decreases |views|
  {
    if views == [] then [EmptySeries(name).WithPoint(p)]
    else if views[0].statisticLabel == name then [views[0].WithPoint(p)] + views[1..]
    else [views[0]] + AddedStatistic(views[1..], p, name)
  }

  /** Labels are pairwise distinct. */
  ghost predicate DistinctLabels(views: seq<SeriesView>) {
    forall i, j :: 0 <= i < j < |views| ==> views[i].statisticLabel != views[j].statisticLabel
  }

  /**
    With the label present, only the first series with that label receives
    the point; the number of series and every other series stay as they were.
  */
  lemma {:induction false} AddToExistingSeries(views: seq<SeriesView>, p: DataPoint, name: string, i: nat)
    requires i < |views| && views[i].statisticLabel == name
    requires forall k :: 0 <= k < i ==> views[k].statisticLabel != name
    ensures AddedStatistic(views, p, name) == views[i := views[i].WithPoint(p)]
    decreases i
  {
    if i == 0 {
      assert [views[0].WithPoint(p)] + views[1..] == views[0 := views[0].WithPoint(p)];
    } else {
      AddToExistingSeries(views[1..], p, name, i - 1);
      assert [views[0]] + views[1..][i - 1 := views[i].WithPoint(p)] == views[i := views[i].WithPoint(p)];
    }
  }

  /**
    With the label absent, one series is appended after the others: it has
    that label, holds just this point and takes the point's unit.
  */
  lemma {:induction false} AddToNewSeries(views: seq<SeriesView>, p: DataPoint, name: string)
    requires forall k :: 0 <= k < |views| ==> views[k].statisticLabel != name
    ensures AddedStatistic(views, p, name) == views + [SeriesView(name, p.unit, map[p.timestamp := p.value])]
    decreases |views|
  {
    if views != [] {
      AddToNewSeries(views[1..], p, name);
      assert [views[0]] + (views[1..] + [SeriesView(name, p.unit, map[p.timestamp := p.value])])
        == views + [SeriesView(name, p.unit, map[p.timestamp := p.value])];
    }
  }

  /** Get-or-create never introduces a second series with the same label. */
  lemma AddKeepsLabelsDistinct(views: seq<SeriesView>, p: DataPoint, name: string)
    requires DistinctLabels(views)
    ensures DistinctLabels(AddedStatistic(views, p, name))
  {
    var r := AddedStatistic(views, p, name);
    match FirstWithLabel(views, name)
    case Some(i) =>
      AddToExistingSeries(views, p, name, i);
      assert forall k :: 0 <= k < |r| ==> r[k].statisticLabel == views[k].statisticLabel;
    case None =>
      AddToNewSeries(views, p, name);
      assert forall k :: 0 <= k < |views| ==> r[k] == views[k];
  }

  /** After adding, the lookup by the label lands on the series that received the point. */
  lemma AddedSeriesIsFirst(views: seq<SeriesView>, p: DataPoint, name: string, i: nat)
    requires FirstWithLabel(views, name) == Some(i) || (FirstWithLabel(views, name).None? && i == |views|)
    ensures i < |AddedStatistic(views, p, name)|
    ensures FirstWithLabel(AddedStatistic(views, p, name), name) == Some(i)
    ensures AddedStatistic(views, p, name)[i] ==
      if i < |views| then views[i].WithPoint(p) else EmptySeries(name).WithPoint(p)
  {
    var r := AddedStatistic(views, p, name);
    if i < |views| {
      AddToExistingSeries(views, p, name, i);
      assert forall k :: 0 <= k < |r| ==> r[k].statisticLabel == views[k].statisticLabel;
    } else {
      AddToNewSeries(views, p, name);
      assert r[|views|].statisticLabel == name;
      assert forall k :: 0 <= k < |views| ==> r[k] == views[k];
    }
  }

  /** After adding, looking the label up finds a series that maps the point's timestamp to its value. */
  lemma AddedPointIsFound(views: seq<SeriesView>, p: DataPoint, name: string)
    ensures FirstWithLabel(AddedStatistic(views, p, name), name).Some?
    ensures var r := AddedStatistic(views, p, name);
      var i := FirstWithLabel(r, name).value;
      p.timestamp in r[i].series && r[i].series[p.timestamp] == p.value
  {
    var i := match FirstWithLabel(views, name) case Some(j) => j case None => |views|;
    AddedSeriesIsFirst(views, p, name, i);
  }

  /**
    The recorder.  The vector of series owns its series, so the model holds
    them as values: adding to a series replaces its slot.
  */
  class Stats {
    var allSeries: seq<SeriesView>

    /** `Stats::new`: no series. */
    constructor ()
      ensures allSeries == []
    {
      allSeries := [];
    }

    /**
      `add_statistic`: the point goes to the first series with this label, or
      to a new series appended at the end (see `AddedStatistic` and the
      lemmas after it).
    */
    method AddStatistic(p: DataPoint, name: string)
      modifies this
      ensures allSeries == AddedStatistic(old(allSeries), p, name)
    {
      var found := false;
      var i := 0;
      while i < |allSeries|
        invariant 0 <= i <= |allSeries|
        invariant allSeries == old(allSeries)
        invariant forall k :: 0 <= k < i ==> allSeries[k].statisticLabel != name
      {
        if allSeries[i].statisticLabel == name {
          AddToExistingSeries(allSeries, p, name, i);
          allSeries := allSeries[i := allSeries[i].WithPoint(p)];
          found := true;
          break;
        }
        i := i + 1;
      }
      if !found {
        AddToNewSeries(allSeries, p, name);
        allSeries := allSeries + [EmptySeries(name).WithPoint(p)];
      }
    }

    /** `get_series_by_name`: the first series whose label matches, `None` when none does. */
    function GetSeriesByName(name: string): (r: Option<SeriesView>)
      reads this
      ensures r.None? <==> forall i :: 0 <= i < |allSeries| ==> allSeries[i].statisticLabel != name
      ensures r.Some? ==> exists i :: (0 <= i < |allSeries| && allSeries[i] == r.value &&
        r.value.statisticLabel == name && forall k :: 0 <= k < i ==> allSeries[k].statisticLabel != name)
    {
      match FirstWithLabel(allSeries, name)
      case None => None
      case Some(i) => Some(allSeries[i])
    }
  }
}
