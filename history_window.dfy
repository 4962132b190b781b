/** `HistoryWindow` (MyInternetChecker/HistoryWindow.xaml.cs): one chart
    series per configured host, seeded from the ping history and then, on
    every timer tick, extended by the newest value and capped at 100 points.
    The chart controls are left out; each series is its buffer of values. */
module HistoryWindow {
  import opened Text
  import opened SettingsModels
  import opened HistoryManager

  /** The most points a series keeps. */
  const MaxPoints: nat := 100

  type Chart = map<string, seq<int64>>

  /** `Add(latest)` then `RemoveAt(0)` when the series has grown past the cap. */
  function Append(series: seq<int64>, latest: int64): (r: seq<int64>)
    ensures |r| <= Max(MaxPoints, |series|)
    ensures 0 < |r| && |series| <= |r| <= |series| + 1
    ensures r[|r| - 1] == latest
  {
    var added := series + [latest];
    if |added| > MaxPoints then added[1..] else added
  }

  /** One host's turn in `UpdateChartData`: a host without a series, or with
      no recent history, is skipped; otherwise the last history value is
      appended. */
  function UpdateHost(chart: Chart, host: string, latestHistory: seq<int64>): (r: Chart)
    ensures forall h :: h in r <==> h in chart
    ensures forall h :: h in chart && h != host ==> r[h] == chart[h]
  {
    if host !in chart || |latestHistory| == 0 then chart
    else chart[host := Append(chart[host], latestHistory[|latestHistory| - 1])]
  }

  /** The chart after `UpdateChartData` has visited `hosts` in order: no
      series is added or dropped. */
  function Updated(chart: Chart, hosts: seq<string>, history: map<string, seq<Sample>>, now: int): (r: Chart)
    ensures forall h :: h in r <==> h in chart
  {
    if hosts == [] then chart
    else
      var host := hosts[|hosts| - 1];
      var before := Updated(chart, hosts[..|hosts| - 1], history, now);
      UpdateHost(before, host, LatestHistory(history, host, now))
  }

  /** The series the constructor creates for `hosts`: each configured host's
      recent history, the last listed copy winning for a repeated host. */
  function Seeded(hosts: seq<string>, history: map<string, seq<Sample>>, now: int): (r: Chart)
    ensures forall h :: h in r <==> h in hosts
    ensures forall h :: h in r ==> r[h] == LatestHistory(history, h, now)
  {
    if hosts == [] then map[]
    else
      var host := hosts[|hosts| - 1];
      assert hosts == hosts[..|hosts| - 1] + [host];
      Seeded(hosts[..|hosts| - 1], history, now)[host := LatestHistory(history, host, now)]
  }

  class HistoryWindow {
    /** `_chartValuesDict`: the values of each host's series. */
    var chartValues: Chart

    /** The constructor's seeding loop over `ConfigManager.Hosts`. */
    constructor(hosts: seq<string>, historyManager: HistoryManager, now: int)
      ensures chartValues == Seeded(hosts, historyManager.history, now)
    {
      var chart: Chart := map[];
      for i := 0 to |hosts|
        invariant chart == Seeded(hosts[..i], historyManager.history, now)
      {
        assert hosts[..i + 1][..i] == hosts[..i];
        var host := hosts[i];
        chart := chart[host := historyManager.GetLatestHistoryForHost(host, now)];
      }
      assert hosts[..|hosts|] == hosts;
      chartValues := chart;
    }

    /** `UpdateChartData`: one timer tick over the configured hosts. */
    method UpdateChartData(hosts: seq<string>, historyManager: HistoryManager, now: int)
      modifies this
      ensures chartValues == Updated(old(chartValues), hosts, historyManager.history, now)
    {
      for i := 0 to |hosts|
        invariant chartValues == Updated(old(chartValues), hosts[..i], historyManager.history, now)
      {
        assert hosts[..i + 1][..i] == hosts[..i];
        var host := hosts[i];
        if host !in chartValues {
          continue;
        }
        var latestHistory := historyManager.GetLatestHistoryForHost(host, now);
        if |latestHistory| == 0 {
          continue;
        }
        var values := chartValues[host] + [latestHistory[|latestHistory| - 1]];
        if |values| > MaxPoints {
          values := values[1..];
        }
        chartValues := chartValues[host := values];
      }
      assert hosts[..|hosts|] == hosts;
    }
  }

  // ---------------------------------------------------------------------------
  // Properties
  // ---------------------------------------------------------------------------

  /** A host listed once, with a series and some recent history, gains
      exactly the newest value, losing the oldest point once over the cap. */
  lemma UpdatedOnce(chart: Chart, hosts: seq<string>, history: map<string, seq<Sample>>, now: int, k: nat)
    requires k < |hosts| && hosts[k] in chart
    requires forall j :: 0 <= j < |hosts| && j != k ==> hosts[j] != hosts[k]
    requires LatestHistory(history, hosts[k], now) != []
    ensures var latest := LatestHistory(history, hosts[k], now);
      Updated(chart, hosts, history, now)[hosts[k]] == Append(chart[hosts[k]], latest[|latest| - 1])
  {
    var a, b := SplitAtOnly(hosts, k);
    UpdatedBetween(chart, a, hosts[k], b, history, now);
  }

  /** A list around an element it holds only once. */
  lemma SplitAtOnly(hosts: seq<string>, k: nat) returns (a: seq<string>, b: seq<string>)
    requires k < |hosts|
    requires forall j :: 0 <= j < |hosts| && j != k ==> hosts[j] != hosts[k]
    ensures hosts == a + [hosts[k]] + b && hosts[k] !in a && hosts[k] !in b
  {
    a, b := hosts[..k], hosts[k + 1..];
    assert hosts == a + [hosts[k]] + b;
    forall j | 0 <= j < |a| ensures a[j] != hosts[k] { assert a[j] == hosts[j]; }
    forall j | 0 <= j < |b| ensures b[j] != hosts[k] { assert b[j] == hosts[k + 1 + j]; }
  }

  /** The same, with the host's only visit between two lists not holding it. */
  lemma {:induction false} UpdatedBetween(chart: Chart, a: seq<string>, h: string, b: seq<string>,
                                          history: map<string, seq<Sample>>, now: int)
    requires h in chart && h !in a && h !in b
    requires LatestHistory(history, h, now) != []
    ensures var latest := LatestHistory(history, h, now);
      Updated(chart, a + [h] + b, history, now)[h] == Append(chart[h], latest[|latest| - 1])
  {
    if b == [] {
      assert a + [h] + b == a + [h];
      assert (a + [h])[..|a|] == a;
      UpdatedLast(chart, a + [h], history, now);
    } else {
      DropLastStillLacks(b, h);
      UpdatedBetween(chart, a, h, b[..|b| - 1], history, now);
      UpdatedAfterOther(chart, a + [h], b, history, now, h);
    }
  }

  /** Dropping the last element of a list not holding `h` leaves one not holding it. */
  lemma DropLastStillLacks(b: seq<string>, h: string)
    requires b != [] && h !in b
    ensures h !in b[..|b| - 1] && b[|b| - 1] != h
  {
    var init := b[..|b| - 1];
    forall j | 0 <= j < |init| ensures init[j] != h { assert init[j] == b[j]; }
  }

  /** Visiting one more host other than `h` after `a + b'` leaves `h`'s series. */
  lemma UpdatedAfterOther(chart: Chart, a: seq<string>, b: seq<string>,
                          history: map<string, seq<Sample>>, now: int, h: string)
    requires b != [] && h in chart && b[|b| - 1] != h
    ensures Updated(chart, a + b, history, now)[h] == Updated(chart, a + b[..|b| - 1], history, now)[h]
  {
    var hosts := a + b;
    assert hosts[..|hosts| - 1] == a + b[..|b| - 1];
    UpdatedKeepsOther(chart, hosts, history, now, h);
  }

  /** Visiting a host last leaves every other host's series as it was. */
  lemma UpdatedKeepsOther(chart: Chart, hosts: seq<string>, history: map<string, seq<Sample>>, now: int, h: string)
    requires hosts != [] && h in chart && h != hosts[|hosts| - 1]
    ensures h in Updated(chart, hosts[..|hosts| - 1], history, now)
    ensures Updated(chart, hosts, history, now)[h] == Updated(chart, hosts[..|hosts| - 1], history, now)[h]
  {
    var host := hosts[|hosts| - 1];
    UpdatedSnoc(chart, hosts, history, now);
    UpdateHostOther(Updated(chart, hosts[..|hosts| - 1], history, now), host, LatestHistory(history, host, now), h);
  }

  /** The last host visited, not visited before, gains its newest value. */
  lemma UpdatedLast(chart: Chart, hosts: seq<string>, history: map<string, seq<Sample>>, now: int)
    requires hosts != [] && hosts[|hosts| - 1] in chart
    requires hosts[|hosts| - 1] !in hosts[..|hosts| - 1]
    requires LatestHistory(history, hosts[|hosts| - 1], now) != []
    ensures var host := hosts[|hosts| - 1];
      var latest := LatestHistory(history, host, now);
      Updated(chart, hosts, history, now)[host] == Append(chart[host], latest[|latest| - 1])
  {
    var init := hosts[..|hosts| - 1];
    var host := hosts[|hosts| - 1];
    UpdatedUnchanged(chart, init, history, now, host);
    UpdatedSnoc(chart, hosts, history, now);
    UpdateHostVisited(Updated(chart, init, history, now), host, LatestHistory(history, host, now));
  }

  /** The last host visited is the last step of `Updated`. */
  lemma UpdatedSnoc(chart: Chart, hosts: seq<string>, history: map<string, seq<Sample>>, now: int)
    requires hosts != []
    ensures Updated(chart, hosts, history, now) ==
      UpdateHost(Updated(chart, hosts[..|hosts| - 1], history, now), hosts[|hosts| - 1],
                 LatestHistory(history, hosts[|hosts| - 1], now))
  {
  }

  /** A host not visited, or without recent history, keeps its series. */
  lemma {:induction false} UpdatedUnchanged(chart: Chart, hosts: seq<string>, history: map<string, seq<Sample>>, now: int, h: string)
    requires h in chart && (h !in hosts || LatestHistory(history, h, now) == [])
    ensures Updated(chart, hosts, history, now)[h] == chart[h]
  {
    if hosts != [] {
      var init := hosts[..|hosts| - 1];
      var host := hosts[|hosts| - 1];
      assert h !in hosts ==> h !in init by {
        if h in init {
          var j :| 0 <= j < |init| && init[j] == h;
          assert hosts[j] == h;
        }
      }
      UpdatedUnchanged(chart, init, history, now, h);
      UpdatedSnoc(chart, hosts, history, now);
      var before := Updated(chart, init, history, now);
      if h != host {
        UpdateHostOther(before, host, LatestHistory(history, host, now), h);
      }
    }
  }

  /** No series grows past the larger of the cap and its old length. */
  lemma {:induction false} UpdatedBounded(chart: Chart, hosts: seq<string>, history: map<string, seq<Sample>>, now: int, h: string)
    requires h in chart
    ensures |Updated(chart, hosts, history, now)[h]| <= Max(MaxPoints, |chart[h]|)
  {
    if hosts != [] {
      var init := hosts[..|hosts| - 1];
      var host := hosts[|hosts| - 1];
      UpdatedBounded(chart, init, history, now, h);
      UpdatedSnoc(chart, hosts, history, now);
      var before := Updated(chart, init, history, now);
      var latest := LatestHistory(history, host, now);
      if h != host {
        UpdateHostOther(before, host, latest, h);
      } else if latest != [] {
        UpdateHostVisited(before, host, latest);
      }
    }
  }

  /** The visited host, with a series and some history, gains its newest value. */
  lemma UpdateHostVisited(chart: Chart, host: string, latest: seq<int64>)
    requires host in chart && latest != []
    ensures UpdateHost(chart, host, latest)[host] == Append(chart[host], latest[|latest| - 1])
  {
  }

  /** Any other host keeps its series. */
  lemma UpdateHostOther(chart: Chart, host: string, latest: seq<int64>, h: string)
    requires h in chart && h != host
    ensures h in UpdateHost(chart, host, latest) && UpdateHost(chart, host, latest)[h] == chart[h]
  {
  }

  /** Below the cap a series simply grows by the newest value; at or over
      the cap exactly its oldest point makes way for the newest. */
  lemma AppendShifts(series: seq<int64>, latest: int64)
    ensures |series| < MaxPoints ==> Append(series, latest) == series + [latest]
    ensures |series| >= MaxPoints ==> Append(series, latest) == series[1..] + [latest]
  {
  }
}
