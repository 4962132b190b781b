/** What the three tick loops (MyInternetChecker/ViewModels/MainWindowViewModel.cs,
    MyInternetChecker/MainWindow.xaml.cs and MainWindow.xaml.cs) share: the
    per-host map of the latest ping times, the indicator colours, and the
    "any host reachable" tests. `Task.WhenAll` gives one result per host of
    the snapshot, in the same order; -1 means unreachable. */
module ProbeResults {
  import opened Text

  /** The indicator brushes the windows use. */
  datatype Brush = DarkGreen | DarkRed | SlateGray | Gray

  /** `Dictionary<string, long>` of the latest ping time per host. */
  type PingMap = map<string, int64>

  /** Some probe answered. */
  predicate AnyNonNegative(results: seq<int64>) {
    exists i :: 0 <= i < |results| && results[i] >= 0
  }

  /** The host's stored time, or -1 when there is none (`TryGetValue`). */
  function Lookup(m: PingMap, host: string): int64 {
    if host in m then m[host] else -1
  }

  /** The tooltip's overall status: some configured host has a stored time
      of at least 0. */
  predicate AnyOnline(m: PingMap, hosts: seq<string>) {
    exists i :: 0 <= i < |hosts| && Lookup(m, hosts[i]) >= 0
  }

  /** `_pingResults.Values.Any(v => v >= 0)`. */
  predicate AnyStoredOnline(m: PingMap) {
    exists h :: h in m && m[h] >= 0
  }

  /** The loop of `UpdateToolTip` that decides the overall status: it looks
      each configured host up, a missing one counting as -1. */
  method ScanOnline(m: PingMap, hosts: seq<string>) returns (anyOnline: bool)
    ensures anyOnline <==> AnyOnline(m, hosts)
  {
    anyOnline := false;
    for i := 0 to |hosts|
      invariant anyOnline <==> exists j :: 0 <= j < i && Lookup(m, hosts[j]) >= 0
    {
      var pingTime := if hosts[i] in m then m[hosts[i]] else -1;
      if pingTime >= 0 {
        anyOnline := true;
      }
    }
  }

  /** The blinking indicator: green or red on even ticks, grey on odd ones. */
  function BlinkFill(online: bool, count: int): (b: Brush)
    ensures count == 0 ==> (b == DarkGreen <==> online) && (b == DarkRed <==> !online)
    ensures count != 0 ==> b == SlateGray
  {
    if online then (if count == 0 then DarkGreen else SlateGray)
    else (if count == 0 then DarkRed else SlateGray)
  }

  /** No later entry of `hosts` repeats `hosts[i]`. */
  predicate LastOccurrence(hosts: seq<string>, i: int)
    requires 0 <= i < |hosts|
  {
    forall j :: i < j < |hosts| ==> hosts[j] != hosts[i]
  }

  /** The map after `_pingResults[hosts[i]] = results[i]` for each `i` in
      order. */
  function Written(m: PingMap, hosts: seq<string>, results: seq<int64>): PingMap
    requires |hosts| == |results|
  {
    if hosts == [] then m
    else
      var n := |hosts| - 1;
      Written(m, hosts[..n], results[..n])[hosts[n] := results[n]]
  }

  /** One more host written: the step the loops take. */
  lemma WrittenStep(m: PingMap, hosts: seq<string>, results: seq<int64>, i: nat)
    requires |hosts| == |results| && i < |hosts|
    ensures Written(m, hosts[..i + 1], results[..i + 1]) == Written(m, hosts[..i], results[..i])[hosts[i] := results[i]]
  {
    assert hosts[..i + 1][..i] == hosts[..i] && results[..i + 1][..i] == results[..i];
  }

  // ---------------------------------------------------------------------------
  // Properties
  // ---------------------------------------------------------------------------

  /** Writing adds exactly the hosts written, and entries of other hosts
      stay as they were. */
  lemma {:induction false} WrittenKeys(m: PingMap, hosts: seq<string>, results: seq<int64>)
    requires |hosts| == |results|
    ensures var r := Written(m, hosts, results);
      && (forall h :: h in r <==> h in m || h in hosts)
      && (forall h :: h in m && h !in hosts ==> r[h] == m[h])
  {
    if hosts != [] {
      var n := |hosts| - 1;
      WrittenKeys(m, hosts[..n], results[..n]);
      assert hosts == hosts[..n] + [hosts[n]];
    }
  }

  /** Every host gets the result of its last occurrence. */
  lemma {:induction false} WrittenLast(m: PingMap, hosts: seq<string>, results: seq<int64>)
    requires |hosts| == |results|
    ensures forall i :: 0 <= i < |hosts| && LastOccurrence(hosts, i) ==>
      hosts[i] in Written(m, hosts, results) && Written(m, hosts, results)[hosts[i]] == results[i]
  {
    if hosts != [] {
      var n := |hosts| - 1;
      var before := Written(m, hosts[..n], results[..n]);
      WrittenLast(m, hosts[..n], results[..n]);
      forall i | 0 <= i < n && LastOccurrence(hosts, i)
        ensures hosts[i] in Written(m, hosts, results) && Written(m, hosts, results)[hosts[i]] == results[i]
      {
        assert hosts[i] != hosts[n];
        assert LastOccurrence(hosts[..n], i);
        assert hosts[..n][i] == hosts[i] && results[..n][i] == results[i];
      }
    }
  }

  /** With distinct hosts, every host holds its own result. */
  lemma WrittenDistinct(m: PingMap, hosts: seq<string>, results: seq<int64>)
    requires |hosts| == |results|
    requires forall i, j :: 0 <= i < j < |hosts| ==> hosts[i] != hosts[j]
    ensures forall i :: 0 <= i < |hosts| ==> hosts[i] in Written(m, hosts, results) && Written(m, hosts, results)[hosts[i]] == results[i]
  {
    WrittenLast(m, hosts, results);
    assert forall i :: 0 <= i < |hosts| ==> LastOccurrence(hosts, i);
  }

  /** With distinct hosts, the tooltip says online right after a check iff
      some probe answered. */
  lemma OnlineAfterCheck(m: PingMap, hosts: seq<string>, results: seq<int64>)
    requires |hosts| == |results|
    requires forall i, j :: 0 <= i < j < |hosts| ==> hosts[i] != hosts[j]
    ensures AnyOnline(Written(m, hosts, results), hosts) <==> AnyNonNegative(results)
  {
    WrittenDistinct(m, hosts, results);
    var w := Written(m, hosts, results);
    assert forall i :: 0 <= i < |hosts| ==> Lookup(w, hosts[i]) == results[i];
  }

  /** A repeated host keeps only its last result, so a check can answer
      "available" while the host's stored time says otherwise. */
  lemma RepeatedHostLastWins()
    ensures var w := Written(map[], ["ya.ru", "ya.ru"], [5, -1]);
      AnyNonNegative([5, -1]) && w["ya.ru"] == -1 && !AnyStoredOnline(w)
  {
    var hosts: seq<string> := ["ya.ru", "ya.ru"];
    var results: seq<int64> := [5, -1];
    assert hosts[..1] == ["ya.ru"] && results[..1] == [5];
    assert ["ya.ru"][..0] == [] && [5][..0] == [];
    assert Written(map[], ["ya.ru"], [5]) == map["ya.ru" := 5];
    assert Written(map[], hosts, results) == map["ya.ru" := -1];
  }

  /** An entry of a host no longer checked counts for `AnyStoredOnline`. */
  lemma StaleEntryCounts(m: PingMap, hosts: seq<string>, results: seq<int64>, stale: string)
    requires |hosts| == |results|
    requires stale in m && stale !in hosts && m[stale] >= 0
    ensures AnyStoredOnline(Written(m, hosts, results))
  {
    WrittenKeys(m, hosts, results);
    assert Written(m, hosts, results)[stale] >= 0;
  }
}
