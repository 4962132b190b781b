/** `MainWindowViewModel` (MyInternetChecker/ViewModels/MainWindowViewModel.cs):
    the timer tick that probes every configured host, the blinking indicator
    and the map of the latest ping times. The configured hosts
    (`Config.HostsToCheck`) are passed in at each call; an asynchronous tick
    is a begin step (the single-flight guard) and an end step that receives
    the results `Task.WhenAll` produced. */
module MainWindowViewModel {
  import opened Text
  import opened ProbeResults

  /** `UpdatePingResultsDictionary`'s new map: exactly the configured hosts,
      each keeping its stored time, or -1 when it had none. */
  function Reconciled(m: PingMap, hosts: seq<string>): (r: PingMap)
    ensures forall h :: h in r <==> h in hosts
    ensures forall h :: h in r ==> r[h] == Lookup(m, h)
  {
    map h | h in hosts :: Lookup(m, h)
  }

  class MainWindowViewModel {
    /** `_BlinkCount`: 0 or 1, flipping on every completed tick. */
    var blinkCount: int
    /** `_IsChecking`: a tick is in progress. */
    var isChecking: bool
    /** `_PingResults`. */
    var pingResults: PingMap
    /** `IndicatorFill`. */
    var indicatorFill: Brush

    predicate Valid()
      reads this
    {
      0 <= blinkCount <= 1
    }

    /** The constructor: a map of -1 for every configured host, a red
        indicator, no tick in progress. */
    constructor(hosts: seq<string>)
      ensures Valid() && blinkCount == 0 && !isChecking && indicatorFill == DarkRed
      ensures pingResults == Reconciled(map[], hosts)
    {
      blinkCount := 0;
      isChecking := false;
      indicatorFill := DarkRed;
      pingResults := map[];
      new;
      UpdatePingResultsDictionary(hosts);
    }

    /** `UpdatePingResultsDictionary`: rebuilds the map for the configured hosts. */
    method UpdatePingResultsDictionary(hosts: seq<string>)
      modifies this
      ensures pingResults == Reconciled(old(pingResults), hosts)
      ensures blinkCount == old(blinkCount) && isChecking == old(isChecking) && indicatorFill == old(indicatorFill)
    {
      var newResults: PingMap := map[];
      for i := 0 to |hosts|
        invariant newResults == Reconciled(pingResults, hosts[..i])
      {
        assert hosts[..i + 1] == hosts[..i] + [hosts[i]];
        var host := hosts[i];
        newResults := newResults[host := if host in pingResults then pingResults[host] else -1];
      }
      assert hosts[..|hosts|] == hosts;
      pingResults := newResults;
    }

    /** `CheckInternetConnectionAsync` after `Task.WhenAll`: stores each
        host's result and reports whether any probe answered. */
    method CheckInternetConnection(hosts: seq<string>, results: seq<int64>) returns (any: bool)
      requires |results| == |hosts|
      modifies this
      ensures pingResults == Written(old(pingResults), hosts, results)
      ensures any <==> AnyNonNegative(results)
      ensures blinkCount == old(blinkCount) && isChecking == old(isChecking) && indicatorFill == old(indicatorFill)
    {
      any := false;
      for i := 0 to |hosts|
        invariant pingResults == Written(old(pingResults), hosts[..i], results[..i])
        invariant any <==> AnyNonNegative(results[..i])
        invariant blinkCount == old(blinkCount) && isChecking == old(isChecking) && indicatorFill == old(indicatorFill)
      {
        WrittenStep(old(pingResults), hosts, results, i);
        assert results[..i + 1] == results[..i] + [results[i]];
        pingResults := pingResults[hosts[i] := results[i]];
        if results[i] >= 0 {
          any := true;
        }
      }
      assert hosts[..|hosts|] == hosts && results[..|results|] == results;
    }

    /** The start of `TimerTickAsync`: a tick arriving while another is in
        progress does nothing; otherwise it marks a tick in progress. */
    method BeginTick() returns (proceed: bool)
      modifies this
      ensures proceed <==> !old(isChecking)
      ensures isChecking
      ensures blinkCount == old(blinkCount) && pingResults == old(pingResults) && indicatorFill == old(indicatorFill)
    {
      if isChecking {
        return false;
      }
      isChecking := true;
      proceed := true;
    }

    /** The rest of `TimerTickAsync`, once the probes are back: store the
        results, paint the indicator, flip the blink counter, and clear the
        guard. */
    method EndTick(hosts: seq<string>, results: seq<int64>)
      requires Valid() && |results| == |hosts|
      modifies this
      ensures Valid() && !isChecking
      ensures pingResults == Written(old(pingResults), hosts, results)
      ensures indicatorFill == BlinkFill(AnyNonNegative(results), old(blinkCount))
      ensures blinkCount == 1 - old(blinkCount)
    {
      var internetAvailable := CheckInternetConnection(hosts, results);
      indicatorFill := if internetAvailable then (if blinkCount == 0 then DarkGreen else SlateGray)
                       else (if blinkCount == 0 then DarkRed else SlateGray);
      blinkCount := (blinkCount + 1) % 2;
      isChecking := false;
    }

    /** `ApplyHostsChangedAsync` with the reloaded hosts: reconcile the map,
        reset the blink, check at once, then paint green iff any stored time
        is at least 0. */
    method ApplyHostsChanged(hosts: seq<string>, results: seq<int64>)
      requires |results| == |hosts|
      modifies this
      ensures pingResults == Written(Reconciled(old(pingResults), hosts), hosts, results)
      ensures blinkCount == 0 && Valid() && isChecking == old(isChecking)
      ensures indicatorFill == if AnyStoredOnline(pingResults) then DarkGreen else DarkRed
    {
      UpdatePingResultsDictionary(hosts);
      blinkCount := 0;
      var _ := CheckInternetConnection(hosts, results);
      var anyOnline := exists h :: h in pingResults && pingResults[h] >= 0;
      indicatorFill := if anyOnline then DarkGreen else DarkRed;
    }

    /** The overall status `UpdateToolTip` shows: online iff some configured
        host has a stored time of at least 0. */
    method ToolTipOnline(hosts: seq<string>) returns (anyOnline: bool)
      ensures anyOnline <==> AnyOnline(pingResults, hosts)
    {
      anyOnline := ScanOnline(pingResults, hosts);
    }
  }

  // ---------------------------------------------------------------------------
  // Properties
  // ---------------------------------------------------------------------------

  /** Reconciling twice for the same hosts changes nothing more. */
  lemma ReconciledIdempotent(m: PingMap, hosts: seq<string>)
    ensures Reconciled(Reconciled(m, hosts), hosts) == Reconciled(m, hosts)
  {
  }

  /** After the hosts change, with distinct hosts, the indicator turns green
      iff some probe answered: the reconciled map holds only the configured
      hosts, each with its fresh result. */
  lemma AppliedGreenIff(m: PingMap, hosts: seq<string>, results: seq<int64>)
    requires |results| == |hosts|
    requires forall i, j :: 0 <= i < j < |hosts| ==> hosts[i] != hosts[j]
    ensures AnyStoredOnline(Written(Reconciled(m, hosts), hosts, results)) <==> AnyNonNegative(results)
  {
    var w := Written(Reconciled(m, hosts), hosts, results);
    WrittenKeys(Reconciled(m, hosts), hosts, results);
    WrittenDistinct(Reconciled(m, hosts), hosts, results);
    if AnyStoredOnline(w) {
      var h :| h in w && w[h] >= 0;
      assert h in hosts;
      var i :| 0 <= i < |hosts| && hosts[i] == h;
      assert results[i] >= 0;
    }
    if AnyNonNegative(results) {
      var i :| 0 <= i < |results| && results[i] >= 0;
      assert hosts[i] in w;
    }
  }
}
