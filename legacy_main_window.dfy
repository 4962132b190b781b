/** `MainWindow` of the older layout (MainWindow.xaml.cs at the repository
    root): a blinking indicator over the fixed hosts of `Config`. The probe
    results (`Task.WhenAll`, one per host of `Config.HostsToCheck`, in order)
    are passed in; an asynchronous tick is a begin step and an end step. */
module LegacyMainWindow {
  import opened Text
  import opened ProbeResults
  import opened LegacyConfig

  /** The map the constructor builds: -1 for every host of `Config`. */
  function Seeded(hosts: seq<string>): (r: PingMap)
    ensures forall h :: h in r <==> h in hosts
    ensures forall h :: h in r ==> r[h] == -1
  {
    map h | h in hosts :: -1
  }

  class MainWindow {
    /** `_count`: 0 or 1, flipping on every completed tick. */
    var count: int
    /** `_isChecking`: a tick is in progress. */
    var isChecking: bool
    /** `_pingResults`. */
    var pingResults: PingMap
    /** `Rect.Fill`. */
    var fill: Brush

    predicate Valid()
      reads this
    {
      0 <= count <= 1
    }

    /** The constructor: every configured host starts unreachable. The
        indicator keeps the brush of the window's markup until the first
        tick; `initialFill` stands for it. */
    constructor(initialFill: Brush)
      ensures Valid() && count == 0 && !isChecking && fill == initialFill
      ensures pingResults == Seeded(HostsToCheck)
    {
      var results: PingMap := map[];
      for i := 0 to |HostsToCheck|
        invariant results == Seeded(HostsToCheck[..i])
      {
        assert HostsToCheck[..i + 1] == HostsToCheck[..i] + [HostsToCheck[i]];
        results := results[HostsToCheck[i] := -1];
      }
      assert HostsToCheck[..|HostsToCheck|] == HostsToCheck;
      count := 0;
      isChecking := false;
      pingResults := results;
      fill := initialFill;
    }

    /** `CheckInternetConnectionAsync` after `Task.WhenAll`: stores each
        host's result, then reports whether any probe answered. */
    method CheckInternetConnection(results: seq<int64>) returns (any: bool)
      requires |results| == |HostsToCheck|
      modifies this
      ensures pingResults == Written(old(pingResults), HostsToCheck, results)
      ensures any <==> AnyNonNegative(results)
      ensures count == old(count) && isChecking == old(isChecking) && fill == old(fill)
    {
      for i := 0 to |HostsToCheck|
        invariant pingResults == Written(old(pingResults), HostsToCheck[..i], results[..i])
        invariant count == old(count) && isChecking == old(isChecking) && fill == old(fill)
      {
        WrittenStep(old(pingResults), HostsToCheck, results, i);
        pingResults := pingResults[HostsToCheck[i] := results[i]];
      }
      assert HostsToCheck[..|HostsToCheck|] == HostsToCheck && results[..|results|] == results;
      any := exists i :: 0 <= i < |results| && results[i] >= 0;
    }

    /** The start of `TimerTick`: a tick arriving while another is in
        progress does nothing; otherwise it marks a tick in progress. */
    method BeginTick() returns (proceed: bool)
      modifies this
      ensures proceed <==> !old(isChecking)
      ensures isChecking
      ensures count == old(count) && pingResults == old(pingResults) && fill == old(fill)
    {
      if isChecking {
        return false;
      }
      isChecking := true;
      proceed := true;
    }

    /** The rest of `TimerTick`, once the probes are back: store the results,
        paint the indicator, flip the counter, and clear the guard. */
    method EndTick(results: seq<int64>)
      requires Valid() && |results| == |HostsToCheck|
      modifies this
      ensures Valid() && !isChecking
      ensures pingResults == Written(old(pingResults), HostsToCheck, results)
      ensures fill == BlinkFill(AnyNonNegative(results), old(count))
      ensures count == 1 - old(count)
    {
      var internetAvailable := CheckInternetConnection(results);
      fill := if internetAvailable then (if count == 0 then DarkGreen else SlateGray)
              else (if count == 0 then DarkRed else SlateGray);
      count := (count + 1) % 2;
      isChecking := false;
    }

    /** The overall status `UpdateToolTip` shows: online iff some configured
        host has a stored time of at least 0. */
    method ToolTipOnline() returns (anyOnline: bool)
      ensures anyOnline <==> AnyOnline(pingResults, HostsToCheck)
    {
      anyOnline := ScanOnline(pingResults, HostsToCheck);
    }
  }

  // ---------------------------------------------------------------------------
  // Properties
  // ---------------------------------------------------------------------------

  /** Before the first tick the tooltip says offline. */
  lemma SeededOffline()
    ensures !AnyOnline(Seeded(HostsToCheck), HostsToCheck)
  {
    var m := Seeded(HostsToCheck);
    forall i | 0 <= i < |HostsToCheck| ensures Lookup(m, HostsToCheck[i]) < 0 {
      assert HostsToCheck[i] in HostsToCheck;
    }
  }

  /** The hosts of `Config` are distinct, so after any tick the tooltip says
      online iff that tick's check did. */
  lemma ToolTipAgreesWithTick(m: PingMap, results: seq<int64>)
    requires |results| == |HostsToCheck|
    ensures AnyOnline(Written(m, HostsToCheck, results), HostsToCheck) <==> AnyNonNegative(results)
  {
    HostsToCheckValid();
    OnlineAfterCheck(m, HostsToCheck, results);
  }

  /** After two ticks the counter is back where it was, and the second tick
      paints grey exactly when the counter started at 0. */
  method TwoTicks(w: MainWindow, first: seq<int64>, second: seq<int64>)
    requires w.Valid() && |first| == |HostsToCheck| && |second| == |HostsToCheck|
    modifies w
    ensures w.count == old(w.count)
    ensures w.fill == BlinkFill(AnyNonNegative(second), 1 - old(w.count))
    ensures w.fill != SlateGray <==> old(w.count) == 1
  {
    w.EndTick(first);
    w.EndTick(second);
  }
}
