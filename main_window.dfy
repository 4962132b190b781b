/** `MainWindow` (MyInternetChecker/MainWindow.xaml.cs): the indicator window
    of the current layout. Each timer tick probes the configured hosts,
    stores the times, and switches between the online and offline animations
    only when availability changes. The settings dialog cancels the running
    probes and renews the cancellation source. The configured hosts and the
    probe results (`Task.WhenAll`, one per host in order) are passed in; an
    asynchronous tick is a begin step and an end step. */
module MainWindow {
  import opened Text
  import opened ProbeResults

  /** Which storyboard is running on the indicator. */
  datatype Animation = NoAnimation | OnlineAnimation | OfflineAnimation

  class MainWindow {
    /** `_isChecking`: a tick is in progress. */
    var isChecking: bool
    /** `_wasOnline`: the availability the running animation shows. */
    var wasOnline: bool
    /** `_pingResults`. */
    var pingResults: PingMap
    /** How many cancellation sources have been created; the current `_cts`
        is the last one. */
    var ctsCount: nat
    /** `_cts.IsCancellationRequested`. */
    var ctsCancelled: bool
    /** `Rect.Fill`. */
    var fill: Brush
    /** The storyboard running on `Rect`. */
    var animation: Animation

    /** The constructor and the `Loaded` handler: a fresh cancellation source,
        no results, grey until the first check, offline assumed. */
    constructor()
      ensures !isChecking && !wasOnline && pingResults == map[]
      ensures ctsCount == 1 && !ctsCancelled
      ensures fill == Gray && animation == NoAnimation
    {
      isChecking := false;
      wasOnline := false;
      pingResults := map[];
      ctsCount := 1;
      ctsCancelled := false;
      fill := Gray;
      animation := NoAnimation;
    }

    /** `CheckInternetConnectionAsync` after `Task.WhenAll`: stores each
        host's result and reports whether any probe answered. Entries of
        hosts no longer configured stay in the map. */
    method CheckInternetConnection(hosts: seq<string>, results: seq<int64>) returns (any: bool)
      requires |results| == |hosts|
      modifies this
      ensures pingResults == Written(old(pingResults), hosts, results)
      ensures any <==> AnyNonNegative(results)
      ensures isChecking == old(isChecking) && wasOnline == old(wasOnline) && fill == old(fill)
      ensures animation == old(animation) && ctsCount == old(ctsCount) && ctsCancelled == old(ctsCancelled)
    {
      any := false;
      for i := 0 to |hosts|
        invariant pingResults == Written(old(pingResults), hosts[..i], results[..i])
        invariant any <==> AnyNonNegative(results[..i])
        invariant isChecking == old(isChecking) && wasOnline == old(wasOnline) && fill == old(fill)
        invariant animation == old(animation) && ctsCount == old(ctsCount) && ctsCancelled == old(ctsCancelled)
      {
        WrittenStep(old(pingResults), hosts, results, i);
        assert results[..i + 1] == results[..i] + [results[i]];
        pingResults := pingResults[hosts[i] := results[i]];
        if results[i] >= 0 {
          any := true;
        }
      }
      assert hosts[..|hosts|] == hosts && results[..|results|] == results;
    }

    /** The start of `TimerTick`: a tick arriving while another is in
        progress does nothing; otherwise it marks a tick in progress. */
    method BeginTick() returns (proceed: bool)
      modifies this
      ensures proceed <==> !old(isChecking)
      ensures isChecking
      ensures wasOnline == old(wasOnline) && pingResults == old(pingResults) && fill == old(fill)
      ensures animation == old(animation) && ctsCount == old(ctsCount) && ctsCancelled == old(ctsCancelled)
    {
      if isChecking {
        return false;
      }
      isChecking := true;
      proceed := true;
    }

    /** The rest of `TimerTick`, once the probes are back: store the results;
        when availability differs from `_wasOnline`, stop the running
        animation, start the one for the new state with its first colour,
        and remember the state; finally clear the guard. */
    method EndTick(hosts: seq<string>, results: seq<int64>) returns (switched: bool)
      requires |results| == |hosts|
      modifies this
      ensures !isChecking
      ensures pingResults == Written(old(pingResults), hosts, results)
      ensures switched <==> AnyNonNegative(results) != old(wasOnline)
      ensures wasOnline == AnyNonNegative(results)
      ensures switched ==> animation == (if wasOnline then OnlineAnimation else OfflineAnimation)
      ensures switched ==> fill == (if wasOnline then DarkGreen else DarkRed)
      ensures !switched ==> animation == old(animation) && fill == old(fill)
      ensures ctsCount == old(ctsCount) && ctsCancelled == old(ctsCancelled)
    {
      var internetAvailable := CheckInternetConnection(hosts, results);
      switched := internetAvailable != wasOnline;
      if switched {
        animation := NoAnimation;
        if internetAvailable {
          fill := DarkGreen;
          animation := OnlineAnimation;
        } else {
          fill := DarkRed;
          animation := OfflineAnimation;
        }
        wasOnline := internetAvailable;
      }
      isChecking := false;
    }

    /** `ShowSettingsWindow`: cancel the running probes; when the dialog is
        accepted, create a new cancellation source, check the reloaded hosts
        at once and paint the indicator green iff any stored time is at least
        0; in every case renew the source if it is still cancelled. */
    method ShowSettingsWindow(accepted: bool, hosts: seq<string>, results: seq<int64>)
      requires |results| == |hosts|
      modifies this
      ensures !ctsCancelled && ctsCount == old(ctsCount) + 1
      ensures accepted ==> pingResults == Written(old(pingResults), hosts, results)
      ensures accepted ==> fill == if AnyStoredOnline(pingResults) then DarkGreen else DarkRed
      ensures !accepted ==> pingResults == old(pingResults) && fill == old(fill)
      ensures isChecking == old(isChecking) && wasOnline == old(wasOnline) && animation == old(animation)
    {
      ctsCancelled := true;
      if accepted {
        ctsCount := ctsCount + 1;
        ctsCancelled := false;
        var _ := CheckInternetConnection(hosts, results);
        var internetAvailable := exists h :: h in pingResults && pingResults[h] >= 0;
        fill := if internetAvailable then DarkGreen else DarkRed;
      }
      if ctsCancelled {
        ctsCount := ctsCount + 1;
        ctsCancelled := false;
      }
    }

    /** The overall status `UpdateToolTip` shows: online iff some configured
        host has a stored time of at least 0. */
    method ToolTipOnline(hosts: seq<string>) returns (anyOnline: bool)
      ensures anyOnline <==> AnyOnline(pingResults, hosts)
    {
      anyOnline := ScanOnline(pingResults, hosts);
    }
  }

  // ---------------------------------------------------------------------------
  // Properties
  // ---------------------------------------------------------------------------

  /** A first tick in which no probe answers switches no animation: the
      window starts out assuming offline. */
  method FirstTickOffline(hosts: seq<string>, results: seq<int64>) returns (switched: bool)
    requires |results| == |hosts| && forall i :: 0 <= i < |results| ==> results[i] < 0
    ensures !switched
  {
    var w := new MainWindow();
    var proceed := w.BeginTick();
    switched := w.EndTick(hosts, results);
  }

  /** Two ticks with the same availability switch at most once: the second
      one never does. */
  method RepeatedTickNoSwitch(w: MainWindow, hosts: seq<string>, results: seq<int64>, again: seq<int64>)
      returns (first: bool, second: bool)
    requires |results| == |hosts| && |again| == |hosts|
    requires AnyNonNegative(results) == AnyNonNegative(again)
    modifies w
    ensures !second
    ensures w.wasOnline == AnyNonNegative(results)
  {
    first := w.EndTick(hosts, results);
    second := w.EndTick(hosts, again);
  }
}
