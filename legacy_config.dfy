/** `Config` (Config.cs at the repository root): the fixed hosts and check
    interval of the older layout. */
module LegacyConfig {
  import opened SettingsModels

  /** `HostsToCheck`. */
  const HostsToCheck: seq<string> := ["ya.ru", "google.com"]

  /** `CheckInterval`: one second. */
  const CheckInterval: TimeSpan := FromSeconds(1)

  /** The static constructor's check never throws: there are hosts to check,
      and no host is listed twice. */
  lemma HostsToCheckValid()
    ensures |HostsToCheck| > 0
    ensures forall i, j :: 0 <= i < j < |HostsToCheck| ==> HostsToCheck[i] != HostsToCheck[j]
  {
    assert HostsToCheck[0][0] != HostsToCheck[1][0];
  }

  /** The older layout checks the same hosts, at the same interval, as the
      defaults of the current one. */
  lemma SameAsDefaults()
    ensures HostsToCheck == DefaultHosts
    ensures CheckInterval == DefaultSettings.checkInterval
  {
  }
}
