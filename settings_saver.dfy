/** `SettingsSaver` (MyInternetChecker/Config/SettingsSaver.cs): lays the
    settings out as INI data and writes it, and rewrites the file with new
    hosts or a new window position. `double.ToString()` is a platform call and
    is passed in as `showReal`. */
module SettingsSaver {
  import opened Wrappers
  import opened Text
  import opened OrderedDict
  import opened IniParser
  import opened SettingsModels
  import opened SettingsLoader

  /** `$"host{i}"`. */
  function HostKey(i: int): string {
    "host" + IntToString(i)
  }

  /** The `[hosts]` section: `host1` to `hostN` holding the hosts in order. */
  function HostsSection(hosts: seq<string>): (r: Section)
    ensures |r| == |hosts|
    ensures forall i :: 0 <= i < |hosts| ==> r[i] == (HostKey(i + 1), hosts[i])
  {
    seq(|hosts|, i requires 0 <= i < |hosts| => (HostKey(i + 1), hosts[i]))
  }

  function GeneralSection(s: Settings, showReal: real -> string): Section {
    [("check_interval", IntToString(WholeSeconds(s.checkInterval))),
     ("color_online", s.colors.online),
     ("color_offline", s.colors.offline),
     ("window_left", showReal(s.window.left)),
     ("window_top", showReal(s.window.top))]
  }

  function PingSection(p: PingSettings): Section {
    [("timeout", IntToString(p.timeout)),
     ("attempts", IntToString(p.attempts))]
  }

  /** The `iniData` that `Save` builds for the settings. */
  function SettingsData(s: Settings, showReal: real -> string): IniData {
    [("general", GeneralSection(s, showReal)),
     ("ping", PingSection(s.ping)),
     ("hosts", HostsSection(s.hosts))]
  }

  /** The lines `Save` writes for the settings. */
  function SavedSettingsLines(s: Settings, showReal: real -> string): seq<string> {
    SavedLines(SettingsData(s, showReal))
  }

  // ---------------------------------------------------------------------------
  // The saver
  // ---------------------------------------------------------------------------

  /** The dictionary `Save` fills before writing it. */
  method BuildIniData(settings: AppSettings, showReal: real -> string) returns (iniData: IniData)
    ensures iniData == SettingsData(settings.Value(), showReal)
  {
    var s := settings.Value();
    iniData := [
      ("general", [
        ("check_interval", IntToString(WholeSeconds(settings.checkInterval))),
        ("color_online", settings.colors.online),
        ("color_offline", settings.colors.offline),
        ("window_left", showReal(settings.window.left)),
        ("window_top", showReal(settings.window.top))]),
      ("ping", [
        ("timeout", IntToString(settings.ping.timeout)),
        ("attempts", IntToString(settings.ping.attempts))]),
      ("hosts", [])];
    for i := 0 to |settings.hosts|
      invariant iniData == [("general", GeneralSection(s, showReal)), ("ping", PingSection(s.ping)),
                            ("hosts", HostsSection(settings.hosts[..i]))]
    {
      HostsStep(GeneralSection(s, showReal), PingSection(s.ping), settings.hosts, i);
      iniData := Assign(iniData, "hosts", HostKey(i + 1), settings.hosts[i]);
    }
    assert settings.hosts[..|settings.hosts|] == settings.hosts;
  }

  /** `Save`: the lines written for the settings. */
  method Save(settings: AppSettings, showReal: real -> string) returns (lines: seq<string>)
    ensures lines == SavedSettingsLines(settings.Value(), showReal)
  {
    var iniData := BuildIniData(settings, showReal);
    lines := IniParser.Save(iniData);
  }

  /** The settings `SaveHosts` writes: freshly loaded ones with new hosts. */
  function WithNewHosts(file: SettingsFile, hosts: seq<string>): Settings {
    LoadedSettings(file).(hosts := hosts)
  }

  /** The settings `SaveWindowPosition` writes: freshly loaded ones with a new position. */
  function WithNewWindow(file: SettingsFile, left: real, top: real): Settings {
    LoadedSettings(file).(window := WindowPosition(left, top))
  }

  /** `SaveHosts`: the file's new lines. */
  method SaveHosts(file: SettingsFile, hosts: seq<string>, showReal: real -> string) returns (written: seq<string>)
    ensures written == SavedSettingsLines(WithNewHosts(file, hosts), showReal)
  {
    var settings, _ := Load(file);
    settings.hosts := hosts;
    written := Save(settings, showReal);
  }

  /** `SaveWindowPosition`: the file's new lines. */
  method SaveWindowPosition(file: SettingsFile, left: real, top: real, showReal: real -> string)
    returns (written: seq<string>)
    ensures written == SavedSettingsLines(WithNewWindow(file, left, top), showReal)
  {
    var settings, _ := Load(file);
    settings.window := settings.window.(left := left, top := top);
    written := Save(settings, showReal);
  }

  // ---------------------------------------------------------------------------
  // Layout of the written data
  // ---------------------------------------------------------------------------

  /** Host keys are distinct, ignoring case, for distinct numbers. */
  lemma HostKeysDiffer(a: int, b: int)
    requires a != b
    ensures !SameIgnoringCase(HostKey(a), HostKey(b))
  {
    HostKeyFolds(a);
    HostKeyFolds(b);
    if HostKey(a) == HostKey(b) {
      assert IntToString(a) == HostKey(a)[4..] == HostKey(b)[4..] == IntToString(b);
      IntToStringInjective(a, b);
    }
  }

  /** A host key has no upper-case letter, so case folding keeps it. */
  lemma HostKeyFolds(i: int)
    ensures Fold(HostKey(i)) == HostKey(i)
  {
    var k := HostKey(i);
    assert forall j :: 4 <= j < |k| ==> k[j] == IntToString(i)[j - 4];
    FoldNoUpper(k);
  }

  lemma HostsSectionDistinct(hosts: seq<string>)
    ensures DistinctKeys(HostsSection(hosts))
  {
    var r := HostsSection(hosts);
    forall i, j | 0 <= i < j < |r| ensures !SameIgnoringCase(r[i].0, r[j].0) {
      HostKeysDiffer(i + 1, j + 1);
    }
  }

  /** One turn of the loop in `Save`: storing `hostN` appends it. */
  lemma HostsStep(general: Section, ping: Section, hosts: seq<string>, i: nat)
    requires i < |hosts|
    ensures Assign([("general", general), ("ping", ping), ("hosts", HostsSection(hosts[..i]))],
                   "hosts", HostKey(i + 1), hosts[i])
            == [("general", general), ("ping", ping), ("hosts", HostsSection(hosts[..i + 1]))]
  {
    var data := [("general", general), ("ping", ping), ("hosts", HostsSection(hosts[..i]))];
    var prev := HostsSection(hosts[..i]);
    assert IndexOfKey(data, "hosts") == 2 by {
      assert !SameIgnoringCase("general", "hosts") && !SameIgnoringCase("ping", "hosts");
      assert SameIgnoringCase(data[2].0, "hosts");
    }
    forall j | 0 <= j < |prev| ensures !SameIgnoringCase(prev[j].0, HostKey(i + 1)) {
      HostKeysDiffer(j + 1, i + 1);
    }
    assert Set(prev, HostKey(i + 1), hosts[i]) == HostsSection(hosts[..i + 1]);
  }

  /** The written data always has the sections `general`, `ping` and `hosts`,
      in that order, even with no hosts; `hosts` holds `host1` to `hostN`
      and `host(i+1)` maps to the i-th host. */
  lemma SettingsDataLayout(s: Settings, showReal: real -> string)
    ensures var data := SettingsData(s, showReal);
      && Keys(data) == ["general", "ping", "hosts"]
      && |data[2].1| == |s.hosts|
      && forall i :: 0 <= i < |s.hosts| ==> Get(data[2].1, HostKey(i + 1)) == Some(s.hosts[i])
  {
    var hs := HostsSection(s.hosts);
    HostsSectionDistinct(s.hosts);
    forall i | 0 <= i < |s.hosts| ensures Get(hs, HostKey(i + 1)) == Some(s.hosts[i]) {
      GetStored(hs, i);
    }
  }

  /** `check_interval` is written in whole seconds, dropping any fraction. */
  lemma IntervalWrittenInWholeSeconds(s: Settings, showReal: real -> string)
    requires 0 <= s.checkInterval.ticks <= MaxInt32 * TicksPerSecond
    ensures Get(SettingsData(s, showReal)[0].1, "check_interval")
            == Some(IntToString(s.checkInterval.ticks / TicksPerSecond))
  {
  }

  // ---------------------------------------------------------------------------
  // Reloading what was saved
  // ---------------------------------------------------------------------------

  /** A key made of a prefix and a number has what the round trip needs. */
  lemma HostKeySavable(i: int)
    ensures SavableKey(HostKey(i))
  {
    var k := HostKey(i);
    assert forall j :: 4 <= j < |k| ==> k[j] == IntToString(i)[j - 4];
  }

  lemma SettingsDataSavable(s: Settings, showReal: real -> string)
    ensures Savable(SettingsData(s, showReal))
  {
    var data := SettingsData(s, showReal);
    GeneralSectionSavable(s, showReal);
    PingSectionSavable(s.ping);
    HostsSectionSavable(s.hosts);
    assert DistinctKeys(data);
  }

  lemma GeneralSectionSavable(s: Settings, showReal: real -> string)
    ensures SavableSection(GeneralSection(s, showReal))
  {
    var g := GeneralSection(s, showReal);
    assert DistinctKeys(g);
    assert forall i :: 0 <= i < |g| ==> SavableKey(g[i].0);
  }

  lemma PingSectionSavable(p: PingSettings)
    ensures SavableSection(PingSection(p))
  {
  }

  lemma HostsSectionSavable(hosts: seq<string>)
    ensures SavableSection(HostsSection(hosts))
  {
    HostsSectionDistinct(hosts);
    forall i | 0 <= i < |hosts| ensures SavableKey(HostsSection(hosts)[i].0) {
      HostKeySavable(i + 1);
    }
  }

  /** A printed integer reads back as itself and parses to its value. */
  lemma IntValueRoundTrip(n: int32)
    ensures ReadBack(IntToString(n)) == IntToString(n)
    ensures TryParseInt32(ReadBack(IntToString(n))) == Some(n)
  {
    var r := IntToString(n);
    assert CleanValue(r) by {
      forall i | 0 <= i < |r| ensures r[i] != '#' && r[i] != ';' {
        if n < 0 && i > 0 {
          assert r[i] == r[1..][i - 1];
        }
      }
    }
    ReadBackClean(r);
    ParseIntToString(n);
  }

  /** Each value as the parser reads it back. */
  function ReadBackValues(values: seq<string>): (r: seq<string>)
    ensures |r| == |values| && forall i :: 0 <= i < |values| ==> r[i] == ReadBack(values[i])
  {
    seq(|values|, i requires 0 <= i < |values| => ReadBack(values[i]))
  }

  /** What loading gives back for saved settings: the interval in whole
      seconds clamped to 1..60, the colours as `ReadBack` leaves them, the
      timeout raised to at least 100, the attempts clamped to 1..10, the kept
      hosts (or the defaults when none is kept), and the default position. */
  function Reloaded(s: Settings): Settings {
    var hosts := FilterHosts(ReadBackValues(s.hosts));
    Settings(
      FromSeconds(Clamp(WholeSeconds(s.checkInterval), 1, 60)),
      ColorSettings(ReadBack(s.colors.online), ReadBack(s.colors.offline)),
      PingSettings(Max(s.ping.timeout, 100), Clamp(s.ping.attempts, 1, 10)),
      DefaultWindow,
      if |hosts| > 0 then hosts else DefaultHosts)
  }

  lemma ReloadedGeneral(s: Settings, showReal: real -> string)
    ensures var g := Get(ReadBackAll(SettingsData(s, showReal)), "general");
      && g.Some?
      && IntSetting(g.value, "check_interval") == Some(WholeSeconds(s.checkInterval))
      && Get(g.value, "color_online") == Some(ReadBack(s.colors.online))
      && Get(g.value, "color_offline") == Some(ReadBack(s.colors.offline))
  {
    var data := SettingsData(s, showReal);
    SettingsDataSavable(s, showReal);
    ReadBackGetSection(data, 0);
    ReadBackGetEntry(data[0].1, 0);
    ReadBackGetEntry(data[0].1, 1);
    ReadBackGetEntry(data[0].1, 2);
    IntValueRoundTrip(WholeSeconds(s.checkInterval));
  }

  lemma ReloadedPing(s: Settings, showReal: real -> string)
    ensures var p := Get(ReadBackAll(SettingsData(s, showReal)), "ping");
      && p.Some?
      && IntSetting(p.value, "timeout") == Some(s.ping.timeout)
      && IntSetting(p.value, "attempts") == Some(s.ping.attempts)
  {
    var data := SettingsData(s, showReal);
    SettingsDataSavable(s, showReal);
    ReadBackGetSection(data, 1);
    ReadBackGetEntry(data[1].1, 0);
    ReadBackGetEntry(data[1].1, 1);
    IntValueRoundTrip(s.ping.timeout);
    IntValueRoundTrip(s.ping.attempts);
  }

  lemma ReloadedHosts(s: Settings, showReal: real -> string)
    ensures var h := Get(ReadBackAll(SettingsData(s, showReal)), "hosts");
      && h.Some?
      && Values(h.value) == ReadBackValues(s.hosts)
  {
    var data := SettingsData(s, showReal);
    SettingsDataSavable(s, showReal);
    ReadBackGetSection(data, 2);
  }

  /** Round trip of the whole settings file: loading what `Save` wrote gives
      `Reloaded(s)`. */
  lemma LoadAfterSave(s: Settings, showReal: real -> string)
    ensures LoadedSettings(Present(SavedSettingsLines(s, showReal))) == Reloaded(s)
  {
    SettingsDataSavable(s, showReal);
    SaveThenParse(SettingsData(s, showReal));
    ReloadedGeneral(s, showReal);
    ReloadedPing(s, showReal);
    ReloadedHosts(s, showReal);
  }

  /** Keeping every host keeps the list as it is. */
  lemma {:induction false} FilterHostsKeepsAll(values: seq<string>)
    requires forall i :: 0 <= i < |values| ==> KeepHost(values[i])
    ensures FilterHosts(values) == values
  {
    if values != [] {
      FilterHostsKeepsAll(values[..|values| - 1]);
    }
  }

  /** Settings the loader could have produced, with colours and hosts that
      the parser reads back unchanged. */
  predicate Reloadable(s: Settings) {
    && ValidSettings(s)
    && CleanValue(s.colors.online) && CleanValue(s.colors.offline)
    && forall i :: 0 <= i < |s.hosts| ==> CleanValue(s.hosts[i])
  }

  /** Hosts that read back unchanged, read back. */
  lemma ReadBackCleanHosts(hosts: seq<string>)
    requires forall i :: 0 <= i < |hosts| ==> CleanValue(hosts[i])
    ensures ReadBackValues(hosts) == hosts
  {
    var rb := ReadBackValues(hosts);
    forall i | 0 <= i < |hosts| ensures rb[i] == hosts[i] {
      ReadBackClean(hosts[i]);
    }
  }

  /** `Reloaded` gives back settings the loader could have produced. */
  lemma ReloadedIdentity(s: Settings)
    requires Reloadable(s)
    ensures Reloaded(s) == s.(window := DefaultWindow)
  {
    var n := s.checkInterval.ticks / TicksPerSecond;
    assert s.checkInterval == FromSeconds(n);
    WholeSecondsOfFromSeconds(n);
    ReadBackClean(s.colors.online);
    ReadBackClean(s.colors.offline);
    ReadBackCleanHosts(s.hosts);
    FilterHostsKeepsAll(s.hosts);
  }

  /** `Reloaded` keeps a non-empty list of kept, clean hosts. */
  lemma ReloadedKeepsHosts(s: Settings)
    requires |s.hosts| > 0
    requires forall i :: 0 <= i < |s.hosts| ==> KeepHost(s.hosts[i]) && CleanValue(s.hosts[i])
    ensures Reloaded(s).hosts == s.hosts
  {
    ReadBackCleanHosts(s.hosts);
    FilterHostsKeepsAll(s.hosts);
  }

  /** Saving and reloading such settings gives them back, except the window
      position, which the loader does not read. */
  lemma SaveReloadIdentity(s: Settings, showReal: real -> string)
    requires Reloadable(s)
    ensures LoadedSettings(Present(SavedSettingsLines(s, showReal))) == s.(window := DefaultWindow)
  {
    LoadAfterSave(s, showReal);
    ReloadedIdentity(s);
  }

  /** After `SaveHosts(h)` the file loads with hosts `h`, provided `h` is not
      empty and each host is kept by the loader and reads back unchanged. */
  lemma SaveHostsThenLoad(file: SettingsFile, hosts: seq<string>, showReal: real -> string)
    requires |hosts| > 0
    requires forall i :: 0 <= i < |hosts| ==> KeepHost(hosts[i]) && CleanValue(hosts[i])
    ensures LoadedSettings(Present(SavedSettingsLines(WithNewHosts(file, hosts), showReal))).hosts == hosts
  {
    LoadAfterSave(WithNewHosts(file, hosts), showReal);
    ReloadedKeepsHosts(WithNewHosts(file, hosts));
  }

  /** `SaveHosts` with an empty list leaves a file that loads with the
      default hosts: the empty `[hosts]` section is ignored. */
  lemma SaveNoHostsThenLoad(file: SettingsFile, showReal: real -> string)
    ensures LoadedSettings(Present(SavedSettingsLines(WithNewHosts(file, []), showReal))).hosts == DefaultHosts
  {
    LoadAfterSave(WithNewHosts(file, []), showReal);
  }
}
