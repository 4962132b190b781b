/** `SettingsLoader` (MyInternetChecker/Config/SettingsLoader.cs): builds the
    settings from the INI file, clamping numbers and filtering the host list,
    and writes a default file on first run. */
module SettingsLoader {
  import opened Wrappers
  import opened Text
  import opened OrderedDict
  import opened IniParser
  import opened SettingsModels

  /** The settings file as `Load` finds it: absent, present but failing to
      read (the exception is caught), or present with these lines. */
  datatype SettingsFile = Missing | Unreadable | Present(lines: seq<string>)

  // ---------------------------------------------------------------------------
  // Specification of each step
  // ---------------------------------------------------------------------------

  /** `int.TryParse` of the value stored under `key`, when there is one. */
  function IntSetting(section: Section, key: string): Option<int32> {
    var text := Get(section, key);
    if text.Some? then TryParseInt32(text.value) else None
  }

  /** What `LoadGeneralSettings` does to the settings. */
  function WithGeneral(s: Settings, ini: IniData): Settings {
    var section := Get(ini, "general");
    if section.None? then s
    else
      var sec := section.value;
      var interval := IntSetting(sec, "check_interval");
      var s1 := if interval.Some? then s.(checkInterval := FromSeconds(Clamp(interval.value, 1, 60))) else s;
      var online := Get(sec, "color_online");
      var s2 := if online.Some? then s1.(colors := s1.colors.(online := online.value)) else s1;
      var offline := Get(sec, "color_offline");
      if offline.Some? then s2.(colors := s2.colors.(offline := offline.value)) else s2
  }

  /** What `LoadPingSettings` does to the settings. */
  function WithPing(s: Settings, ini: IniData): Settings {
    var section := Get(ini, "ping");
    if section.None? then s
    else
      var timeout := IntSetting(section.value, "timeout");
      var s1 := if timeout.Some? then s.(ping := s.ping.(timeout := Max(timeout.value, 100))) else s;
      var attempts := IntSetting(section.value, "attempts");
      if attempts.Some? then s1.(ping := s1.ping.(attempts := Clamp(attempts.value, 1, 10))) else s1
  }

  /** A host value `LoadHosts` keeps: not blank and not starting with `#`. */
  predicate KeepHost(h: string) {
    !IsBlank(h) && !StartsWithChar(h, '#')
  }

  /** The `Where` of `LoadHosts`: the values it keeps, in order. */
  function FilterHosts(values: seq<string>): (r: seq<string>)
    ensures |r| <= |values|
    ensures forall i :: 0 <= i < |r| ==> KeepHost(r[i])
    ensures forall h :: h in r <==> h in values && KeepHost(h)
  {
    if values == [] then []
    else
      var init := FilterHosts(values[..|values| - 1]);
      var last := values[|values| - 1];
      assert values == values[..|values| - 1] + [last];
      if KeepHost(last) then init + [last] else init
  }

  /** What `LoadHosts` does to the settings. */
  function WithHosts(s: Settings, ini: IniData): Settings {
    var section := Get(ini, "hosts");
    if section.None? then s
    else
      var hosts := FilterHosts(Values(section.value));
      if |hosts| > 0 then s.(hosts := hosts) else s
  }

  /** The settings the loaded INI data gives, starting from the defaults. */
  function FromIni(ini: IniData): Settings {
    WithHosts(WithPing(WithGeneral(DefaultSettings, ini), ini), ini)
  }

  /** The settings `Load` returns for a file. */
  function LoadedSettings(file: SettingsFile): Settings {
    match file
    case Missing => DefaultSettings
    case Unreadable => DefaultSettings
    case Present(lines) => FromIni(Parsed(lines))
  }

  /** The data `CreateDefaultSettings` writes. */
  const DefaultIniData: IniData := [
    ("general", [
      ("check_interval", "1"),
      ("color_online", "#32CD32"),
      ("color_offline", "#DC143C"),
      ("window_left", "0"),
      ("window_top", "1013")]),
    ("ping", [
      ("timeout", "1000"),
      ("attempts", "3")]),
    ("hosts", [
      ("host1", "ya.ru"),
      ("host2", "google.com")])]

  /** The lines of the file written on first run. */
  function DefaultFileLines(): seq<string> {
    SavedLines(DefaultIniData)
  }

  // ---------------------------------------------------------------------------
  // The loader
  // ---------------------------------------------------------------------------

  method LoadGeneralSettings(iniData: IniData, settings: AppSettings)
    modifies settings
    ensures settings.Value() == WithGeneral(old(settings.Value()), iniData)
  {
    var section := Get(iniData, "general");
    if section.None? {
      return;
    }
    var intervalStr := Get(section.value, "check_interval");
    if intervalStr.Some? {
      var interval := TryParseInt32(intervalStr.value);
      if interval.Some? {
        settings.checkInterval := FromSeconds(Clamp(interval.value, 1, 60));
      }
    }
    var onlineColor := Get(section.value, "color_online");
    if onlineColor.Some? {
      settings.colors := settings.colors.(online := onlineColor.value);
    }
    var offlineColor := Get(section.value, "color_offline");
    if offlineColor.Some? {
      settings.colors := settings.colors.(offline := offlineColor.value);
    }
  }

  method LoadPingSettings(iniData: IniData, settings: AppSettings)
    modifies settings
    ensures settings.Value() == WithPing(old(settings.Value()), iniData)
  {
    var section := Get(iniData, "ping");
    if section.None? {
      return;
    }
    var timeoutStr := Get(section.value, "timeout");
    if timeoutStr.Some? {
      var timeout := TryParseInt32(timeoutStr.value);
      if timeout.Some? {
        settings.ping := settings.ping.(timeout := Max(timeout.value, 100));
      }
    }
    var attemptsStr := Get(section.value, "attempts");
    if attemptsStr.Some? {
      var attempts := TryParseInt32(attemptsStr.value);
      if attempts.Some? {
        settings.ping := settings.ping.(attempts := Clamp(attempts.value, 1, 10));
      }
    }
  }

  method LoadHosts(iniData: IniData, settings: AppSettings)
    modifies settings
    ensures settings.Value() == WithHosts(old(settings.Value()), iniData)
  {
    var value := Get(iniData, "hosts");
    if value.None? {
      return;
    }
    var hosts := FilterHosts(Values(value.value));
    if |hosts| > 0 {
      settings.hosts := hosts;
    }
  }

  /** `CreateDefaultSettings`: the lines it writes. */
  method CreateDefaultSettings() returns (lines: seq<string>)
    ensures lines == DefaultFileLines()
  {
    lines := Save(DefaultIniData);
  }

  /** `Load`: fresh settings, and the lines written when the file was missing. */
  method Load(file: SettingsFile) returns (settings: AppSettings, written: Option<seq<string>>)
    ensures fresh(settings)
    ensures settings.Value() == LoadedSettings(file)
    ensures written == if file.Missing? then Some(DefaultFileLines()) else None
  {
    settings := new AppSettings();
    written := None;
    if file.Missing? {
      var lines := CreateDefaultSettings();
      written := Some(lines);
      return;
    }
    if file.Unreadable? {
      return;
    }
    var iniData := Parse(file.lines);
    LoadGeneralSettings(iniData, settings);
    LoadPingSettings(iniData, settings);
    LoadHosts(iniData, settings);
  }

  // ---------------------------------------------------------------------------
  // Properties
  // ---------------------------------------------------------------------------

  /** The invariant every loaded settings object satisfies: an interval of 1
      to 60 whole seconds, a timeout of at least 100 ms, 1 to 10 attempts, and
      a non-empty list of hosts that are neither blank nor commented out. */
  predicate ValidSettings(s: Settings) {
    && s.checkInterval.ticks % TicksPerSecond == 0
    && 1 <= s.checkInterval.ticks / TicksPerSecond <= 60
    && s.ping.timeout >= 100
    && 1 <= s.ping.attempts <= 10
    && |s.hosts| > 0
    && forall i :: 0 <= i < |s.hosts| ==> KeepHost(s.hosts[i])
  }

  lemma DefaultsValid()
    ensures ValidSettings(DefaultSettings)
  {
    assert KeepHost(DefaultHosts[0]) by { assert !IsWhiteSpace(DefaultHosts[0][0]); }
    assert KeepHost(DefaultHosts[1]) by { assert !IsWhiteSpace(DefaultHosts[1][0]); }
  }

  /** Each step keeps the invariant. */
  lemma StepsKeepValid(s: Settings, ini: IniData)
    requires ValidSettings(s)
    ensures ValidSettings(WithGeneral(s, ini))
    ensures ValidSettings(WithPing(s, ini))
    ensures ValidSettings(WithHosts(s, ini))
  {
    GeneralKeepsValid(s, ini);
    PingKeepsValid(s, ini);
    HostsKeepValid(s, ini);
  }

  lemma GeneralKeepsValid(s: Settings, ini: IniData)
    requires ValidSettings(s)
    ensures ValidSettings(WithGeneral(s, ini))
  {
  }

  lemma PingKeepsValid(s: Settings, ini: IniData)
    requires ValidSettings(s)
    ensures ValidSettings(WithPing(s, ini))
  {
  }

  lemma HostsKeepValid(s: Settings, ini: IniData)
    requires ValidSettings(s)
    ensures ValidSettings(WithHosts(s, ini))
  {
  }

  /** Whatever the file holds, the loaded settings satisfy the invariant; in
      particular the host list is never empty. */
  lemma LoadedSettingsValid(file: SettingsFile)
    ensures ValidSettings(LoadedSettings(file))
  {
    DefaultsValid();
    if file.Present? {
      var ini := Parsed(file.lines);
      StepsKeepValid(DefaultSettings, ini);
      StepsKeepValid(WithGeneral(DefaultSettings, ini), ini);
      StepsKeepValid(WithPing(WithGeneral(DefaultSettings, ini), ini), ini);
    }
  }

  /** How the loaded settings depend on the INI data, field by field: a
      parsable `check_interval` n gives clamp(n, 1, 60) seconds, a parsable
      `timeout` t gives max(t, 100), parsable `attempts` a give clamp(a, 1, 10),
      colours are copied as stored, the hosts are the kept `[hosts]` values
      when there are any; anything absent or unparsable keeps its default. */
  lemma FromIniFields(ini: IniData)
    ensures var s := FromIni(ini);
      var general := Get(ini, "general");
      var ping := Get(ini, "ping");
      var hosts := Get(ini, "hosts");
      && s.checkInterval ==
           (if general.Some? && IntSetting(general.value, "check_interval").Some?
            then FromSeconds(Clamp(IntSetting(general.value, "check_interval").value, 1, 60))
            else DefaultSettings.checkInterval)
      && s.colors.online ==
           (if general.Some? && Get(general.value, "color_online").Some?
            then Get(general.value, "color_online").value else DefaultColors.online)
      && s.colors.offline ==
           (if general.Some? && Get(general.value, "color_offline").Some?
            then Get(general.value, "color_offline").value else DefaultColors.offline)
      && s.ping.timeout ==
           (if ping.Some? && IntSetting(ping.value, "timeout").Some?
            then Max(IntSetting(ping.value, "timeout").value, 100) else 1000)
      && s.ping.attempts ==
           (if ping.Some? && IntSetting(ping.value, "attempts").Some?
            then Clamp(IntSetting(ping.value, "attempts").value, 1, 10) else 3)
      && s.hosts ==
           (if hosts.Some? && |FilterHosts(Values(hosts.value))| > 0
            then FilterHosts(Values(hosts.value)) else DefaultHosts)
      && s.window == DefaultWindow
  {
    GeneralFields(DefaultSettings, ini);
    PingFields(WithGeneral(DefaultSettings, ini), ini);
    HostsFields(WithPing(WithGeneral(DefaultSettings, ini), ini), ini);
  }

  /** `LoadGeneralSettings` sets the interval and the colours it finds and
      nothing else. */
  lemma GeneralFields(s: Settings, ini: IniData)
    ensures var r := WithGeneral(s, ini);
      var general := Get(ini, "general");
      && r.checkInterval ==
           (if general.Some? && IntSetting(general.value, "check_interval").Some?
            then FromSeconds(Clamp(IntSetting(general.value, "check_interval").value, 1, 60))
            else s.checkInterval)
      && r.colors.online ==
           (if general.Some? && Get(general.value, "color_online").Some?
            then Get(general.value, "color_online").value else s.colors.online)
      && r.colors.offline ==
           (if general.Some? && Get(general.value, "color_offline").Some?
            then Get(general.value, "color_offline").value else s.colors.offline)
      && r.ping == s.ping && r.hosts == s.hosts && r.window == s.window
  {
  }

  /** `LoadPingSettings` sets the timeout and attempts it finds and nothing else. */
  lemma PingFields(s: Settings, ini: IniData)
    ensures var r := WithPing(s, ini);
      var ping := Get(ini, "ping");
      && r.ping.timeout ==
           (if ping.Some? && IntSetting(ping.value, "timeout").Some?
            then Max(IntSetting(ping.value, "timeout").value, 100) else s.ping.timeout)
      && r.ping.attempts ==
           (if ping.Some? && IntSetting(ping.value, "attempts").Some?
            then Clamp(IntSetting(ping.value, "attempts").value, 1, 10) else s.ping.attempts)
      && r.checkInterval == s.checkInterval && r.colors == s.colors
      && r.hosts == s.hosts && r.window == s.window
  {
  }

  /** `LoadHosts` replaces the hosts when it keeps any, and nothing else. */
  lemma HostsFields(s: Settings, ini: IniData)
    ensures var r := WithHosts(s, ini);
      var hosts := Get(ini, "hosts");
      && r.hosts ==
           (if hosts.Some? && |FilterHosts(Values(hosts.value))| > 0
            then FilterHosts(Values(hosts.value)) else s.hosts)
      && r.checkInterval == s.checkInterval && r.colors == s.colors
      && r.ping == s.ping && r.window == s.window
  {
  }

  /** The kept hosts are exactly the stored values that are neither blank
      nor commented out, in the order they were stored. */
  lemma {:induction false} FilterHostsOrder(values: seq<string>, i: nat, j: nat)
    requires i < j < |values| && KeepHost(values[i]) && KeepHost(values[j])
    ensures exists a, b :: 0 <= a < b < |FilterHosts(values)|
              && FilterHosts(values)[a] == values[i] && FilterHosts(values)[b] == values[j]
  {
    var init := values[..|values| - 1];
    var r := FilterHosts(values);
    if j == |values| - 1 {
      assert values[i] == init[i];
      assert values[i] in FilterHosts(init);
      var a :| 0 <= a < |FilterHosts(init)| && FilterHosts(init)[a] == values[i];
      assert r == FilterHosts(init) + [values[j]];
      assert r[a] == values[i] && r[|r| - 1] == values[j];
    } else {
      assert init[i] == values[i] && init[j] == values[j];
      FilterHostsOrder(init, i, j);
      var a, b :| 0 <= a < b < |FilterHosts(init)| && FilterHosts(init)[a] == values[i] && FilterHosts(init)[b] == values[j];
      assert r[a] == values[i] && r[b] == values[j];
    }
  }

  /** Reading the file written on first run does not give back its colours:
      the parser cuts each value at its first `#`, so "#32CD32" and "#DC143C"
      read back as empty strings. Every other default is read back. */
  lemma DefaultFileReadBack()
    ensures Get(Get(Parsed(DefaultFileLines()), "general").GetOr([]), "color_online") == Some("")
    ensures LoadedSettings(Present(DefaultFileLines())) ==
              Settings(FromSeconds(1), ColorSettings("", ""), PingSettings(1000, 3), DefaultWindow, DefaultHosts)
  {
    DefaultIniDataSavable();
    SaveThenParse(DefaultIniData);
    DefaultIntervalRead();
    DefaultColorsRead();
    DefaultTimeoutRead();
    DefaultAttemptsRead();
    DefaultHostsRead();
  }

  /** A value of a section of the default data, as read back. */
  lemma ReadBackEntry(section: nat, entry: nat, name: string, key: string, value: string)
    requires section < |DefaultIniData| && entry < |DefaultIniData[section].1|
    requires DefaultIniData[section].0 == name && DefaultIniData[section].1[entry] == (key, value)
    ensures var g := Get(ReadBackAll(DefaultIniData), name);
      g.Some? && Get(g.value, key) == Some(ReadBack(value))
  {
    DefaultIniDataSavable();
    ReadBackGetSection(DefaultIniData, section);
    ReadBackGetEntry(DefaultIniData[section].1, entry);
  }

  lemma DefaultIntervalRead()
    ensures var g := Get(ReadBackAll(DefaultIniData), "general");
      g.Some? && IntSetting(g.value, "check_interval") == Some(1)
  {
    ReadBackEntry(0, 0, "general", "check_interval", "1");
    OneReadBack();
    ParsesOne();
  }

  lemma DefaultColorsRead()
    ensures var g := Get(ReadBackAll(DefaultIniData), "general");
      && g.Some?
      && Get(g.value, "color_online") == Some("")
      && Get(g.value, "color_offline") == Some("")
  {
    DefaultOnlineColorRead();
    DefaultOfflineColorRead();
  }

  lemma DefaultOnlineColorRead()
    ensures var g := Get(ReadBackAll(DefaultIniData), "general");
      g.Some? && Get(g.value, "color_online") == Some("")
  {
    ReadBackEntry(0, 1, "general", "color_online", "#32CD32");
    OnlineColorReadBack();
  }

  lemma DefaultOfflineColorRead()
    ensures var g := Get(ReadBackAll(DefaultIniData), "general");
      g.Some? && Get(g.value, "color_offline") == Some("")
  {
    ReadBackEntry(0, 2, "general", "color_offline", "#DC143C");
    OfflineColorReadBack();
  }

  lemma OnlineColorReadBack()
    ensures ReadBack("#32CD32") == ""
  {
    ReadBackComment("#32CD32");
  }

  lemma OfflineColorReadBack()
    ensures ReadBack("#DC143C") == ""
  {
    ReadBackComment("#DC143C");
  }

  lemma DefaultTimeoutRead()
    ensures var p := Get(ReadBackAll(DefaultIniData), "ping");
      p.Some? && IntSetting(p.value, "timeout") == Some(1000)
  {
    ReadBackEntry(1, 0, "ping", "timeout", "1000");
    ThousandReadBack();
    ParsesThousand();
  }

  lemma DefaultAttemptsRead()
    ensures var p := Get(ReadBackAll(DefaultIniData), "ping");
      p.Some? && IntSetting(p.value, "attempts") == Some(3)
  {
    ReadBackEntry(1, 1, "ping", "attempts", "3");
    ThreeReadBack();
    ParsesThree();
  }

  lemma DefaultHostsRead()
    ensures var h := Get(ReadBackAll(DefaultIniData), "hosts");
      && h.Some?
      && FilterHosts(Values(h.value)) == DefaultHosts
  {
    DefaultHostValues();
    DefaultHostsKept();
  }

  lemma DefaultHostValues()
    ensures var h := Get(ReadBackAll(DefaultIniData), "hosts");
      h.Some? && Values(h.value) == DefaultHosts
  {
    DefaultHostsSection();
    HostsSectionValues();
  }

  lemma DefaultHostsSection()
    ensures Get(ReadBackAll(DefaultIniData), "hosts") == Some(ReadBackSection(DefaultIniData[2].1))
  {
    DefaultIniDataSavable();
    ReadBackGetSection(DefaultIniData, 2);
  }

  lemma HostsSectionValues()
    ensures Values(ReadBackSection(DefaultIniData[2].1)) == DefaultHosts
  {
    var entries := DefaultIniData[2].1;
    DefaultHostsClean();
    assert Values(entries) == DefaultHosts;
    ValuesReadBackClean(entries);
  }

  /** A section whose values are all clean reads back with the same values. */
  lemma ValuesReadBackClean(entries: Section)
    requires forall i :: 0 <= i < |entries| ==> CleanValue(entries[i].1)
    ensures Values(ReadBackSection(entries)) == Values(entries)
  {
    forall i | 0 <= i < |entries|
      ensures ReadBack(entries[i].1) == entries[i].1
    {
      ReadBackClean(entries[i].1);
    }
  }

  lemma DefaultHostsReadBack()
    ensures ReadBack(DefaultHosts[0]) == DefaultHosts[0] && ReadBack(DefaultHosts[1]) == DefaultHosts[1]
  {
    DefaultHostsClean();
    ReadBackClean(DefaultHosts[0]);
    ReadBackClean(DefaultHosts[1]);
  }

  lemma DefaultHostsKept()
    ensures FilterHosts(DefaultHosts) == DefaultHosts
  {
    DefaultsValid();
    var vs := DefaultHosts;
    assert vs[..1][..0] == [];
    assert vs[..|vs| - 1] == vs[..1];
  }

  /** The default data meets the round-trip conditions of `SaveThenParse`. */
  lemma DefaultIniDataSavable()
    ensures Savable(DefaultIniData)
  {
    KeysOfDistinctLengths(DefaultIniData);
    DefaultGeneralSavable();
    DefaultPingSavable();
    DefaultHostsSavable();
  }

  lemma DefaultGeneralSavable()
    ensures SavableSection(DefaultIniData[0].1)
  {
    KeysOfDistinctLengths(DefaultIniData[0].1);
    assert forall i :: 0 <= i < |DefaultIniData[0].1| ==> SavableKey(DefaultIniData[0].1[i].0);
  }

  lemma DefaultPingSavable()
    ensures SavableSection(DefaultIniData[1].1)
  {
    KeysOfDistinctLengths(DefaultIniData[1].1);
    assert forall i :: 0 <= i < |DefaultIniData[1].1| ==> SavableKey(DefaultIniData[1].1[i].0);
  }

  lemma DefaultHostsSavable()
    ensures SavableSection(DefaultIniData[2].1)
  {
    assert Fold("host1")[4] != Fold("host2")[4];
    assert forall i :: 0 <= i < |DefaultIniData[2].1| ==> SavableKey(DefaultIniData[2].1[i].0);
  }

  /** Keys of different lengths never match, whatever their case. */
  lemma KeysOfDistinctLengths<V>(d: Dict<V>)
    requires forall i, j :: 0 <= i < j < |d| ==> |d[i].0| != |d[j].0|
    ensures DistinctKeys(d)
  {
    forall i, j | 0 <= i < j < |d| ensures !SameIgnoringCase(d[i].0, d[j].0) {
      assert |Fold(d[i].0)| != |Fold(d[j].0)|;
    }
  }

  lemma OneReadBack()
    ensures ReadBack("1") == "1"
  {
    ReadBackDigits("1");
  }

  lemma ThousandReadBack()
    ensures ReadBack("1000") == "1000"
  {
    ReadBackDigits("1000");
  }

  lemma ThreeReadBack()
    ensures ReadBack("3") == "3"
  {
    ReadBackDigits("3");
  }

  lemma ParsesOne()
    ensures TryParseInt32("1") == Some(1)
  {
    ParseIntToString(1);
    assert IntToString(1) == "1";
  }

  lemma ParsesThree()
    ensures TryParseInt32("3") == Some(3)
  {
    ParseIntToString(3);
    assert IntToString(3) == "3";
  }

  lemma ParsesThousand()
    ensures TryParseInt32("1000") == Some(1000)
  {
    ParseIntToString(1000);
    assert NatToString(10) == "10";
    assert NatToString(100) == "100";
    assert IntToString(1000) == "1000";
  }

  lemma DefaultHostsClean()
    ensures CleanValue(DefaultHosts[0]) && CleanValue(DefaultHosts[1])
  {
  }

  /** A digit string reads back as itself. */
  lemma ReadBackDigits(v: string)
    requires v != [] && AllDigits(v)
    ensures ReadBack(v) == v
  {
    ReadBackClean(v);
  }

  /** A trimmed value that starts with `#` reads back as the empty string. */
  lemma ReadBackComment(v: string)
    requires IsTrimmed(v) && v != [] && v[0] == '#'
    ensures ReadBack(v) == ""
  {
    TrimTrimmed(v);
    TrimTrimmed("");
  }
}
