/** `ConfigManager` (MyInternetChecker/Config/ConfigManager.cs): the settings
    loaded once and cached, with an explicit reload and the save operations.
    The static class becomes one object; the settings file it reads and
    writes is a field, so each operation's effect on the file is visible. */
module ConfigManager {
  import opened Wrappers
  import opened IniParser
  import opened SettingsModels
  import opened SettingsLoader
  import opened SettingsSaver

  /** The file after `SettingsLoader.Load`: a missing file is created with
      the default lines; any other file is left as it is. */
  function FileAfterLoad(file: SettingsFile): (f: SettingsFile)
    ensures !f.Missing?
    ensures !file.Missing? ==> f == file
  {
    if file.Missing? then Present(DefaultFileLines()) else file
  }

  /** Loading again after a load gives the same interval, ping policy and
      hosts. An existing file is untouched, so it loads alike in full. The
      file written on first run is different: its colours `#32CD32` and
      `#DC143C` are cut at `#` by the parser, so the second load's colours
      are empty, whatever the defaults were. */
  lemma LoadAgainSame(file: SettingsFile)
    ensures var first := LoadedSettings(file);
      var second := LoadedSettings(FileAfterLoad(file));
      && second.checkInterval == first.checkInterval
      && second.ping == first.ping
      && second.hosts == first.hosts
      && (file.Missing? ==> second.colors == ColorSettings("", ""))
      && (!file.Missing? ==> second == first)
  {
    if file.Missing? {
      DefaultFileReadBack();
    }
  }

  class ConfigManager {
    /** `_currentSettings`: null until the first read. */
    var currentSettings: AppSettings?
    /** The settings file on disk. */
    var file: SettingsFile
    /** How many times `SettingsLoader.Load` has run. */
    ghost var loads: nat
    /** `double.ToString()`, used when writing the window position. */
    const showReal: real -> string

    constructor(file: SettingsFile, showReal: real -> string)
      ensures currentSettings == null && this.file == file && loads == 0
      ensures this.showReal == showReal
    {
      currentSettings := null;
      this.file := file;
      loads := 0;
      this.showReal := showReal;
    }

    /** One run of `SettingsLoader.Load` on the file. */
    method LoadFromFile() returns (settings: AppSettings)
      modifies this
      ensures fresh(settings) && settings.Value() == LoadedSettings(old(file))
      ensures file == FileAfterLoad(old(file)) && loads == old(loads) + 1
      ensures currentSettings == old(currentSettings)
    {
      var written;
      settings, written := Load(file);
      if written.Some? {
        file := Present(written.value);
      }
      loads := loads + 1;
    }

    /** `Settings`: loads on the first read only, then returns the cache. */
    method Settings() returns (settings: AppSettings)
      modifies this
      ensures settings == currentSettings
      ensures old(currentSettings) != null ==>
        settings == old(currentSettings) && file == old(file) && loads == old(loads)
      ensures old(currentSettings) == null ==>
        fresh(settings) && settings.Value() == LoadedSettings(old(file))
        && file == FileAfterLoad(old(file)) && loads == old(loads) + 1
    {
      if currentSettings == null {
        currentSettings := LoadFromFile();
      }
      settings := currentSettings;
    }

    /** `Hosts`: the hosts of the current settings. */
    method Hosts() returns (hosts: seq<string>)
      modifies this
      ensures currentSettings != null && hosts == currentSettings.hosts
      ensures old(currentSettings) != null ==>
        currentSettings == old(currentSettings) && file == old(file) && loads == old(loads)
      ensures old(currentSettings) == null ==>
        currentSettings.Value() == LoadedSettings(old(file)) && loads == old(loads) + 1
    {
      var settings := Settings();
      hosts := settings.hosts;
    }

    /** `CheckInterval`: the interval of the current settings. */
    method CheckInterval() returns (interval: TimeSpan)
      modifies this
      ensures currentSettings != null && interval == currentSettings.checkInterval
      ensures old(currentSettings) != null ==>
        currentSettings == old(currentSettings) && file == old(file) && loads == old(loads)
      ensures old(currentSettings) == null ==>
        currentSettings.Value() == LoadedSettings(old(file)) && loads == old(loads) + 1
    {
      var settings := Settings();
      interval := settings.checkInterval;
    }

    /** `Colors`: the colours of the current settings. */
    method Colors() returns (colors: ColorSettings)
      modifies this
      ensures currentSettings != null && colors == currentSettings.colors
      ensures old(currentSettings) != null ==>
        currentSettings == old(currentSettings) && file == old(file) && loads == old(loads)
      ensures old(currentSettings) == null ==>
        currentSettings.Value() == LoadedSettings(old(file)) && loads == old(loads) + 1
    {
      var settings := Settings();
      colors := settings.colors;
    }

    /** `Ping`: the ping policy of the current settings. */
    method Ping() returns (ping: PingSettings)
      modifies this
      ensures currentSettings != null && ping == currentSettings.ping
      ensures old(currentSettings) != null ==>
        currentSettings == old(currentSettings) && file == old(file) && loads == old(loads)
      ensures old(currentSettings) == null ==>
        currentSettings.Value() == LoadedSettings(old(file)) && loads == old(loads) + 1
    {
      var settings := Settings();
      ping := settings.ping;
    }

    /** `Window`: the window position of the current settings. */
    method Window() returns (window: WindowPosition)
      modifies this
      ensures currentSettings != null && window == currentSettings.window
      ensures old(currentSettings) != null ==>
        currentSettings == old(currentSettings) && file == old(file) && loads == old(loads)
      ensures old(currentSettings) == null ==>
        currentSettings.Value() == LoadedSettings(old(file)) && loads == old(loads) + 1
    {
      var settings := Settings();
      window := settings.window;
    }

    /** `Reload`: always replaces the cache with a fresh load. */
    method Reload()
      modifies this
      ensures currentSettings != null && fresh(currentSettings)
      ensures currentSettings.Value() == LoadedSettings(old(file))
      ensures file == FileAfterLoad(old(file)) && loads == old(loads) + 1
    {
      currentSettings := LoadFromFile();
    }

    /** `SaveAllSettings`: the given object becomes the cache and is written. */
    method SaveAllSettings(settings: AppSettings)
      modifies this
      ensures currentSettings == settings
      ensures file == Present(SavedSettingsLines(settings.Value(), showReal))
      ensures loads == old(loads)
    {
      currentSettings := settings;
      var lines := SettingsSaver.Save(settings, showReal);
      file := Present(lines);
    }

    /** `SaveHosts`: rewrites the file with new hosts; the cache is untouched. */
    method SaveHosts(hosts: seq<string>)
      modifies this
      ensures currentSettings == old(currentSettings)
      ensures file == Present(SavedSettingsLines(WithNewHosts(old(file), hosts), showReal))
    {
      var lines := SettingsSaver.SaveHosts(file, hosts, showReal);
      file := Present(lines);
    }

    /** `SaveWindowPosition`: rewrites the file with a new position; the cache
        is untouched. */
    method SaveWindowPosition(left: real, top: real)
      modifies this
      ensures currentSettings == old(currentSettings)
      ensures file == Present(SavedSettingsLines(WithNewWindow(old(file), left, top), showReal))
    {
      var lines := SettingsSaver.SaveWindowPosition(file, left, top, showReal);
      file := Present(lines);
    }
  }

  /** Saved hosts take effect on the next reload: after `SaveHosts(h)` and
      `Reload`, `Hosts` returns `h`, provided `h` is not empty and every host
      is one the loader keeps and reads back unchanged. */
  method SaveHostsThenReload(config: ConfigManager, hosts: seq<string>) returns (seen: seq<string>)
    requires |hosts| > 0
    requires forall i :: 0 <= i < |hosts| ==> KeepHost(hosts[i]) && CleanValue(hosts[i])
    modifies config
    ensures seen == hosts
  {
    var before := config.file;
    config.SaveHosts(hosts);
    SaveHostsThenLoad(before, hosts, config.showReal);
    config.Reload();
    seen := config.Hosts();
  }

  /** Reading `Settings` twice loads once and gives the same object. */
  method ReadTwice(config: ConfigManager) returns (first: AppSettings, second: AppSettings)
    modifies config
    ensures first == second
    ensures config.loads == old(config.loads) + (if old(config.currentSettings) == null then 1 else 0)
  {
    first := config.Settings();
    second := config.Settings();
  }
}
