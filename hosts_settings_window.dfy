/** `HostsSettingsWindow` (MyInternetChecker/HostsSettingsWindow.xaml.cs): the
    dialog that edits a copy of the configured hosts and saves it through
    `ConfigManager`. A message box is the message a method returns; whether
    a call into `ConfigManager` throws is a parameter. */
module HostsSettingsWindow {
  import opened Wrappers
  import opened Text
  import opened IniParser
  import opened SettingsLoader
  import opened SettingsSaver
  import opened HostLists
  import opened ConfigManager

  const EnterHostName: string := "Введите имя хоста"
  const AlreadyListed: string := "Этот хост уже есть в списке"

  class HostsSettingsWindow {
    /** `_hosts`, the list being edited. */
    var hosts: seq<string>
    /** `NewHostTextBox.Text`. */
    var newHostText: string
    /** `DialogResult`: unset while the dialog is open. */
    var dialogResult: Option<bool>
    /** The dialog has been closed. */
    var closed: bool

    /** The constructor and `LoadHosts`: a copy of the configured hosts, in
        order, or an empty list when reading them throws. */
    constructor(config: ConfigManager, hostsThrow: bool)
      modifies config
      ensures !hostsThrow ==> config.currentSettings != null && hosts == config.currentSettings.hosts
      ensures !hostsThrow && old(config.currentSettings) != null ==>
        config.currentSettings == old(config.currentSettings) && hosts == old(config.currentSettings.hosts)
      ensures hostsThrow ==> hosts == [] && config.currentSettings == old(config.currentSettings)
      ensures newHostText == [] && dialogResult == None && !closed
    {
      newHostText := [];
      dialogResult := None;
      closed := false;
      var loaded: seq<string> := [];
      if !hostsThrow {
        loaded := config.Hosts();
      }
      hosts := loaded;
    }

    /** `AddNewHost`: the trimmed text is refused when empty or already
        listed; otherwise it is appended and the text box cleared. */
    method AddNewHost() returns (warning: Option<string>)
      modifies this
      ensures var t := Trim(old(newHostText));
        if t == [] then warning == Some(EnterHostName) && hosts == old(hosts) && newHostText == old(newHostText)
        else if t in old(hosts) then warning == Some(AlreadyListed) && hosts == old(hosts) && newHostText == old(newHostText)
        else warning == None && hosts == old(hosts) + [t] && newHostText == []
      ensures NoDuplicates(old(hosts)) ==> NoDuplicates(hosts)
      ensures forall h :: h in hosts && h !in old(hosts) ==> IsTrimmed(h) && h != []
      ensures dialogResult == old(dialogResult) && closed == old(closed)
    {
      var newHost := Trim(newHostText);
      if newHost == [] {
        return Some(EnterHostName);
      }
      if newHost in hosts {
        return Some(AlreadyListed);
      }
      if NoDuplicates(hosts) {
        AppendFresh(hosts, newHost);
      }
      hosts := hosts + [newHost];
      newHostText := [];
      warning := None;
    }

    /** `DeleteHostButton_Click`: the first occurrence of the button's host
        goes; a button without a host tag does nothing. */
    method DeleteHost(tag: Option<string>)
      modifies this
      ensures tag.None? ==> hosts == old(hosts)
      ensures tag.Some? ==> hosts == RemoveFirst(old(hosts), tag.value)
      ensures NoDuplicates(old(hosts)) ==> NoDuplicates(hosts)
      ensures NoDuplicates(old(hosts)) && tag.Some? ==> tag.value !in hosts
      ensures newHostText == old(newHostText) && dialogResult == old(dialogResult) && closed == old(closed)
    {
      if tag.Some? {
        if NoDuplicates(hosts) {
          RemoveFirstFromDistinct(hosts, tag.value);
        }
        hosts := RemoveFirst(hosts, tag.value);
      }
    }

    /** `SaveHosts`: the list is saved in its order, then the dialog closes
        with result true; when the save throws, the dialog stays open with
        no result. */
    method SaveHosts(config: ConfigManager, saveThrows: bool)
      modifies this, config
      ensures hosts == old(hosts) && newHostText == old(newHostText)
      ensures !saveThrows ==> dialogResult == Some(true) && closed
      ensures !saveThrows ==> config.file == Present(SavedSettingsLines(WithNewHosts(old(config.file), hosts), config.showReal))
      ensures config.currentSettings == old(config.currentSettings)
      ensures saveThrows ==> dialogResult == old(dialogResult) && closed == old(closed) && config.file == old(config.file)
    {
      if !saveThrows {
        config.SaveHosts(hosts);
        dialogResult := Some(true);
        closed := true;
      }
    }

    /** `CancelButton_Click`: the dialog closes with result false. */
    method Cancel()
      modifies this
      ensures dialogResult == Some(false) && closed
      ensures hosts == old(hosts) && newHostText == old(newHostText)
    {
      dialogResult := Some(false);
      closed := true;
    }
  }

  // ---------------------------------------------------------------------------
  // Properties
  // ---------------------------------------------------------------------------

  /** After the dialog is saved, reloading the configuration (as the main
      window does when the dialog returns true) yields exactly the dialog's
      list, in order, provided the list is not empty and every host is a
      value the INI format carries and the loader keeps. */
  method SaveThenReload(w: HostsSettingsWindow, config: ConfigManager) returns (seen: seq<string>)
    requires |w.hosts| > 0
    requires forall i :: 0 <= i < |w.hosts| ==> KeepHost(w.hosts[i]) && CleanValue(w.hosts[i])
    modifies w, config
    ensures w.dialogResult == Some(true) && seen == w.hosts
  {
    var before := config.file;
    w.SaveHosts(config, false);
    SaveHostsThenLoad(before, w.hosts, config.showReal);
    config.Reload();
    seen := config.Hosts();
  }
}
