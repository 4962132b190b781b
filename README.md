# MyInternetChecker in Dafny

MyInternetChecker is a small Windows tray indicator. On a timer it pings a list of hosts. It paints a rectangle green when some host answers and red when none does, and it keeps a one-minute history of ping times for a chart. This project models its core and proves properties of that model:

- **Settings pipeline.** An INI parser and writer (`IniParser`) uses case-insensitive dictionaries that keep insertion order (`OrderedDict`). A loader (`SettingsLoader`) clamps the interval, timeout and attempt count and filters the host list. A saver (`SettingsSaver`) lays the settings out as INI data. `ConfigManager` caches the loaded settings.
  - Saving and then parsing gives back each value as the parser reads it (`IniParser.SaveThenParse`).
  - Loading always gives valid settings with a non-empty host list (`SettingsLoader.LoadedSettingsValid`).
  - Hosts saved from the settings dialog are the hosts seen after a reload (`ConfigManager.SaveHostsThenReload`).
  - The parser cuts each value at its first `#` or `;`. So the colours written on first run ("#32CD32", "#DC143C") read back as empty strings (`SettingsLoader.DefaultFileReadBack`). The model keeps this behaviour as the code has it.
- **Probing.** `PingIt` retries up to the configured number of attempts and honours cancellation. The first success wins and every failure gives -1. `PingResult` turns a round-trip time into one of five quality bands. The older `PingIt` at the repository root makes a single send.
- **Tick state machines.** There are three of them, one per window, and all three share the map of latest ping times (`ProbeResults`):
  - the view model blinks its indicator on every completed tick;
  - the current `MainWindow` switches animations only when availability changes;
  - the older root `MainWindow` blinks like the view model, over fixed hosts.

  Each tick has a single-flight guard, so a tick that arrives while another runs does nothing.
- **History and chart.** `HistoryManager` keeps a queue per host and drops samples more than one minute old. `HistoryWindow` appends the newest value to each host's chart series, up to 100 points.
- **Host-list editing.** The settings view model keeps every raw line of the hosts file beside the list it shows. Adding and deleting keep the two consistent (`HostsSettingsViewModel.DeleteMatches`). The settings window edits a copy of the configured hosts and saves it through `ConfigManager`.

Some things are passed in as parameters:

- The network is an oracle: one reply per attempt.
- `Task.WhenAll` over the configured hosts gives a sequence of results aligned with the hosts.
- The clock is a `now` parameter, in `TimeSpan` ticks.
- The settings file is a value: `Missing`, `Unreadable` or `Present(lines)`.
- `double.ToString()` is the parameter `showReal`.

## Model

| member | source | states |
|---|---|---|
| OrderedDict.IndexOfKey | MyInternetChecker/Config/IniParser.cs:11 | the position found is the first key equal to the given one ignoring case, or -1 when no key matches |
| OrderedDict.GetSet | MyInternetChecker/Config/IniParser.cs:28-43 | after `d[k] = v`, any casing of `k` reads `v` and every other key reads what it read before |
| OrderedDict.Set | MyInternetChecker/Config/IniParser.cs:45 | assigning an existing key, in any casing, keeps the stored key and its position and replaces only its value; a new key is appended at the end |
| OrderedDict.SetKeepsDistinct | MyInternetChecker/Config/IniParser.cs:28-43 | assignment never makes two keys equal ignoring case |
| OrderedDict.GetStored | MyInternetChecker/Config/IniParser.cs:11 | in a dictionary with distinct keys, each stored key finds its own value |
| Text.Trim | MyInternetChecker/Config/IniParser.cs:16 | `string.Trim()` leaves no white space at either end and never lengthens the string |
| Text.TrimTrimmed | MyInternetChecker/Config/IniParser.cs:16 | trimming a string that is already trimmed changes nothing |
| Text.BlankIffTrimEmpty | MyInternetChecker/Config/SettingsLoader.cs:82 | `IsNullOrWhiteSpace` holds exactly when the trimmed string is empty |
| Text.TrimOfPadded | MyInternetChecker/Config/IniParser.cs:36-37 | white space padded around a trimmed string is removed by `Trim` |
| Text.ParseIntToString | MyInternetChecker/Config/SettingsLoader.cs:49 | `int.TryParse` accepts every printed 32-bit integer and gives back its value |
| Text.TryParseInt32 | MyInternetChecker/Config/SettingsLoader.cs:48-49 | `int.TryParse` gives the value of a digit string in range and the negated value after a `-`, and fails on empty text |
| Text.IntToStringInjective | MyInternetChecker/Config/SettingsSaver.cs:35-38 | distinct integers print differently |
| IniParser.Parse | MyInternetChecker/Config/IniParser.cs:9-50 | the loop computes the sections of the specification function `Parsed` of the lines |
| IniParser.SkippedLineIsInvisible | MyInternetChecker/Config/IniParser.cs:19-22 | a blank line, or one whose trimmed form starts with `#` or `;`, does not affect the result |
| IniParser.KeyNeverEmpty | MyInternetChecker/Config/IniParser.cs:33-36 | a recorded key is never empty, because `=` must come after the first character |
| IniParser.ParseOneLine | MyInternetChecker/Config/IniParser.cs:16-46 | one pass of the parsing loop has the effect of the specification function `ParseLine` on the dictionary and the current section |
| IniParser.ParseLineEffect | MyInternetChecker/Config/IniParser.cs:25-45 | a header line creates or resets its section and makes it current; a `key=value` line inside a section assigns the trimmed value cut at `#`/`;`; any other line changes nothing |
| IniParser.Save | MyInternetChecker/Config/IniParser.cs:52-70 | the nested loops write the lines of the specification function `SavedLines`: a header, then a `[name]` line and `key=value` lines per section |
| IniParser.WriteSection | MyInternetChecker/Config/IniParser.cs:63-66 | one pass of the outer loop appends exactly the block of one section: its header line, its entries in order, an empty line |
| IniParser.SaveThenParse | MyInternetChecker/Config/IniParser.cs:9-70 | parsing what `Save` wrote gives back every section and key, each value as the parser reads it back |
| IniParser.SaveThenParseClean | MyInternetChecker/Config/IniParser.cs:9-70 | when no value holds a comment character or outer white space, parsing what `Save` wrote gives back exactly the data |
| IniParser.ReadBackClean | MyInternetChecker/Config/IniParser.cs:37-43 | a value without `#`, `;` and outer white space reads back unchanged |
| SettingsModels.Clamp | MyInternetChecker/Config/SettingsLoader.cs:50 | `Math.Clamp` lies within the bounds and keeps a value already inside them |
| SettingsModels.WholeSeconds | MyInternetChecker/Config/SettingsSaver.cs:28 | `(int)TotalSeconds` is the whole number of seconds of a non-negative interval that fits an `int` |
| SettingsModels.WholeSecondsOfFromSeconds | MyInternetChecker/Config/SettingsSaver.cs:28 | an interval of whole seconds is written back as that number |
| SettingsModels.AppSettings.constructor | MyInternetChecker/Config/Models/AppSettings.cs:7-10 | a new settings object holds the defaults: one second, 1000 ms, 3 attempts, ya.ru and google.com |
| SettingsLoader.FilterHosts | MyInternetChecker/Config/SettingsLoader.cs:80-83 | the kept hosts are exactly the values that are neither blank nor start with `#` |
| SettingsLoader.FilterHostsOrder | MyInternetChecker/Config/SettingsLoader.cs:80-83 | the kept hosts keep their stored order |
| SettingsLoader.LoadGeneralSettings | MyInternetChecker/Config/SettingsLoader.cs:43-59 | the interval becomes the parsed value clamped to 1..60 seconds, and the colours are copied when present |
| SettingsLoader.LoadPingSettings | MyInternetChecker/Config/SettingsLoader.cs:61-73 | the timeout becomes at least 100 and the attempts are clamped to 1..10 when parsable |
| SettingsLoader.LoadHosts | MyInternetChecker/Config/SettingsLoader.cs:75-87 | the host list is replaced only when the `[hosts]` section keeps at least one host |
| SettingsLoader.Load | MyInternetChecker/Config/SettingsLoader.cs:17-41 | a missing file gives the defaults and writes the default file; an unreadable file gives the defaults; any other file gives the settings its INI data yields |
| SettingsLoader.CreateDefaultSettings | MyInternetChecker/Config/SettingsLoader.cs:104-133 | the default file holds the sections general, ping and hosts with the documented defaults |
| SettingsLoader.LoadedSettingsValid | MyInternetChecker/Config/SettingsLoader.cs:17-102 | whatever the file holds, the loaded interval is 1..60 s, the timeout at least 100, the attempts 1..10, and the host list non-empty with only kept hosts |
| SettingsLoader.StepsKeepValid | MyInternetChecker/Config/SettingsLoader.cs:43-87 | each loading step keeps those bounds |
| SettingsLoader.FromIniFields | MyInternetChecker/Config/SettingsLoader.cs:43-87 | field by field, how the loaded settings depend on the INI data; anything absent or unparsable keeps its default |
| SettingsLoader.GeneralFields | MyInternetChecker/Config/SettingsLoader.cs:43-59 | a parsable `check_interval` sets the interval clamped to 1-60 seconds, present colours are copied, and ping, hosts and window are untouched |
| SettingsLoader.PingFields | MyInternetChecker/Config/SettingsLoader.cs:61-73 | a parsable `timeout` sets at least 100, parsable `attempts` set a value clamped to 1-10, and nothing else changes |
| SettingsLoader.HostsFields | MyInternetChecker/Config/SettingsLoader.cs:75-87 | the hosts become the kept `[hosts]` values when there are any, and nothing else changes |
| SettingsLoader.DefaultFileReadBack | MyInternetChecker/Config/SettingsLoader.cs:106-126 | the file written on first run loads with every default except the colours, which read back as empty strings |
| SettingsSaver.HostsSection | MyInternetChecker/Config/SettingsSaver.cs:42-43 | the `[hosts]` section maps `host1`..`hostN` to the hosts in order |
| SettingsSaver.BuildIniData | MyInternetChecker/Config/SettingsSaver.cs:24-43 | the loop builds the INI data of the specification function `SettingsData` |
| SettingsSaver.Save | MyInternetChecker/Config/SettingsSaver.cs:16-51 | the lines written are the saved form of that data |
| SettingsSaver.SaveHosts | MyInternetChecker/Config/SettingsSaver.cs:53-58 | the file is rewritten with freshly loaded settings whose hosts are replaced |
| SettingsSaver.SaveWindowPosition | MyInternetChecker/Config/SettingsSaver.cs:60-66 | the file is rewritten with freshly loaded settings whose position is replaced |
| SettingsSaver.HostKeysDiffer | MyInternetChecker/Config/SettingsSaver.cs:43 | host keys for distinct numbers differ even ignoring case |
| SettingsSaver.SettingsDataLayout | MyInternetChecker/Config/SettingsSaver.cs:24-43 | the data always has the sections general, ping and hosts in that order, and `host(i+1)` holds the i-th host |
| SettingsSaver.IntervalWrittenInWholeSeconds | MyInternetChecker/Config/SettingsSaver.cs:28 | `check_interval` is written in whole seconds |
| SettingsSaver.IntValueRoundTrip | MyInternetChecker/Config/SettingsSaver.cs:28-38 | a written integer reads back and parses to itself |
| SettingsSaver.LoadAfterSave | MyInternetChecker/Config/SettingsSaver.cs:16-51 | loading what `Save` wrote gives the interval in whole seconds clamped, the colours as read back, the ping bounds applied, the kept hosts, and the default position |
| SettingsSaver.SaveReloadIdentity | MyInternetChecker/Config/SettingsSaver.cs:16-51 | settings that the loader could have produced, with clean colours and hosts, survive a save and load, except for the window position |
| SettingsSaver.SaveHostsThenLoad | MyInternetChecker/Config/SettingsSaver.cs:53-58 | after `SaveHosts(h)` the file loads with hosts `h`, when `h` is non-empty and every host is kept and clean |
| SettingsSaver.SaveNoHostsThenLoad | MyInternetChecker/Config/SettingsSaver.cs:53-58 | saving an empty host list leaves a file that loads with the default hosts |
| ConfigManager.FileAfterLoad | MyInternetChecker/Config/SettingsLoader.cs:21-25 | after a load the file is never missing, and an existing file is untouched |
| ConfigManager.LoadAgainSame | MyInternetChecker/Config/ConfigManager.cs:17 | loading again gives the same interval, ping policy and hosts; an existing file loads alike in full, while after the first run the colours come back empty because the parser cuts `#32CD32` and `#DC143C` at `#` |
| ConfigManager.ConfigManager.Settings | MyInternetChecker/Config/ConfigManager.cs:11-21 | the file is loaded on the first read only; later reads return the cached object |
| ConfigManager.ConfigManager.LoadFromFile | MyInternetChecker/Config/ConfigManager.cs:17 | one run of the loader: new settings holding what the file loads as, the file created if it was missing, the cache untouched |
| ConfigManager.ConfigManager.Hosts | MyInternetChecker/Config/ConfigManager.cs:23 | the hosts of the current settings, loading them on first use |
| ConfigManager.ConfigManager.CheckInterval | MyInternetChecker/Config/ConfigManager.cs:24 | the interval of the current settings |
| ConfigManager.ConfigManager.Colors | MyInternetChecker/Config/ConfigManager.cs:25 | the colours of the current settings |
| ConfigManager.ConfigManager.Ping | MyInternetChecker/Config/ConfigManager.cs:26 | the ping policy of the current settings |
| ConfigManager.ConfigManager.Window | MyInternetChecker/Config/ConfigManager.cs:27 | the window position of the current settings |
| ConfigManager.ConfigManager.Reload | MyInternetChecker/Config/ConfigManager.cs:29-35 | the cache is always replaced by a fresh load of the file |
| ConfigManager.ConfigManager.SaveAllSettings | MyInternetChecker/Config/ConfigManager.cs:37-44 | the given object becomes the cache and its saved lines become the file |
| ConfigManager.ConfigManager.SaveHosts | MyInternetChecker/Config/ConfigManager.cs:46 | the file gets the new hosts while the cache stays as it was |
| ConfigManager.ConfigManager.SaveWindowPosition | MyInternetChecker/Config/ConfigManager.cs:47 | the file gets the new position while the cache stays as it was |
| ConfigManager.SaveHostsThenReload | MyInternetChecker/Config/ConfigManager.cs:29-46 | saved hosts take effect on the next reload |
| ConfigManager.ReadTwice | MyInternetChecker/Config/ConfigManager.cs:17 | two reads give the same object and load at most once |
| PingResult.GetQualityDescription | MyInternetChecker/PingResult.cs:11-21 | "Недоступен" exactly when there was no answer, otherwise one of the five labels |
| PingResult.QualityIsBand | MyInternetChecker/PingResult.cs:14-20 | an answer gets the label of its band, with bands starting at 50, 100, 200 and 500 ms |
| PingResult.ReachedMonotone | MyInternetChecker/PingResult.cs:14-20 | a slower answer never gets a better label |
| PingResult.LabelsDistinct | MyInternetChecker/PingResult.cs:13-20 | the six descriptions are distinct |
| PingResult.ToStringUnavailableIff | MyInternetChecker/PingResult.cs:25-28 | the text is "Недоступен" exactly when there was no answer |
| PingResult.ToString | MyInternetChecker/PingResult.cs:25-28 | an answer's text starts with its printed time and carries a quality label other than "Недоступен"; no answer gives "Недоступен" |
| PingResult.ToStringGivesTime | MyInternetChecker/PingResult.cs:27 | two answers printed alike have the same round-trip time |
| PingIt.PingHostAsync | MyInternetChecker/PingIt.cs:41-83 | the loop computes the specification function `AsyncPing` over the attempts |
| PingIt.AsyncSendsBounded | MyInternetChecker/PingIt.cs:49 | at most `attempts` sends are made, and none with -1 as the result when `attempts <= 0` |
| PingIt.AsyncFirstSuccess | MyInternetChecker/PingIt.cs:57-64 | after plain failures, the first successful reply's time is returned after exactly that many sends |
| PingIt.AsyncAllFail | MyInternetChecker/PingIt.cs:67-82 | when every attempt fails, -1 is returned after `attempts` sends |
| PingIt.AsyncCancelledBefore | MyInternetChecker/PingIt.cs:52 | cancellation requested before an attempt gives -1 without sending it |
| PingIt.AsyncCancelledDuring | MyInternetChecker/PingIt.cs:67-70 | cancellation during a send gives -1 with no further send |
| PingIt.AsyncResultFromSuccess | MyInternetChecker/PingIt.cs:41-83 | any result other than -1 is the time of the last send, which succeeded |
| PingIt.PingHost | MyInternetChecker/PingIt.cs:15-35 | the loop computes the specification function `SyncFrom` over the attempts |
| PingIt.SyncSendsBounded | MyInternetChecker/PingIt.cs:22 | at most `attempts` sends are made |
| PingIt.SyncErrorStops | MyInternetChecker/PingIt.cs:29-32 | a `PingException` ends the loop with a failed result |
| PingIt.SyncFirstSuccess | MyInternetChecker/PingIt.cs:24-26 | the first successful reply gives a successful result with its time |
| PingIt.SyncResultShape | MyInternetChecker/PingIt.cs:15-35 | a successful result carries the time of a successful reply; a failed one has time 0 |
| LegacyPingIt.PingHost | PingIt.cs:44-71 | one send with a one-second timeout; success and its time exactly when the reply succeeded |
| LegacyPingIt.PingHostSimple | PingIt.cs:73-76 | true exactly when the single send succeeded |
| LegacyPingIt.SingleAttemptAgrees | PingIt.cs:44-71 | the older probe gives what the configurable loop gives with one attempt |
| ProbeResults.BlinkFill | MyInternetChecker/ViewModels/MainWindowViewModel.cs:109-111 | on an even tick green iff online and red iff offline; on an odd tick grey |
| ProbeResults.ScanOnline | MyInternetChecker/ViewModels/MainWindowViewModel.cs:151-160 | the tooltip loop answers online exactly when some configured host has a stored time of at least 0, a missing host counting as -1 |
| ProbeResults.WrittenStep | MyInternetChecker/ViewModels/MainWindowViewModel.cs:134-140 | storing one more host's result is one map update |
| ProbeResults.WrittenKeys | MyInternetChecker/ViewModels/MainWindowViewModel.cs:134-140 | storing results adds exactly the hosts probed and leaves every other entry as it was |
| ProbeResults.WrittenLast | MyInternetChecker/ViewModels/MainWindowViewModel.cs:134-140 | a host holds the result of its last occurrence |
| ProbeResults.WrittenDistinct | MyInternetChecker/ViewModels/MainWindowViewModel.cs:134-140 | with distinct hosts, each host holds its own result |
| ProbeResults.OnlineAfterCheck | MyInternetChecker/ViewModels/MainWindowViewModel.cs:145-167 | with distinct hosts, the tooltip reports online right after a check exactly when some probe answered |
| ProbeResults.RepeatedHostLastWins | MyInternetChecker/ViewModels/MainWindowViewModel.cs:134-140 | a host listed twice keeps only its last result, so a check can answer while the tooltip reports offline |
| ProbeResults.StaleEntryCounts | MyInternetChecker/MainWindow.xaml.cs:235-236 | an entry left over from a host no longer checked still counts toward "any stored time is at least 0" |
| MainWindowViewModel.Reconciled | MyInternetChecker/ViewModels/MainWindowViewModel.cs:169-176 | the new map holds exactly the configured hosts, each with its stored time or -1 |
| MainWindowViewModel.ReconciledIdempotent | MyInternetChecker/ViewModels/MainWindowViewModel.cs:169-176 | reconciling twice for the same hosts changes nothing more |
| MainWindowViewModel.MainWindowViewModel.constructor | MyInternetChecker/ViewModels/MainWindowViewModel.cs:31-42 | -1 for every configured host, a red indicator, no tick in progress |
| MainWindowViewModel.MainWindowViewModel.UpdatePingResultsDictionary | MyInternetChecker/ViewModels/MainWindowViewModel.cs:169-176 | the loop rebuilds the map as `Reconciled` |
| MainWindowViewModel.MainWindowViewModel.CheckInternetConnection | MyInternetChecker/ViewModels/MainWindowViewModel.cs:124-143 | each host's result is stored, and the answer is whether any probe answered |
| MainWindowViewModel.MainWindowViewModel.BeginTick | MyInternetChecker/ViewModels/MainWindowViewModel.cs:100-105 | a tick proceeds exactly when none is in progress |
| MainWindowViewModel.MainWindowViewModel.EndTick | MyInternetChecker/ViewModels/MainWindowViewModel.cs:106-121 | the results are stored, the indicator blinks as `BlinkFill`, the counter flips, and the guard clears |
| MainWindowViewModel.MainWindowViewModel.ApplyHostsChanged | MyInternetChecker/ViewModels/MainWindowViewModel.cs:78-90 | after reconciling and checking at once, the indicator is green iff any stored time is at least 0, and the blink restarts |
| MainWindowViewModel.MainWindowViewModel.ToolTipOnline | MyInternetChecker/ViewModels/MainWindowViewModel.cs:151-160 | online exactly when some configured host has a stored time of at least 0 |
| MainWindowViewModel.AppliedGreenIff | MyInternetChecker/ViewModels/MainWindowViewModel.cs:78-90 | after the hosts change, with distinct hosts, the indicator turns green exactly when some probe answered |
| MainWindow.MainWindow.constructor | MyInternetChecker/MainWindow.xaml.cs:38-63 | grey, no animation, offline assumed, one fresh cancellation source |
| MainWindow.MainWindow.CheckInternetConnection | MyInternetChecker/MainWindow.xaml.cs:149-168 | each host's result is stored, and the answer is whether any probe answered |
| MainWindow.MainWindow.BeginTick | MyInternetChecker/MainWindow.xaml.cs:111-113 | a tick proceeds exactly when none is in progress |
| MainWindow.MainWindow.EndTick | MyInternetChecker/MainWindow.xaml.cs:116-146 | the animation switches exactly when availability differs from the remembered state, to the new state's animation and colour; otherwise nothing visible changes |
| MainWindow.MainWindow.ShowSettingsWindow | MyInternetChecker/MainWindow.xaml.cs:210-250 | the running probes are cancelled and a new source is made; when accepted, the reloaded hosts are checked and the indicator is green iff any stored time is at least 0 |
| MainWindow.MainWindow.ToolTipOnline | MyInternetChecker/MainWindow.xaml.cs:176-185 | online exactly when some configured host has a stored time of at least 0 |
| MainWindow.FirstTickOffline | MyInternetChecker/MainWindow.xaml.cs:32 | a first tick with no answer switches no animation |
| MainWindow.RepeatedTickNoSwitch | MyInternetChecker/MainWindow.xaml.cs:117-132 | a second tick with the same availability never switches |
| LegacyConfig.HostsToCheckValid | Config.cs:14-18 | the static constructor's check passes: the hosts are non-empty and distinct |
| LegacyConfig.SameAsDefaults | Config.cs:11-12 | the older layout checks the default hosts at the default interval |
| LegacyMainWindow.Seeded | MainWindow.xaml.cs:34-37 | -1 for exactly the configured hosts |
| LegacyMainWindow.SeededOffline | MainWindow.xaml.cs:34-37 | before the first tick the tooltip reports offline |
| LegacyMainWindow.MainWindow.constructor | MainWindow.xaml.cs:28-40 | every configured host starts unreachable, the counter at 0 |
| LegacyMainWindow.MainWindow.CheckInternetConnection | MainWindow.xaml.cs:74-86 | each fixed host's result is stored, and the answer is whether any probe answered |
| LegacyMainWindow.MainWindow.BeginTick | MainWindow.xaml.cs:52-55 | a tick proceeds exactly when none is in progress |
| LegacyMainWindow.MainWindow.EndTick | MainWindow.xaml.cs:57-71 | the results are stored, the fill blinks as `BlinkFill`, and the counter flips |
| LegacyMainWindow.MainWindow.ToolTipOnline | MainWindow.xaml.cs:95-101 | online exactly when some configured host has a stored time of at least 0 |
| LegacyMainWindow.ToolTipAgreesWithTick | MainWindow.xaml.cs:74-101 | after any tick, the tooltip reports online exactly when some probe answered |
| LegacyMainWindow.TwoTicks | MainWindow.xaml.cs:50-72 | two ticks restore the counter, and exactly one of them shows grey |
| HistoryManager.Evict | MyInternetChecker/Chart/HistoryManager.cs:24-27 | what is left is no longer than the queue, and its front sample is at most a minute old |
| HistoryManager.EvictSuffix | MyInternetChecker/Chart/HistoryManager.cs:24-27 | what is left is a suffix of the queue: only samples more than a minute older than now are dropped, and only from the front |
| HistoryManager.HistoryManager.AddPingResult | MyInternetChecker/Chart/HistoryManager.cs:15-28 | the sample is enqueued and stale samples are dropped from the host's queue only |
| HistoryManager.HistoryManager.GetLatestPing | MyInternetChecker/Chart/HistoryManager.cs:42-47 | a host with samples gets the ping at the front of its queue (the oldest kept), and a host without any gets -1; the result is one of the twone |
| HistoryManager.LatestHistory | MyInternetChecker/Chart/HistoryManager.cs:30-40 | a host without history gives an empty list |
| HistoryManager.HistoryManager.GetLatestHistoryForHost | MyInternetChecker/Chart/HistoryManager.cs:30-40 | the recent pings of the host's queue, never more than it holds, and none for an unknown host |
| HistoryManager.LatestPingLeadsHistory | MyInternetChecker/Chart/HistoryManager.cs:30-47 | while the front sample is at most a minute old, as after an add, `GetLatestPing` is the first point of the latest history |
| HistoryManager.EvictKeepsNewest | MyInternetChecker/Chart/HistoryManager.cs:21-27 | the sample just added is never evicted |
| HistoryManager.EvictKeepsMinuteOld | MyInternetChecker/Chart/HistoryManager.cs:24 | a sample exactly one minute old is kept |
| HistoryManager.EvictLeavesRecent | MyInternetChecker/Chart/HistoryManager.cs:24-27 | in a chronological queue, everything kept is at most a minute old |
| HistoryManager.RecentOfAppend | MyInternetChecker/Chart/HistoryManager.cs:36-37 | a sample is listed exactly when it is at most a minute old, in queue order |
| HistoryManager.RecentOfFresh | MyInternetChecker/Chart/HistoryManager.cs:36-37 | when every sample is recent, all their pings are listed |
| HistoryManager.RecentOfStale | MyInternetChecker/Chart/HistoryManager.cs:36 | stale samples are never listed |
| HistoryManager.AfterAdd | MyInternetChecker/Chart/HistoryManager.cs:15-40 | after adding, the host's queue and its history end with the new ping, and other hosts are untouched |
| HistoryManager.MinuteScenario | MyInternetChecker/Chart/HistoryManager.cs:13-47 | a sample 61 seconds old is dropped when the next one arrives |
| HistoryWindow.Append | MyInternetChecker/HistoryWindow.xaml.cs:67-73 | the series ends with the newest value and grows by one at most, never past 100 points |
| HistoryWindow.AppendShifts | MyInternetChecker/HistoryWindow.xaml.cs:67-73 | below the cap the series grows; at the cap the oldest point goes |
| HistoryWindow.UpdateHost | MyInternetChecker/HistoryWindow.xaml.cs:55-73 | only the visited host's series may change |
| HistoryWindow.Updated | MyInternetChecker/HistoryWindow.xaml.cs:51-75 | no series is added or dropped: the chart keeps exactly its hosts |
| HistoryWindow.UpdatedUnchanged | MyInternetChecker/HistoryWindow.xaml.cs:55-61 | the series of a host not visited, or without recent history, is unchanged |
| HistoryWindow.UpdatedBounded | MyInternetChecker/HistoryWindow.xaml.cs:66-73 | no series grows past the larger of the cap of 100 points and its old length |
| HistoryWindow.Seeded | MyInternetChecker/HistoryWindow.xaml.cs:27-40 | a series for exactly the configured hosts, each holding that host's recent history |
| HistoryWindow.HistoryWindow.constructor | MyInternetChecker/HistoryWindow.xaml.cs:19-49 | the seeding loop builds `Seeded` |
| HistoryWindow.HistoryWindow.UpdateChartData | MyInternetChecker/HistoryWindow.xaml.cs:51-75 | the loop computes `Updated` |
| HistoryWindow.UpdatedOnce | MyInternetChecker/HistoryWindow.xaml.cs:51-75 | a host listed once with recent history gains exactly its newest value |
| HostLists.RemoveFirst | MyInternetChecker/ViewModels/HostsSettingsViewModel.cs:123 | `Collection.Remove` shortens the list by one exactly when the element is present, and adds nothing |
| HostLists.RemoveFirstSplits | MyInternetChecker/ViewModels/HostsSettingsViewModel.cs:123 | the list is cut at the first occurrence, keeping the order around it |
| HostLists.RemoveFirstCounts | MyInternetChecker/ViewModels/HostsSettingsViewModel.cs:123 | one occurrence fewer of the element, the same count of every other |
| HostLists.RemoveFirstFromDistinct | MyInternetChecker/HostsSettingsWindow.xaml.cs:95-97 | removing from a duplicate-free list keeps it duplicate-free and leaves no occurrence |
| HostLists.AppendFresh | MyInternetChecker/ViewModels/HostsSettingsViewModel.cs:107-114 | appending a new element keeps a list duplicate-free |
| HostsSettingsViewModel.HostLines | MyInternetChecker/ViewModels/HostsSettingsViewModel.cs:55-60 | the hosts shown are trimmed, non-empty and never comments |
| HostsSettingsViewModel.HostLinesMembership | MyInternetChecker/ViewModels/HostsSettingsViewModel.cs:55-60 | a host is shown exactly when some line trims to it and it is not a comment |
| HostsSettingsViewModel.HostLinesAppend | MyInternetChecker/ViewModels/HostsSettingsViewModel.cs:55-60 | one more line adds its trimmed text when that text names a host |
| HostsSettingsViewModel.FirstLineFor | MyInternetChecker/ViewModels/HostsSettingsViewModel.cs:125 | the line found trims to the host; none is found only when no line does |
| HostsSettingsViewModel.DefaultsAreHostLines | MyInternetChecker/ViewModels/HostsSettingsViewModel.cs:64-72 | the default hosts are their own host lines |
| HostsSettingsViewModel.DeleteMatches | MyInternetChecker/ViewModels/HostsSettingsViewModel.cs:118-128 | deleting the first raw line that trims to a host deletes that host from the list shown |
| HostsSettingsViewModel.AddedCommentNotReloaded | MyInternetChecker/ViewModels/HostsSettingsViewModel.cs:98-116 | a host starting with `#` can be added, but read back it is a comment and is no longer listed |
| HostsSettingsViewModel.HostsSettingsViewModel.constructor | MyInternetChecker/ViewModels/HostsSettingsViewModel.cs:18-26 | the file is loaded and the list matches its lines |
| HostsSettingsViewModel.HostsSettingsViewModel.Load | MyInternetChecker/ViewModels/HostsSettingsViewModel.cs:43-80 | every raw line is kept and the host lines shown; with no file, the two defaults; when the read throws, empty lists and an error |
| HostsSettingsViewModel.HostsSettingsViewModel.AddNewHost | MyInternetChecker/ViewModels/HostsSettingsViewModel.cs:98-116 | an empty or already listed host is refused with its message; otherwise it is appended to both lists; no duplicates appear |
| HostsSettingsViewModel.HostsSettingsViewModel.DeleteHost | MyInternetChecker/ViewModels/HostsSettingsViewModel.cs:118-128 | nothing for a missing or blank host; otherwise the host and its first line go, and the lists stay consistent |
| HostsSettingsWindow.HostsSettingsWindow.constructor | MyInternetChecker/HostsSettingsWindow.xaml.cs:17-40 | a copy of the configured hosts, or an empty list when reading them throws |
| HostsSettingsWindow.HostsSettingsWindow.AddNewHost | MyInternetChecker/HostsSettingsWindow.xaml.cs:71-91 | an empty or already listed host is refused with its message; otherwise it is appended and the box cleared |
| HostsSettingsWindow.HostsSettingsWindow.DeleteHost | MyInternetChecker/HostsSettingsWindow.xaml.cs:93-99 | the first occurrence of the button's host goes |
| HostsSettingsWindow.HostsSettingsWindow.SaveHosts | MyInternetChecker/HostsSettingsWindow.xaml.cs:43-56 | the list is saved and the dialog closes with true; when saving throws, it stays open |
| HostsSettingsWindow.HostsSettingsWindow.Cancel | MyInternetChecker/HostsSettingsWindow.xaml.cs:106-110 | the dialog closes with false and the list is untouched |
| HostsSettingsWindow.SaveThenReload | MyInternetChecker/HostsSettingsWindow.xaml.cs:43-56 | after the dialog saves, a reload shows exactly the dialog's list |

## Left out

- File I/O is not modelled. The settings file is a value (`SettingsFile`), and the hosts file of the settings view model is a value (`HostsFile`).
- `HostsSettingsViewModel.Save` only writes `_AllFileLines` to disk, so it has no model; the list it writes is the `allFileLines` field.
- `Config.SettingsFilePath` is not part of this model.
- The ICMP send is an oracle, one outcome per attempt. Timeouts, DNS and the exceptions other than `PingException` are its outcomes.
- Concurrency is not modelled: the locks, `ConcurrentDictionary`/`ConcurrentQueue`, the async state machines and `Task.WhenAll`. Each tick is a begin step and an end step, and the probe results come as a sequence aligned with the hosts.
- `SettingsLoader.LoadWindowPosition` and the window geometry are not modelled. Parsing doubles is a platform call, so the loaded position is the default.
- Window dragging, clamping to the screen and `WindowPositionManager` are not modelled.
- `double.ToString()` is the parameter `showReal`.
- `ColorSettings` and `WindowPosition` are not part of this model. Their defaults are stand-ins: empty colours and position (0, 0).
- Case-insensitive key comparison folds ASCII letters only.
- `StartsWith("#")`, `StartsWith(";")`, `StartsWith("[")` and `EndsWith("]")` in `IniParser.Parse`, and `host.StartsWith("#")` in `SettingsLoader.LoadHosts`, compare by the current culture, which ignores characters such as U+00AD and U+200B. The model tests the first or last character ordinally, so a line such as "\u00AD# x=1" is skipped by the program but assigned by the model.
- The settings file is the sequence of lines `Save` hands to `File.WriteAllLines`, and `File.ReadAllLines` is taken to return those lines. A text holding '\r' or '\n' breaks that: its line comes back as several lines, and a piece without `=` is dropped. Savable keys and section names and values meeting `CleanValue` hold no line break, and neither do `double.ToString` results or lines read from a file.
- IniParser.SaveThenParse: holds for the line sequence; for a value holding a line break the file round trip gives only the part before the break.
- SettingsSaver.LoadAfterSave: holds for the line sequence; a colour or host holding a line break reloads only up to the break.
- Storyboards, colour animation timing, tooltip text and timestamps are not modelled. The model records which animation runs and the fill it starts from.
- PingIt.PingHostAsync: the number of sends is a ghost out-parameter, so the contract counts sends without any real output for them.
- PingIt.PingHost: likewise.
- The root `PingResult` class is modelled by the same datatype as the record in MyInternetChecker/PingResult.cs, because it has the same quality bands.
- LegacyMainWindow.MainWindow.constructor takes the fill that the window's markup sets as a parameter.
- HostsSettingsWindow: whether a call into `ConfigManager` throws is a parameter.
- HistoryManager samples are not linked to the ticks, because no modelled code calls `AddPingResult`.
- Not part of this model: `Logger`, `AutoStartManager`, `TrayIconManager` and the `Mvvm` helpers, because they hold no checking logic.
