/** The settings object (MyInternetChecker/Config/Models): check interval,
    indicator colours, ping policy, window position and the hosts to probe. */
module SettingsModels {
  import opened Text

  /** `TimeSpan` ticks per second. */
  const TicksPerSecond: int := 10_000_000

  /** A `TimeSpan`, as its count of 100-nanosecond ticks. */
  datatype TimeSpan = TimeSpan(ticks: int)

  /** `TimeSpan.FromSeconds(n)` for a whole number of seconds. */
  function FromSeconds(n: int): (t: TimeSpan)
    ensures t.ticks % TicksPerSecond == 0 && t.ticks / TicksPerSecond == n
  {
    TimeSpan(n * TicksPerSecond)
  }

  /** `(int)t.TotalSeconds`: the seconds truncated toward zero. A value that
      does not fit an `int` is taken to convert to `int.MinValue`, as the x64
      runtime did before .NET 9 (from .NET 9 the cast saturates). The whole
      seconds are computed from the ticks exactly; `TotalSeconds` is a
      `double`, whose rounding near the ends of the `int` range can move the
      result by one. */
  function WholeSeconds(t: TimeSpan): (r: int32)
    ensures MinInt32 <= t.ticks / TicksPerSecond <= MaxInt32 && t.ticks >= 0 ==> r == t.ticks / TicksPerSecond
  {
    var q := if t.ticks >= 0 then t.ticks / TicksPerSecond else -((-t.ticks) / TicksPerSecond);
    if MinInt32 <= q <= MaxInt32 then q else MinInt32
  }

  /** `Math.Clamp(value, min, max)`. */
  function Clamp(value: int, min: int, max: int): (r: int)
    requires min <= max
    ensures min <= r <= max
    ensures min <= value <= max ==> r == value
    ensures value < min ==> r == min
    ensures value > max ==> r == max
  {
    if value < min then min else if value > max then max else value
  }

  /** `Math.Max(a, b)`. */
  function Max(a: int, b: int): (r: int)
    ensures r >= a && r >= b && (r == a || r == b)
  {
    if a >= b then a else b
  }

  /** `ColorSettings`: the indicator colours, as the strings stored in the file. */
  datatype ColorSettings = ColorSettings(online: string, offline: string)

  /** `PingSettings`: the reply timeout in milliseconds and the number of attempts. */
  datatype PingSettings = PingSettings(timeout: int32, attempts: int32)

  /** `WindowPosition`: the window's screen coordinates. */
  datatype WindowPosition = WindowPosition(left: real, top: real)

  /** The values of an `AppSettings` object. */
  datatype Settings = Settings(
    checkInterval: TimeSpan,
    colors: ColorSettings,
    ping: PingSettings,
    window: WindowPosition,
    hosts: seq<string>)

  /** The hosts probed when no others are configured. */
  const DefaultHosts: seq<string> := ["ya.ru", "google.com"]

  /** The defaults of ColorSettings and WindowPosition come from classes that
      are not part of this model; these stand in for them. */
  const DefaultColors: ColorSettings := ColorSettings("", "")
  const DefaultWindow: WindowPosition := WindowPosition(0.0, 0.0)

  /** What `new AppSettings()` holds. */
  const DefaultSettings: Settings :=
    Settings(FromSeconds(1), DefaultColors, PingSettings(1000, 3), DefaultWindow, DefaultHosts)

  /** `AppSettings`: the loader fills it in field by field. */
  class AppSettings {
    var checkInterval: TimeSpan
    var colors: ColorSettings
    var ping: PingSettings
    var window: WindowPosition
    var hosts: seq<string>

    function Value(): Settings
      reads this
    {
      Settings(checkInterval, colors, ping, window, hosts)
    }

    constructor()
      ensures Value() == DefaultSettings
    {
      checkInterval := FromSeconds(1);
      colors := DefaultColors;
      ping := PingSettings(1000, 3);
      window := DefaultWindow;
      hosts := DefaultHosts;
    }
  }

  /** Whole seconds written and read back give the same interval. */
  lemma WholeSecondsOfFromSeconds(n: int32)
    ensures WholeSeconds(FromSeconds(n)) == n
  {
    var t := FromSeconds(n);
    if n < 0 {
      var m: int := -(n as int);
      assert -t.ticks == m * TicksPerSecond;
      assert (-t.ticks) / TicksPerSecond == m;
    }
  }
}
