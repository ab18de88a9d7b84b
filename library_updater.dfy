/** The scheduler of the library auto-update: when the next run is due, and
    the service that fires it on host ticks when Kodi is idle. Datetimes are
    naive local times counted in seconds from 1970-01-01 00:00. */
module LibraryUpdater {
  import opened Wrappers
  import opened Strings

  const SecondsPerDay: int := 86400
  const IdleThreshold: int := 300
  /** The start time used when 'lib_auto_upd_start' is empty. */
  const DefaultStartTime: string := "00:00"

  /** What the settings and the two databases return. A `None` setting is one
      whose reading raises (the settings file does not exist yet). */
  datatype Config = Config(
    autoUpdateMode: Option<int>,   // 'lib_auto_upd_mode'; 2 is "scheduled"
    waitIdle: bool,                // 'lib_auto_upd_wait_idle'
    useMysql: Option<bool>,        // 'use_mysql'
    clientUuid: Option<string>,    // local 'client_uuid'
    deviceUuid: Option<string>,    // shared 'auto_update_device_uuid'
    startTime: string,             // 'lib_auto_upd_start', "HH:MM" or empty
    frequency: Option<int>)        // 'lib_auto_upd_freq', an index into [1, 2, 5, 7]

  // ---------------------------------------------------------------------------
  // Python's int() and slicing as `_compute_next_schedule` uses them

  /** The characters Python's `str.isspace` accepts, which `int()` strips. */
  predicate IsSpace(c: char)
  {
    || c == ' ' || c == '\t' || c == '\n' || c == '\r' || c == '\U{B}' || c == '\U{C}'
    || ('\U{1C}' <= c <= '\U{1F}') || c == '\U{85}' || c == '\U{A0}' || c == '\U{1680}'
    || ('\U{2000}' <= c <= '\U{200A}') || c == '\U{2028}' || c == '\U{2029}' || c == '\U{202F}'
    || c == '\U{205F}' || c == '\U{3000}'
  }

  function TrimStart(s: string): (r: string)
    ensures |r| <= |s| && r == s[|s| - |r|..]
    ensures r != [] ==> !IsSpace(r[0])
  {
    if s != [] && IsSpace(s[0]) then TrimStart(s[1..]) else s
  }

  function TrimEnd(s: string): (r: string)
    ensures |r| <= |s| && r == s[..|r|]
    ensures r != [] ==> !IsSpace(r[|r| - 1])
  {
    if s != [] && IsSpace(s[|s| - 1]) then TrimEnd(s[..|s| - 1]) else s
  }

  /** `int(s)` on a string: surrounding whitespace, an optional sign, then
      ASCII decimal digits; anything else raises (`None`). Python also takes
      non-ASCII decimal digits (and, from 3.6, underscores between digits);
      those are read here as no number. */
  function PyInt(s: string): Option<int>
  {
    var t := TrimEnd(TrimStart(s));
    if t != [] && (t[0] == '+' || t[0] == '-') then
      match ParseNat(t[1..])
      case None => None
      case Some(n) =>
        var v: int := n;
        Some(if t[0] == '-' then -v else v)
    else
      match ParseNat(t)
      case None => None
      case Some(n) => Some(n)
  }

  /** On plain digits `int()` is the decimal value. */
  lemma PyIntOfDigits(s: string)
    requires IsDigits(s)
    ensures PyInt(s) == Some(DigitsValue(s))
  {
    assert TrimStart(s) == s;
    assert TrimEnd(s) == s;
    assert IsDigit(s[0]);
  }

  function Min(a: int, b: int): int
  {
    if a < b then a else b
  }

  /** `s[i:j]` for 0 <= i <= j: both bounds clamp to the length. */
  function Slice(s: string, i: nat, j: nat): (r: string)
    requires i <= j
    ensures |r| == Min(j, |s|) - Min(i, |s|)
  {
    s[Min(i, |s|)..Min(j, |s|)]
  }

  // ---------------------------------------------------------------------------
  // `_compute_next_schedule`

  /** The configured time of day as (hour, minute); an empty setting means
      "00:00"; a part that `int()` rejects, or an hour or minute that
      `datetime.replace` rejects, gives `None`. */
  function ParseTimeOfDay(setting: string): (r: Option<(int, int)>)
    ensures r.Some? ==> 0 <= r.value.0 < 24 && 0 <= r.value.1 < 60
  {
    var time := if |setting| == 0 then DefaultStartTime else setting;
    var h, m := PyInt(Slice(time, 0, 2)), PyInt(Slice(time, 3, 5));
    if h.Some? && m.Some? && 0 <= h.value < 24 && 0 <= m.value < 60 then Some((h.value, m.value)) else None
  }

  /** `[1, 2, 5, 7][index]`, negative indices counting from the end. */
  function FrequencyDays(index: int): (r: Option<int>)
    ensures r.Some? <==> -4 <= index < 4
    ensures r.Some? ==> r.value in {1, 2, 5, 7}
  {
    var days := [1, 2, 5, 7];
    if 0 <= index < 4 then Some(days[index])
    else if -4 <= index < 0 then Some(days[index + 4])
    else None
  }

  /** The day start and the second of the day of a time. */
  function DayOf(t: int): int { t / SecondsPerDay }
  function SecondOfDay(t: int): int { t % SecondsPerDay }

  /** `last_run.replace(hour=h, minute=m) + timedelta(days=days)`. */
  function NextRun(t: int, h: int, m: int, days: int): int
  {
    t - SecondOfDay(t) + h * 3600 + m * 60 + t % 60 + days * SecondsPerDay
  }

  /** `_compute_next_schedule`: none when the settings cannot be read or,
      with a shared MySQL database, when another device owns the auto-update;
      else the last start (1970-01-01 when never started) with its hour and
      minute replaced by the configured ones, plus the frequency in days. */
  function ComputeNextSchedule(config: Config, lastStart: Option<int>): (r: Option<int>)
  {
    if config.useMysql.None? then None
    else if config.useMysql.value && config.clientUuid != config.deviceUuid then None
    else
      var t := if lastStart.Some? then lastStart.value else 0;
      var time := ParseTimeOfDay(config.startTime);
      var days := if config.frequency.Some? then FrequencyDays(config.frequency.value) else None;
      if time.None? || days.None? then None
      else Some(NextRun(t, time.value.0, time.value.1, days.value))
  }

  // ---------------------------------------------------------------------------
  // Properties of the schedule

  lemma DivModDay(r: int, q: int, rem: int)
    requires r == SecondsPerDay * q + rem && 0 <= rem < SecondsPerDay
    ensures r / SecondsPerDay == q && r % SecondsPerDay == rem
  {
  }

  lemma DivModHour(r: int, q: int, rem: int)
    requires r == 3600 * q + rem && 0 <= rem < 3600
    ensures r / 3600 == q && r % 3600 == rem
  {
  }

  lemma DivModMinute(r: int, q: int, rem: int)
    requires r == 60 * q + rem && 0 <= rem < 60
    ensures r / 60 == q && r % 60 == rem
  {
  }

  /** Replacing the hour and minute of `t` and adding `days` days. */
  lemma ReplaceTimeAndAddDays(t: int, h: int, m: int, days: int)
    requires 0 <= h < 24 && 0 <= m < 60
    ensures var r := NextRun(t, h, m, days);
            && DayOf(r) == DayOf(t) + days
            && SecondOfDay(r) == h * 3600 + m * 60 + t % 60
            && SecondOfDay(r) / 3600 == h
            && SecondOfDay(r) % 3600 / 60 == m
            && r % 60 == t % 60
  {
    var r := NextRun(t, h, m, days);
    var tod := h * 3600 + m * 60 + t % 60;
    DivModDay(t, DayOf(t), SecondOfDay(t));
    assert r == SecondsPerDay * (DayOf(t) + days) + tod;
    DivModDay(r, DayOf(t) + days, tod);
    DivModHour(tod, h, m * 60 + t % 60);
    DivModMinute(m * 60 + t % 60, m, t % 60);
    DivModMinute(r, 1440 * (DayOf(t) + days) + 60 * h + m, t % 60);
  }

  /** The schedule falls `days` calendar days after the last start's day, at
      the configured hour and minute, keeping the last start's seconds. */
  lemma NextScheduleAt(config: Config, lastStart: Option<int>)
    ensures var r := ComputeNextSchedule(config, lastStart);
            var t := if lastStart.Some? then lastStart.value else 0;
            r.Some? ==>
              && ParseTimeOfDay(config.startTime).Some?
              && config.frequency.Some? && FrequencyDays(config.frequency.value).Some?
              && var (h, m) := ParseTimeOfDay(config.startTime).value;
                 var days := FrequencyDays(config.frequency.value).value;
                 && DayOf(r.value) == DayOf(t) + days
                 && SecondOfDay(r.value) / 3600 == h
                 && SecondOfDay(r.value) % 3600 / 60 == m
                 && r.value % 60 == t % 60
  {
    var r := ComputeNextSchedule(config, lastStart);
    var t := if lastStart.Some? then lastStart.value else 0;
    if r.Some? {
      var (h, m) := ParseTimeOfDay(config.startTime).value;
      var days := FrequencyDays(config.frequency.value).value;
      ReplaceTimeAndAddDays(t, h, m, days);
    }
  }

  /** The next run is strictly after the last start, and within a day of
      `days` days later. */
  lemma NextScheduleAfterLastStart(config: Config, lastStart: Option<int>)
    ensures var r := ComputeNextSchedule(config, lastStart);
            var t := if lastStart.Some? then lastStart.value else 0;
            r.Some? ==>
              && r.value > t
              && var days := FrequencyDays(config.frequency.value).value;
                 (days - 1) * SecondsPerDay < r.value - t < (days + 1) * SecondsPerDay
  {
    NextScheduleAt(config, lastStart);
  }

  /** No schedule exactly when a setting cannot be read, another device owns
      the auto-update, the time is malformed or the frequency index is out
      of range. */
  lemma NoScheduleIff(config: Config, lastStart: Option<int>)
    ensures ComputeNextSchedule(config, lastStart).None? <==>
              || config.useMysql.None?
              || (config.useMysql.value && config.clientUuid != config.deviceUuid)
              || ParseTimeOfDay(config.startTime).None?
              || config.frequency.None?
              || !(-4 <= config.frequency.value < 4)
  {
  }

  /** The time the settings dialog stores, "HH:MM", reads back as that hour
      and minute. */
  lemma TimeOfDayRoundTrip(h: nat, m: nat)
    requires h < 24 && m < 60
    ensures ParseTimeOfDay(Pad2(h) + ":" + Pad2(m)) == Some((h, m))
  {
    ParsePad2(h);
    ParsePad2(m);
    var hh, mm := Pad2(h), Pad2(m);
    var s := hh + ":" + mm;
    assert Slice(s, 0, 2) == hh;
    assert Slice(s, 3, 5) == mm;
    PyIntOfDigits(hh);
    PyIntOfDigits(mm);
  }

  /** An empty time setting means midnight. */
  lemma EmptyTimeIsMidnight(setting: string)
    requires |setting| == 0
    ensures ParseTimeOfDay(setting) == Some((0, 0))
  {
    DefaultStartTimeIsMidnight();
    TimeOfDayRoundTrip(0, 0);
  }

  lemma DefaultStartTimeIsMidnight()
    ensures DefaultStartTime == Pad2(0) + ":" + Pad2(0)
  {
    assert Pad2(0) == "00";
  }

  // ---------------------------------------------------------------------------
  // The idle detector

  /** One call of `is_idle` with wait-idle enabled: the new idle start and
      the answer. */
  function IdleStep(startIdle: int, lastIdle: nat, playing: bool): (r: (int, bool))
  {
    var s1 := if playing then lastIdle else startIdle;
    var s2 := if lastIdle < s1 then 0 else s1;
    (s2, lastIdle - s2 >= IdleThreshold)
  }

  /** After the resets the idle start never exceeds the idle time; playing
      is never idle; otherwise idle means five minutes since the idle start. */
  lemma IdleStepProperties(startIdle: int, lastIdle: nat, playing: bool)
    ensures var (s, idle) := IdleStep(startIdle, lastIdle, playing);
            && s <= lastIdle
            && s in {startIdle, lastIdle, 0}
            && (playing ==> !idle && s == lastIdle)
            && (idle <==> lastIdle - s >= 300)
            && (!playing && 0 <= startIdle <= lastIdle ==> s == startIdle)
  {
  }

  // ---------------------------------------------------------------------------
  // The service

  /** `LibraryUpdateService`: whether scheduled updates are on, the idle
      start, the next scheduled time; with the shared database's last start
      and the count of 'library_auto_update' signals sent. */
  class LibraryUpdateService {
    var enabled: bool
    var startIdle: int
    var nextSchedule: Option<int>
    var lastStart: Option<int>
    var signalsSent: nat

    /** `__init__`: a mode that cannot be read means disabled. */
    constructor(config: Config, storedLastStart: Option<int>)
      ensures enabled == (config.autoUpdateMode == Some(2))
      ensures startIdle == 0 && lastStart == storedLastStart && signalsSent == 0
      ensures nextSchedule == ComputeNextSchedule(config, storedLastStart)
    {
      enabled := config.autoUpdateMode == Some(2);
      startIdle := 0;
      lastStart := storedLastStart;
      nextSchedule := ComputeNextSchedule(config, storedLastStart);
      signalsSent := 0;
    }

    /** `is_idle`: always idle when waiting for idle is off; otherwise the
        idle start follows the player and the idle time. */
    method IsIdle(config: Config, lastIdle: nat, playing: bool) returns (idle: bool)
      modifies this
      ensures !config.waitIdle ==> idle && startIdle == old(startIdle)
      ensures config.waitIdle ==> (startIdle, idle) == IdleStep(old(startIdle), lastIdle, playing)
      ensures enabled == old(enabled) && nextSchedule == old(nextSchedule)
      ensures lastStart == old(lastStart) && signalsSent == old(signalsSent)
    {
      if !config.waitIdle {
        return true;
      }
      if playing {
        startIdle := lastIdle;
      }
      if lastIdle < startIdle {
        startIdle := 0;
      }
      idle := lastIdle - startIdle >= IdleThreshold;
    }

    /** `on_service_tick`: when enabled and a schedule is due, ask whether
        Kodi is idle; when it is, signal the update, record the start and
        compute the next schedule from it. */
    method OnServiceTick(config: Config, now: int, lastIdle: nat, playing: bool) returns (fired: bool)
      modifies this
      ensures fired <==> old(enabled) && old(nextSchedule).Some? && old(nextSchedule).value <= now
                         && (!config.waitIdle || IdleStep(old(startIdle), lastIdle, playing).1)
      ensures fired ==> signalsSent == old(signalsSent) + 1 && lastStart == Some(now)
                        && nextSchedule == ComputeNextSchedule(config, Some(now))
      ensures !fired ==> signalsSent == old(signalsSent) && lastStart == old(lastStart)
                         && nextSchedule == old(nextSchedule)
      ensures enabled == old(enabled)
      ensures !(old(enabled) && old(nextSchedule).Some? && old(nextSchedule).value <= now) ==>
                startIdle == old(startIdle)
      ensures old(enabled) && old(nextSchedule).Some? && old(nextSchedule).value <= now ==>
                startIdle == if config.waitIdle then IdleStep(old(startIdle), lastIdle, playing).0 else old(startIdle)
    {
      fired := false;
      if !enabled {
        return;
      }
      if nextSchedule.Some? && nextSchedule.value <= now {
        var idle := IsIdle(config, lastIdle, playing);
        if idle {
          signalsSent := signalsSent + 1;
          lastStart := Some(now);
          nextSchedule := ComputeNextSchedule(config, lastStart);
          fired := true;
        }
      }
    }

    /** `onSettingsChanged`: read the mode again (a mode that cannot be read
        raises here, changing nothing) and, when enabled, the schedule. */
    method OnSettingsChanged(config: Config) returns (raised: bool)
      modifies this
      ensures raised <==> config.autoUpdateMode.None?
      ensures raised ==> enabled == old(enabled) && nextSchedule == old(nextSchedule)
      ensures !raised ==> enabled == (config.autoUpdateMode.value == 2)
      ensures !raised && enabled ==> nextSchedule == ComputeNextSchedule(config, lastStart)
      ensures !raised && !enabled ==> nextSchedule == old(nextSchedule)
      ensures startIdle == old(startIdle) && lastStart == old(lastStart) && signalsSent == old(signalsSent)
    {
      if config.autoUpdateMode.None? {
        return true;
      }
      enabled := config.autoUpdateMode.value == 2;
      if enabled {
        nextSchedule := ComputeNextSchedule(config, lastStart);
      }
      return false;
    }
  }

  lemma ScheduleIsNextRun(config: Config, lastStart: Option<int>, h: int, m: int)
    requires config.useMysql == Some(false) && config.frequency == Some(1)
    requires ParseTimeOfDay(config.startTime) == Some((h, m))
    ensures lastStart.Some? ==> ComputeNextSchedule(config, lastStart) == Some(NextRun(lastStart.value, h, m, 2))
  {
    assert FrequencyDays(1) == Some(2);
  }

  lemma NextRunExample(t: int, h: int, m: int)
    requires SecondOfDay(t) == h * 3600 + m * 60 + t % 60 && SecondOfDay(t) + 60 < SecondsPerDay
    ensures NextRun(t, h, m, 2) == t + 2 * SecondsPerDay
    ensures NextRun(t + 2 * SecondsPerDay + 60, h, m, 2) == t + 4 * SecondsPerDay
  {
    var now := t + 2 * SecondsPerDay + 60;
    DivModDay(t, DayOf(t), SecondOfDay(t));
    DivModDay(now, DayOf(t) + 2, SecondOfDay(t) + 60);
    DivModMinute(t, t / 60, t % 60);
    DivModMinute(now, t / 60 + 2881, t % 60);
  }

  /** The scheduling example: every two days, the start time written
      `HH:MM`, last run at T (at that time); a tick two days and a minute
      later finds the schedule due, and the next run is T plus four days. */
  lemma TickExample(config: Config, t: int, h: nat, m: nat)
    requires h < 24 && m < 60 && config.startTime == Pad2(h) + ":" + Pad2(m)
    requires config.useMysql == Some(false) && config.frequency == Some(1)
    requires SecondOfDay(t) == h * 3600 + m * 60 + t % 60 && SecondOfDay(t) + 60 < SecondsPerDay
    ensures ComputeNextSchedule(config, Some(t)) == Some(t + 2 * SecondsPerDay)
    ensures ComputeNextSchedule(config, Some(t + 2 * SecondsPerDay + 60)) == Some(t + 4 * SecondsPerDay)
  {
    TimeOfDayRoundTrip(h, m);
    ScheduleIsNextRun(config, Some(t), h, m);
    ScheduleIsNextRun(config, Some(t + 2 * SecondsPerDay + 60), h, m);
    NextRunExample(t, h, m);
  }
}
