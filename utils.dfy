/**
 * utils.py: the opening-hours gate and the notice shown when the café is
 * closed. The wall clock and the time-zone lookup are not modelled: the hour
 * the lookup produced, or the way it failed, is an input.
 */
module Utils {
  import Text
  import opened Wrappers

  /** The settings of config.py (not part of this model): OPEN_HOUR, CLOSE_HOUR and ADMIN_IDS. */
  datatype Config = Config(openHour: int, closeHour: int, adminIds: set<int>)

  /** What reading the local time gave: an hour, or one of the two failures the gate catches. */
  datatype Clock = LocalHour(hour: int) | UnknownTimeZone | ClockFailure

  /** `is_cafe_open()`: the hour lies in [OPEN_HOUR, CLOSE_HOUR); any failure counts as open. */
  predicate IsCafeOpen(cfg: Config, clock: Clock)
  {
    match clock
    case LocalHour(h) => cfg.openHour <= h < cfg.closeHour
    case UnknownTimeZone => true
    case ClockFailure => true
  }

  /** The interval is half-open: open at OPEN_HOUR (when it precedes CLOSE_HOUR), closed at CLOSE_HOUR. */
  lemma GateBoundaries(cfg: Config)
    ensures IsCafeOpen(cfg, LocalHour(cfg.openHour)) <==> cfg.openHour < cfg.closeHour
    ensures !IsCafeOpen(cfg, LocalHour(cfg.closeHour))
  {
  }

  /** A time-zone or clock error never closes the café. */
  lemma GateFailsOpen(cfg: Config, clock: Clock)
    requires !clock.LocalHour?
    ensures IsCafeOpen(cfg, clock)
  {
  }

  /** The hours 0 .. n - 1 at which the café is open. */
  function OpenHoursBelow(cfg: Config, n: int): set<int>
  {
    set h | 0 <= h < n && IsCafeOpen(cfg, LocalHour(h))
  }

  lemma {:induction false} OpenHoursBelowCount(cfg: Config, n: nat)
    requires 0 <= cfg.openHour <= cfg.closeHour
    ensures |OpenHoursBelow(cfg, n)| ==
      if n <= cfg.openHour then 0
      else if n <= cfg.closeHour then n - cfg.openHour
      else cfg.closeHour - cfg.openHour
  {
    if n > 0 {
      OpenHoursBelowCount(cfg, n - 1);
      if IsCafeOpen(cfg, LocalHour(n - 1)) {
        assert OpenHoursBelow(cfg, n) == OpenHoursBelow(cfg, n - 1) + {n - 1};
      } else {
        assert OpenHoursBelow(cfg, n) == OpenHoursBelow(cfg, n - 1);
      }
    } else {
      assert OpenHoursBelow(cfg, n) == {};
    }
  }

  /** Over one day (hours 0 to 23) the café is open for exactly CLOSE_HOUR - OPEN_HOUR hours. */
  lemma OpenHoursPerDay(cfg: Config)
    requires 0 <= cfg.openHour <= cfg.closeHour <= 24
    ensures |OpenHoursBelow(cfg, 24)| == cfg.closeHour - cfg.openHour
  {
    OpenHoursBelowCount(cfg, 24);
  }

  const ClosedPrefix: string := "🌙 Кафе закрыто.\nМы работаем ежедневно с "
  const ClosedMiddle: string := ":00 до "

  /** `get_closed_message()`. */
  function ClosedMessage(cfg: Config): string
  {
    ClosedPrefix + Text.IntToString(cfg.openHour) + ClosedMiddle + Text.IntToString(cfg.closeHour) + ":00."
  }

  /** The notice names both hours, and each can be read back from it. */
  lemma ClosedMessageNamesHours(cfg: Config)
    ensures var m := ClosedMessage(cfg);
            var o := Text.IntToString(cfg.openHour);
            var c := Text.IntToString(cfg.closeHour);
            var at := |ClosedPrefix| + |o| + |ClosedMiddle|;
            && m[|ClosedPrefix|..|ClosedPrefix| + |o|] == o
            && m[at..at + |c|] == c
            && Text.ParseInt(m[|ClosedPrefix|..|ClosedPrefix| + |o|]) == Some(cfg.openHour)
            && Text.ParseInt(m[at..at + |c|]) == Some(cfg.closeHour)
  {
    var o := Text.IntToString(cfg.openHour);
    var c := Text.IntToString(cfg.closeHour);
    var m := ClosedMessage(cfg);
    var at := |ClosedPrefix| + |o| + |ClosedMiddle|;
    assert m == ClosedPrefix + o + ClosedMiddle + c + ":00.";
    assert m[|ClosedPrefix|..|ClosedPrefix| + |o|] == o;
    assert m[at..at + |c|] == c;
    Text.ParseIntRoundTrip(cfg.openHour);
    Text.ParseIntRoundTrip(cfg.closeHour);
  }
}
