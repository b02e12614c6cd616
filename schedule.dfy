/** The delay arithmetic of `Updater._schedule_next_update` (bot.py:475-490):
    how many seconds from a wall-clock time to the next 04:20. */
module Schedule {

  const TargetHour := 4
  const TargetMinute := 20
  const SecondsPerDay := 86400

  /** The target time as seconds after midnight. */
  const TargetSecond := TargetHour * 3600 + TargetMinute * 60

  /** Seconds after midnight of a wall-clock time. */
  function SecondOfDay(hour: int, minute: int, second: int): int {
    hour * 3600 + minute * 60 + second
  }

  /** The `seconds` computed from `now.hour`, `now.minute` and `now.second`: at least one
      second and at most a day ahead, and landing exactly on 04:20:00. */
  function SecondsUntilUpdate(hour: int, minute: int, second: int): (seconds: int)
    requires 0 <= hour < 24 && 0 <= minute < 60 && 0 <= second < 60
    ensures 1 <= seconds <= SecondsPerDay
    ensures (SecondOfDay(hour, minute, second) + seconds) % SecondsPerDay == TargetSecond
  {
    if hour > TargetHour || (hour == TargetHour && minute >= TargetMinute) then
      (24 - hour + TargetHour) * 3600 + (TargetMinute - minute) * 60 - second
    else
      (TargetHour - hour) * 3600 + (TargetMinute - minute) * 60 - second
  }

  /** No shorter positive delay reaches 04:20:00: the update is scheduled for the next one. */
  lemma SecondsUntilUpdateIsNext(hour: int, minute: int, second: int, d: int)
    requires 0 <= hour < 24 && 0 <= minute < 60 && 0 <= second < 60
    requires 1 <= d && (SecondOfDay(hour, minute, second) + d) % SecondsPerDay == TargetSecond
    ensures SecondsUntilUpdate(hour, minute, second) <= d
  {
    var now := SecondOfDay(hour, minute, second);
    var s := SecondsUntilUpdate(hour, minute, second);
    var q1 := (now + s) / SecondsPerDay;
    var q2 := (now + d) / SecondsPerDay;
    assert now + s == q1 * SecondsPerDay + TargetSecond;
    assert now + d == q2 * SecondsPerDay + TargetSecond;
    assert d - s == (q2 - q1) * SecondsPerDay;
  }

  /** At exactly 04:20:00 the next update is a full day away, not immediate. */
  lemma AtTargetWaitsADay()
    ensures SecondsUntilUpdate(TargetHour, TargetMinute, 0) == SecondsPerDay
  {
  }
}
