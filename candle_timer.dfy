/** The one-minute candle countdown (components/CandleTimer.tsx): seconds to
    the next minute boundary, a callback fired once when 15 seconds are left,
    and the colour of the timer and its bar. */
module CandleTimer {
  import opened Types

  type Minute = m: int | 0 <= m < 60
  type Second = s: int | 0 <= s < 60
  type Millisecond = ms: int | 0 <= ms < 1000

  /** What the component reads from a `new Date()`: `getMinutes()`,
      `getSeconds()` and `getMilliseconds()`, in local time. */
  datatype WallClock = WallClock(minutes: Minute, seconds: Second, milliseconds: Millisecond)

  /** The seconds-left value at which the callback is due. */
  const SIGNAL_SECONDS: int := 15

  function Max(a: int, b: int): int
  {
    if a >= b then a else b
  }

  /** `calculateTimeLeft`: whole seconds until the next minute boundary,
      `max(0, floor(60 - (seconds + ms / 1000)))`, in integer milliseconds. */
  function SecondsLeft(now: WallClock): (r: int)
    ensures 0 <= r <= 60
    ensures r * 1000 <= 60000 - (1000 * now.seconds + now.milliseconds) < (r + 1) * 1000
    ensures now.milliseconds == 0 ==> r == 60 - now.seconds
    ensures now.milliseconds != 0 ==> r == 59 - now.seconds
  {
    var timeLeftMillis := 60000 - (1000 * now.seconds + now.milliseconds);
    Max(0, timeLeftMillis / 1000)
  }

  /** The test inside the interval callback: 15 seconds are left and no
      trigger has been recorded in the current minute-of-hour. */
  predicate Triggers(secondsLeft: int, lastSignalTime: Option<WallClock>, now: WallClock)
    ensures Triggers(secondsLeft, lastSignalTime, now) ==> secondsLeft == SIGNAL_SECONDS
    ensures lastSignalTime == Some(now) ==> !Triggers(secondsLeft, lastSignalTime, now)
    ensures lastSignalTime.None? ==> (Triggers(secondsLeft, lastSignalTime, now) <==> secondsLeft == SIGNAL_SECONDS)
  {
    secondsLeft == SIGNAL_SECONDS
    && (lastSignalTime.None? || lastSignalTime.value.minutes != now.minutes)
  }

  /** The 15-seconds-left window: from 44.001 s to 45.000 s past the minute. */
  lemma FifteenSecondsLeft(now: WallClock)
    ensures SecondsLeft(now) == SIGNAL_SECONDS
            <==> (now.seconds == 44 && now.milliseconds != 0) || (now.seconds == 45 && now.milliseconds == 0)
  {
  }

  /** `lastSignalTime` after a tick: the second clock reading when the tick
      triggers, whether or not a callback was supplied. After a trigger no
      later reading in the same minute-of-hour triggers; without one, what
      triggers next is what would have triggered before. */
  function NextSignalTime(secondsLeft: int, lastSignalTime: Option<WallClock>, now: WallClock): (r: Option<WallClock>)
    ensures Triggers(secondsLeft, lastSignalTime, now) ==>
              forall later: WallClock :: later.minutes == now.minutes ==> !Triggers(SIGNAL_SECONDS, r, later)
    ensures !Triggers(secondsLeft, lastSignalTime, now) ==>
              forall left: int, later: WallClock :: Triggers(left, r, later) == Triggers(left, lastSignalTime, later)
  {
    if Triggers(secondsLeft, lastSignalTime, now) then Some(now) else lastSignalTime
  }

  /** The component's state: `secondsLeft`, `lastSignalTime`, and whether an
      `onSignalTime` callback was passed in. */
  class CandleCountdown {
    const hasCallback: bool
    var secondsLeft: int
    var lastSignalTime: Option<WallClock>

    /** `useState(60)` and `useState(null)`. */
    constructor (hasCallback: bool)
      ensures this.hasCallback == hasCallback
      ensures secondsLeft == 60 && lastSignalTime == None
    {
      this.hasCallback := hasCallback;
      secondsLeft := 60;
      lastSignalTime := None;
    }

    /** The effect's initial `setSecondsLeft(calculateTimeLeft())`. */
    method Start(now: WallClock)
      modifies this
      ensures secondsLeft == SecondsLeft(now) && lastSignalTime == old(lastSignalTime)
    {
      secondsLeft := SecondsLeft(now);
    }

    /** One firing of the 100 ms interval. The source reads the clock twice:
        `computedAt` inside `calculateTimeLeft`, `checkedAt` for the minute
        test. `called` says whether `onSignalTime` ran. */
    method Tick(computedAt: WallClock, checkedAt: WallClock) returns (called: bool)
      modifies this
      ensures secondsLeft == SecondsLeft(computedAt)
      ensures called == (hasCallback && Triggers(secondsLeft, old(lastSignalTime), checkedAt))
      ensures called ==> secondsLeft == SIGNAL_SECONDS
      ensures lastSignalTime == NextSignalTime(secondsLeft, old(lastSignalTime), checkedAt)
    {
      var newTimeLeft := SecondsLeft(computedAt);
      secondsLeft := newTimeLeft;
      called := false;
      if newTimeLeft == SIGNAL_SECONDS {
        var currentMinute := checkedAt.minutes;
        if lastSignalTime.None? || lastSignalTime.value.minutes != currentMinute {
          if hasCallback {
            called := true;
          }
          lastSignalTime := Some(checkedAt);
        }
      }
    }
  }

  /** The two clock readings of one interval firing. */
  datatype Reading = Reading(computedAt: WallClock, checkedAt: WallClock)

  /** How many of `ticks` trigger, starting from `lastSignalTime`, and the
      `lastSignalTime` they leave behind. */
  function Run(lastSignalTime: Option<WallClock>, ticks: seq<Reading>): (nat, Option<WallClock>)
    decreases |ticks|
  {
    if |ticks| == 0 then (0, lastSignalTime)
    else
      var left := SecondsLeft(ticks[0].computedAt);
      var fired := Triggers(left, lastSignalTime, ticks[0].checkedAt);
      var rest := Run(NextSignalTime(left, lastSignalTime, ticks[0].checkedAt), ticks[1..]);
      ((if fired then 1 else 0) + rest.0, rest.1)
  }

  /** Ticks whose minute test all read the same minute-of-hour trigger at most
      once, and not at all when that minute already holds a trigger. */
  lemma {:induction false} AtMostOncePerMinute(lastSignalTime: Option<WallClock>, ticks: seq<Reading>, m: Minute)
    requires forall k :: 0 <= k < |ticks| ==> ticks[k].checkedAt.minutes == m
    ensures Run(lastSignalTime, ticks).0 <= 1
    ensures lastSignalTime.Some? && lastSignalTime.value.minutes == m ==> Run(lastSignalTime, ticks).0 == 0
    decreases |ticks|
  {
    if |ticks| > 0 {
      var left := SecondsLeft(ticks[0].computedAt);
      var next := NextSignalTime(left, lastSignalTime, ticks[0].checkedAt);
      AtMostOncePerMinute(next, ticks[1..], m);
    }
  }

  /** Within such a minute the trigger is not missed either: if no trigger is
      recorded for that minute and some tick computes 15 seconds left, exactly
      one tick triggers. */
  lemma {:induction false} OncePerMinute(lastSignalTime: Option<WallClock>, ticks: seq<Reading>, m: Minute, k: int)
    requires forall j :: 0 <= j < |ticks| ==> ticks[j].checkedAt.minutes == m
    requires lastSignalTime.None? || lastSignalTime.value.minutes != m
    requires 0 <= k < |ticks| && SecondsLeft(ticks[k].computedAt) == SIGNAL_SECONDS
    ensures Run(lastSignalTime, ticks).0 == 1
    decreases |ticks|
  {
    var left := SecondsLeft(ticks[0].computedAt);
    var next := NextSignalTime(left, lastSignalTime, ticks[0].checkedAt);
    if Triggers(left, lastSignalTime, ticks[0].checkedAt) {
      AtMostOncePerMinute(next, ticks[1..], m);
    } else {
      OncePerMinute(next, ticks[1..], m, k - 1);
    }
  }

  /** Only the minute-of-hour is compared: a trigger recorded at minute m of
      one hour suppresses the trigger at minute m of a later hour. */
  lemma SameMinuteLaterHourSuppressed(earlier: WallClock, now: WallClock)
    requires earlier.minutes == now.minutes
    ensures !Triggers(SIGNAL_SECONDS, Some(earlier), now)
  {
  }

  /** `getTimerColor` and `getBarColor`: they share their thresholds. */
  function TimerTone(secondsLeft: int): (t: Tone)
    ensures t == Red <==> secondsLeft <= 5
    ensures t == Yellow <==> 5 < secondsLeft <= 15
    ensures t == Green <==> secondsLeft > 15
  {
    if secondsLeft <= 5 then Red
    else if secondsLeft <= 15 then Yellow
    else Green
  }

  /** The alert panel and the alert icon: shown from 15 seconds left down,
      which is exactly when the timer is not green. */
  function AlertShown(secondsLeft: int): (shown: bool)
    ensures shown <==> TimerTone(secondsLeft) != Green
  {
    secondsLeft <= SIGNAL_SECONDS
  }
}
