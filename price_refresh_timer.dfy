/** The price refresh countdown (`PriceRefreshTimer`): while enabled, a
    one-second interval counts `timeLeft` down; when it runs out the refresh
    callback fires and the count starts again from 30. Turning the timer off
    resets it, and a click refreshes at once and restarts the count. The
    calls to the callback are counted in `refreshes`. */
module PriceRefreshTimer {

  const PERIOD: int := 30

  /** The updater passed to `setTimeLeft` on each tick. */
  function NextTimeLeft(prev: int): int {
    if prev <= 1 then PERIOD else prev - 1
  }

  /** Whether a tick from `prev` calls the refresh callback. */
  predicate FiresOn(prev: int) {
    prev <= 1
  }

  datatype Countdown = Countdown(timeLeft: int, refreshes: nat)

  /** The count after `n` ticks from `t`, with the number of refreshes the
      ticks fire. */
  function Run(t: int, n: nat): (r: Countdown)
    requires 1 <= t <= PERIOD
    ensures 1 <= r.timeLeft <= PERIOD
    decreases n
  {
    if n == 0 then Countdown(t, 0)
    else
      var rest := Run(NextTimeLeft(t), n - 1);
      Countdown(rest.timeLeft, rest.refreshes + if FiresOn(t) then 1 else 0)
  }

  /** From `t`, a tick is `PERIOD - t` steps into the cycle; after `n` ticks
      the position has advanced by `n`, and a refresh has fired once for each
      completed cycle. */
  lemma {:induction false} RunPosition(t: int, n: nat)
    requires 1 <= t <= PERIOD
    ensures Run(t, n) == Countdown(PERIOD - (PERIOD - t + n) % PERIOD, (PERIOD - t + n) / PERIOD)
    decreases n
  {
    if n > 0 {
      var t' := NextTimeLeft(t);
      RunPosition(t', n - 1);
      if FiresOn(t) {
        assert t == 1 && t' == PERIOD;
        assert PERIOD - t + n == (n - 1) + PERIOD;
      } else {
        assert PERIOD - t' + (n - 1) == PERIOD - t + n;
      }
    }
  }

  /** Starting from a fresh count of 30, the refresh fires exactly once per
      30 ticks, and `timeLeft` shows how many ticks remain until the next one. */
  lemma RefreshEvery30(n: nat)
    ensures Run(PERIOD, n) == Countdown(PERIOD - n % PERIOD, n / PERIOD)
  {
    RunPosition(PERIOD, n);
  }

  /** Between two refreshes of a running timer there are exactly 30 ticks:
      the refresh count after `n + 30` ticks is one more than after `n`. */
  lemma RefreshPeriod(t: int, n: nat)
    requires 1 <= t <= PERIOD
    ensures Run(t, n + PERIOD).refreshes == Run(t, n).refreshes + 1
    ensures Run(t, n + PERIOD).timeLeft == Run(t, n).timeLeft
  {
    RunPosition(t, n);
    RunPosition(t, n + PERIOD);
    assert PERIOD - t + (n + PERIOD) == (PERIOD - t + n) + PERIOD;
  }

  class RefreshTimer {
    var timeLeft: int
    var isEnabled: bool
    var refreshes: nat

    /** `timeLeft` stays within 1..30. */
    predicate Valid()
      reads this
    {
      1 <= timeLeft <= PERIOD
    }

    constructor (enabled: bool)
      ensures Valid()
      ensures timeLeft == PERIOD && isEnabled == enabled && refreshes == 0
    {
      timeLeft := PERIOD;
      isEnabled := enabled;
      refreshes := 0;
    }

    /** A new `isEnabled` property: turning the timer off puts the count
        back to 30; turning it on keeps the count where it was. */
    method SetEnabled(enabled: bool)
      requires Valid()
      modifies this
      ensures Valid()
      ensures isEnabled == enabled && refreshes == old(refreshes)
      ensures timeLeft == if enabled then old(timeLeft) else PERIOD
    {
      isEnabled := enabled;
      if !enabled {
        timeLeft := PERIOD;
      }
    }

    /** One firing of the interval, which exists only while enabled: a count
        at 1 or below fires the refresh and restarts at 30, any other count
        goes down by one. */
    method Tick()
      requires Valid()
      modifies this
      ensures Valid()
      ensures isEnabled == old(isEnabled)
      ensures !old(isEnabled) ==> timeLeft == old(timeLeft) && refreshes == old(refreshes)
      ensures old(isEnabled) ==>
        && old(refreshes) <= refreshes
        && Countdown(timeLeft, refreshes - old(refreshes)) == Run(old(timeLeft), 1)
    {
      if !isEnabled {
        return;
      }
      if timeLeft <= 1 {
        refreshes := refreshes + 1;
        timeLeft := PERIOD;
      } else {
        timeLeft := timeLeft - 1;
      }
    }

    /** `handleClick`: ignored while disabled; otherwise refresh now and
        restart the count at 30. */
    method Click()
      requires Valid()
      modifies this
      ensures Valid()
      ensures isEnabled == old(isEnabled)
      ensures !old(isEnabled) ==> timeLeft == old(timeLeft) && refreshes == old(refreshes)
      ensures old(isEnabled) ==> timeLeft == PERIOD && refreshes == old(refreshes) + 1
    {
      if !isEnabled {
        return;
      }
      refreshes := refreshes + 1;
      timeLeft := PERIOD;
    }
  }
}
