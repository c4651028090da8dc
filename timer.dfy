/** The duration tracker `timer_loop` (teleprompter.py:68-79): it waits for
    the audio receiver, then remembers when it started and the persisted
    offset, and on every tick publishes and persists
    `offset + int(now - start_time)`. Times are milliseconds here; Python's
    `int()` of the difference in seconds truncates toward zero, which is
    written out for negative differences too (a clock set backwards). */
module Timer {
  import opened Session

  /** `int(ms / 1000)` for a difference of `ms` milliseconds: the whole
      seconds, rounded toward zero. */
  function WholeSeconds(ms: int): (sec: int)
    ensures 0 <= ms ==> 0 <= sec && sec * 1000 <= ms < (sec + 1) * 1000
    ensures ms < 0 ==> sec <= 0 && (sec - 1) * 1000 < ms <= sec * 1000
  {
    if ms >= 0 then ms / 1000 else -((-ms) / 1000)
  }

  /** The value a tick publishes. */
  function Elapsed(offset: int, startMs: int, nowMs: int): (sec: int)
    ensures startMs <= nowMs ==> offset <= sec && (sec - offset) * 1000 <= nowMs - startMs < (sec - offset + 1) * 1000
  {
    offset + WholeSeconds(nowMs - startMs)
  }

  /** From the start on, the published value is the offset plus the whole
      seconds since the start (the floor of the difference), so it is never
      below the offset. */
  lemma ElapsedFromStart(offset: int, startMs: int, nowMs: int)
    requires startMs <= nowMs
    ensures Elapsed(offset, startMs, nowMs) == offset + (nowMs - startMs) / 1000
    ensures Elapsed(offset, startMs, nowMs) >= offset
  {
  }

  /** A later reading of the clock never publishes a smaller value. */
  lemma ElapsedMonotone(offset: int, startMs: int, a: int, b: int)
    requires a <= b
    ensures Elapsed(offset, startMs, a) <= Elapsed(offset, startMs, b)
  {
  }

  class DurationTracker {
    /** The session store whose paused time the tracker persists. */
    const session: SessionState
    /** Whether the audio receiver has been seen and the ticking begun. */
    var started: bool
    /** `start_time`, in milliseconds. */
    var startMs: int
    /** `offset`: the paused time read once when ticking began. */
    var offset: int

    constructor (session: SessionState)
      ensures this.session == session && !started
    {
      this.session := session;
      started := false;
      startMs := 0;
      offset := 0;
    }

    /** One wake-up of the coroutine at time `nowMs`. Before the receiver
        exists it only polls again; the first time it exists the tracker
        records the start time and the persisted offset; from then on every
        wake-up is a tick, whether or not capture is still active, and
        writes the elapsed value back to the paused-time slot. */
    method Wake(active: bool, nowMs: int)
      modifies this, session`pausedTime
      ensures started == (old(started) || active)
      ensures !old(started) && active ==> startMs == nowMs && offset == old(session.pausedTime)
      ensures old(started) ==> startMs == old(startMs) && offset == old(offset)
      ensures started ==> session.pausedTime == Elapsed(offset, startMs, nowMs)
      ensures !started ==> session.pausedTime == old(session.pausedTime)
    {
      if !started {
        if !active {
          return;
        }
        startMs := nowMs;
        offset := session.pausedTime;
        started := true;
      }
      var elapsed := offset + WholeSeconds(nowMs - startMs);
      session.pausedTime := elapsed;
    }
  }
}
