// The monitor of a client's posts: a counter and the time its window began.

module PostMonitor {
  import opened RateLimit

  class TickCount {
    var startTime: real

    constructor (now: real)
      ensures startTime == now
    {
      startTime := now;
    }

    /** The time runs from now, or from some milliseconds on. */
    method Restart(now: real, millis: int)
      modifies this
      ensures startTime == now + millis as real
    {
      startTime := now + millis as real;
    }

    function Elapsed(now: real): int
      reads this
    {
      WholeMillis(now - startTime)
    }
  }

  class PostMonitor {
    const lastActived: TickCount
    var maxActivedCount: nat
    var currActivedCount: nat
    var duration: nat
    var forbidDuration: nat

    ghost function View(): Monitor
      reads this, lastActived
    {
      Monitor(lastActived.startTime, currActivedCount, maxActivedCount, duration, forbidDuration)
    }

    constructor (now: real)
      ensures View() == Monitor(now, 0, 65535, 65535, 0) && fresh(lastActived)
    {
      maxActivedCount, currActivedCount, duration, forbidDuration := 65535, 0, 65535, 0;
      lastActived := new TickCount(now);
    }

    method Init(maxActivedCount: nat, checkDuration: nat)
      modifies this
      ensures View() == Monitor(old(lastActived.startTime), 0, maxActivedCount, checkDuration, 5000)
    {
      this.maxActivedCount := maxActivedCount;
      this.currActivedCount := 0;
      this.duration := checkDuration;
      this.forbidDuration := 5000;
    }

    /** Whether a call now is allowed. */
    method CanActive(now: real) returns (allowed: bool)
      modifies this, lastActived
      ensures allowed == Allows(old(View()), now) && View() == Called(old(View()), now)
    {
      var durationMillis := lastActived.Elapsed(now);
      if durationMillis > duration {
        lastActived.Restart(now, 0);
        currActivedCount := 1;
        return true;
      } else {
        currActivedCount := currActivedCount + 1;
        if currActivedCount > maxActivedCount {
          lastActived.Restart(now, forbidDuration);
          return false;
        }
        return true;
      }
    }
  }
}
