// The limit on how often a client may post, as a function of the times of its
// calls, and the bounds that it gives.

module RateLimit {

  /** Times are milliseconds. `start` is when the window began, or the end of a punishment. */
  datatype Monitor = Monitor(start: real, count: nat, max: nat, duration: nat, forbid: nat)

  /** The whole milliseconds of a difference of times, cut off towards zero. */
  function WholeMillis(x: real): int
  {
    if x >= 0.0 then x.Floor else -(-x).Floor
  }

  predicate WindowOver(m: Monitor, now: real)
  {
    WholeMillis(now - m.start) > m.duration
  }

  predicate Allows(m: Monitor, now: real)
  {
    WindowOver(m, now) || m.count + 1 <= m.max
  }

  function Called(m: Monitor, now: real): Monitor
  {
    if WindowOver(m, now) then m.(start := now, count := 1)
    else if m.count + 1 > m.max then m.(start := now + m.forbid as real, count := m.count + 1)
    else m.(count := m.count + 1)
  }

  /** The monitor after calls at these times, and how many of them were allowed. */
  function After(m: Monitor, times: seq<real>): (n: Monitor)
    ensures n.max == m.max && n.duration == m.duration && n.forbid == m.forbid
  {
    if times == [] then m else Called(After(m, times[..|times| - 1]), times[|times| - 1])
  }

  function AllowedCalls(m: Monitor, times: seq<real>): nat
  {
    if times == [] then 0
    else
      var init, now := times[..|times| - 1], times[|times| - 1];
      AllowedCalls(m, init) + if Allows(After(m, init), now) then 1 else 0
  }

  lemma WindowLasts(m: Monitor, now: real)
    ensures WindowOver(m, now) <==> now >= m.start + m.duration as real + 1.0
  {
  }

  /** The times lie in an interval of the length of the window that begins at `a`. */
  predicate Within(times: seq<real>, a: real, duration: nat)
  {
    forall i :: 0 <= i < |times| ==> a <= times[i] <= a + duration as real
  }

  predicate InOrder(times: seq<real>)
  {
    forall k, l :: 0 <= k <= l < |times| ==> times[k] <= times[l]
  }

  function Left(m: Monitor): nat
  {
    if m.count < m.max then m.max - m.count else 0
  }

  /**
   * Calls within such an interval: as long as the window does not begin anew in it, no more are allowed
   * than were left; after that it does not begin anew again.
   */
  lemma {:induction false} WithinInterval(m: Monitor, times: seq<real>, a: real)
    requires m.max >= 1 && Within(times, a, m.duration)
    ensures var n, allowed := After(m, times), AllowedCalls(m, times);
      || (n == m.(count := m.count + allowed) && (allowed == 0 || n.count <= m.max))
      || (n.start >= a && allowed + Left(n) <= Left(m) + m.max)
  {
    if times != [] {
      var init, now := times[..|times| - 1], times[|times| - 1];
      assert now == times[|times| - 1] && a <= now <= a + m.duration as real;
      assert forall i :: 0 <= i < |init| ==> init[i] == times[i];
      WithinInterval(m, init, a);
      WindowLasts(After(m, init), now);
    }
  }

  /** In every interval of the length of the window at most twice the limit is allowed. */
  lemma RateBound(m: Monitor, times: seq<real>, i: nat, j: nat)
    requires m.max >= 1 && i <= j < |times| && InOrder(times)
    requires times[j] - times[i] <= m.duration as real
    ensures AllowedCalls(m, times[..j + 1]) - AllowedCalls(m, times[..i]) <= 2 * m.max
  {
    hide After, AllowedCalls, Within;
    var init, some := times[..i], times[i..j + 1];
    assert times[..j + 1] == init + some;
    Resumed(m, init, some);
    SliceWithin(times, i, j, m.duration);
    WithinInterval(After(m, init), some, times[i]);
  }

  lemma SliceWithin(times: seq<real>, i: nat, j: nat, duration: nat)
    requires i <= j < |times| && times[j] - times[i] <= duration as real && InOrder(times)
    ensures Within(times[i..j + 1], times[i], duration)
  {
    var some := times[i..j + 1];
    forall k | 0 <= k < |some|
      ensures times[i] <= some[k] <= times[i] + duration as real
    {
      assert some[k] == times[i + k] && times[i] <= times[i + k] <= times[j];
    }
  }

  lemma {:induction false} Resumed(m: Monitor, a: seq<real>, b: seq<real>)
    ensures After(m, a + b) == After(After(m, a), b)
    ensures AllowedCalls(m, a + b) == AllowedCalls(m, a) + AllowedCalls(After(m, a), b)
  {
    if b == [] {
      assert a + b == a;
    } else {
      var init := b[..|b| - 1];
      assert (a + b)[..|a + b| - 1] == a + init;
      Resumed(m, a, init);
    }
  }

  // ------------------------------------------------------------- when the limit is kept

  /** In the interval that begins at `a`, no calls whatever are allowed more often than the limit. */
  ghost predicate KeepsLimit(m: Monitor, a: real)
  {
    forall times :: InOrder(times) && Within(times, a, m.duration) ==> AllowedCalls(m, times) <= m.max
  }

  /** Calls before the window is over use up what is left of it. */
  lemma {:induction false} NoNewWindow(m: Monitor, times: seq<real>, a: real)
    requires Within(times, a, m.duration) && m.start + 1.0 > a
    ensures After(m, times).start + 1.0 > a && AllowedCalls(m, times) + Left(After(m, times)) <= Left(m)
  {
    if times != [] {
      var init, now := times[..|times| - 1], times[|times| - 1];
      assert now == times[|times| - 1] && a <= now <= a + m.duration as real;
      assert forall i :: 0 <= i < |init| ==> init[i] == times[i];
      NoNewWindow(m, init, a);
      WindowLasts(After(m, init), now);
    }
  }

  /** When the window is over at the beginning of the interval, one new window covers all of it. */
  lemma OneNewWindow(m: Monitor, times: seq<real>, a: real)
    requires m.max >= 1 && Within(times, a, m.duration) && WindowOver(m, a)
    ensures AllowedCalls(m, times) <= m.max
  {
    if times != [] {
      var first, rest := times[0], times[1..];
      assert [first] + rest == times && a <= times[0] && forall i :: 0 <= i < |rest| ==> rest[i] == times[i + 1];
      Resumed(m, [first], rest);
      WindowLasts(m, first);
      WindowLasts(m, a);
      OneCall(m, first);
      NoNewWindow(Called(m, first), rest, a);
    }
  }

  lemma OneCall(m: Monitor, now: real)
    ensures After(m, [now]) == Called(m, now) && AllowedCalls(m, [now]) == if Allows(m, now) then 1 else 0
  {
    assert [now][..0] == [];
  }

  function Repeated(now: real, n: nat): seq<real>
  {
    seq(n, i => now)
  }

  lemma RepeatedNext(now: real, n: nat)
    ensures Repeated(now, n + 1) == Repeated(now, n) + [now]
  {
  }

  /** Calls at one time fill the window that runs. */
  lemma {:induction false} FillsWindow(m: Monitor, now: real, n: nat)
    requires !WindowOver(m, now) && m.count + n <= m.max
    ensures AllowedCalls(m, Repeated(now, n)) == n && After(m, Repeated(now, n)) == m.(count := m.count + n)
  {
    if n > 0 {
      FillsWindow(m, now, n - 1);
      RepeatedNext(now, n - 1);
      Resumed(m, Repeated(now, n - 1), [now]);
      OneCall(m.(count := m.count + n - 1), now);
    }
  }

  /** Calls at one time fill the window that the first of them begins. */
  lemma NewWindow(m: Monitor, now: real, n: nat)
    requires WindowOver(m, now) && n <= m.max
    ensures AllowedCalls(m, Repeated(now, n)) == n
  {
    if n > 0 {
      OneCall(m, now);
      FillsWindow(Called(m, now), now, n - 1);
      assert Repeated(now, n) == [now] + Repeated(now, n - 1);
      Resumed(m, [now], Repeated(now, n - 1));
    }
  }

  /**
   * The limit is kept in the interval that begins at `a` if and only if the window is over by then, or has
   * been used up, or has begun no more than a millisecond before.
   */
  lemma LimitKeptExactly(m: Monitor, a: real)
    requires m.max >= 1
    ensures KeepsLimit(m, a) <==> WindowOver(m, a) || m.count >= m.max || m.start + 1.0 > a
  {
    if WindowOver(m, a) || m.count >= m.max || m.start + 1.0 > a {
      forall times | InOrder(times) && Within(times, a, m.duration)
        ensures AllowedCalls(m, times) <= m.max
      {
        if WindowOver(m, a) {
          OneNewWindow(m, times, a);
        } else if m.start + 1.0 > a {
          NoNewWindow(m, times, a);
        } else {
          WithinInterval(m, times, a);
        }
      }
    } else {
      var b := m.start + m.duration as real + 1.0;
      var times := [a] + Repeated(b, m.max);
      WindowLasts(m, a);
      WindowLasts(m.(count := m.count + 1), b);
      OneCall(m, a);
      NewWindow(Called(m, a), b, m.max);
      Resumed(m, [a], Repeated(b, m.max));
      assert InOrder(times) && Within(times, a, m.duration) && AllowedCalls(m, times) == m.max + 1;
    }
  }

  /** Twice the limit can be reached, whatever it is: at the end of one window and the beginning of the next. */
  lemma BoundIsReached(m: Monitor)
    requires m.max >= 1 && m.duration >= 1 && m.count == 0
    ensures var a := m.start + m.duration as real;
      var times := Repeated(a, m.max) + Repeated(a + 1.0, m.max);
      InOrder(times) && Within(times, a, m.duration) && AllowedCalls(m, times) == 2 * m.max
  {
    hide WholeMillis, WindowOver, After, AllowedCalls;
    var a := m.start + m.duration as real;
    WindowLasts(m, a);
    WindowLasts(m.(count := m.max), a + 1.0);
    FillsWindow(m, a, m.max);
    NewWindow(m.(count := m.max), a + 1.0, m.max);
    Resumed(m, Repeated(a, m.max), Repeated(a + 1.0, m.max));
  }

  // ------------------------------------------------------------------------ punishment

  /** What a refusal leaves: the limit is exceeded, and the window begins after the punishment. */
  predicate Punished(m: Monitor, last: real)
  {
    m.count > m.max && m.start == last + m.forbid as real
  }

  lemma RefusedIsPunished(m: Monitor, now: real)
    requires !Allows(m, now)
    ensures Punished(Called(m, now), now)
  {
  }

  lemma {:induction false} StaysPunished(m: Monitor, t: real, times: seq<real>)
    requires Punished(m, t) && AllowedCalls(m, times) == 0
    ensures Punished(After(m, times), if times == [] then t else times[|times| - 1])
  {
    if times != [] {
      StaysPunished(m, t, times[..|times| - 1]);
    }
  }

  /**
   * After a refusal at `t` the first call that is allowed comes more than the punishment and the window
   * after the last refused one, so each refused attempt puts it off.
   */
  lemma RefusalLasts(m: Monitor, t: real, times: seq<real>, now: real)
    requires !Allows(m, t) && AllowedCalls(Called(m, t), times) == 0
    ensures var last := if times == [] then t else times[|times| - 1];
      var n := After(Called(m, t), times);
      Allows(n, now) <==> now >= last + m.forbid as real + m.duration as real + 1.0
  {
    RefusedIsPunished(m, t);
    StaysPunished(Called(m, t), t, times);
    WindowLasts(After(Called(m, t), times), now);
  }
}
