/** The per-client sliding-window limiter. Clock readings are exact reals, taken in lock order. */
module Limiter {
  datatype Decision = Decision(allowed: bool, remaining: nat, retryAfter: nat)

  datatype Config = Config(requests: nat, window: nat) {
    predicate Valid() { requests >= 1 && window >= 1 }
  }

  /** Drop entries that left the window ending now. */
  function Expire(entries: seq<real>, cutoff: real): seq<real> {
    if entries != [] && entries[0] <= cutoff then Expire(entries[1..], cutoff) else entries
  }

  /** max(1, int(x + 0.999)) for the time x until the oldest entry leaves; int() truncates toward zero. */
  function RetryAfter(x: real): (r: nat) {
    var t := x + 0.999;
    var whole := if t >= 0.0 then t.Floor else -((-t).Floor);
    if whole < 1 then 1 else whole
  }

  /** The entries still inside the window ending now. */
  function Live(config: Config, entries: seq<real>, now: real): seq<real> {
    Expire(entries, now - config.window as real)
  }

  predicate Admits(config: Config, entries: seq<real>, now: real) {
    |Live(config, entries, now)| < config.requests
  }

  /** What the client's deque holds after a check. */
  function After(config: Config, entries: seq<real>, now: real): seq<real> {
    if Admits(config, entries, now) then Live(config, entries, now) + [now] else Live(config, entries, now)
  }

  /** How long until the oldest live entry leaves the window. */
  function TimeLeft(config: Config, entries: seq<real>, now: real): real
    requires Live(config, entries, now) != []
  {
    config.window as real - (now - Live(config, entries, now)[0])
  }

  function Check(config: Config, entries: seq<real>, now: real): Decision
    requires config.Valid()
  {
    if Admits(config, entries, now) then Decision(true, config.requests - |Live(config, entries, now)| - 1, 0)
    else Decision(false, 0, RetryAfter(TimeLeft(config, entries, now)))
  }

  class SlidingWindowRateLimiter {
    const config: Config
    var entries: map<string, seq<real>>

    constructor (requests: nat, window: nat)
      requires requests >= 1 && window >= 1
      ensures config == Config(requests, window) && entries == map[]
    {
      config := Config(requests, window);
      entries := map[];
    }

    ghost function Of(client: string): seq<real>
      reads this
    {
      if client in entries then entries[client] else []
    }

    method CheckClient(client: string, now: real) returns (d: Decision)
      requires config.Valid()
      modifies this
      ensures d == Check(config, old(Of(client)), now)
      ensures Of(client) == After(config, old(Of(client)), now)
      ensures forall other :: other != client ==> Of(other) == old(Of(other))
    {
      var cutoff := now - config.window as real;
      var queue := if client in entries then entries[client] else [];
      ghost var before := queue;
      while queue != [] && queue[0] <= cutoff
        invariant Expire(queue, cutoff) == Expire(before, cutoff)
        decreases |queue|
      {
        queue := queue[1..];
      }
      if |queue| >= config.requests {
        entries := entries[client := queue];
        return Decision(false, 0, RetryAfter(config.window as real - (now - queue[0])));
      }
      queue := queue + [now];
      entries := entries[client := queue];
      return Decision(true, config.requests - |queue|, 0);
    }
  }

  // ----- Every run of checks for one client -----

  /** The clock readings so far, those whose check was answered allowed among them, and the deque the limiter holds. */
  datatype Client = Client(readings: seq<real>, admitted: seq<real>, entries: seq<real>)

  function Next(config: Config, s: Client, now: real): Client
    requires config.Valid()
  {
    Client(s.readings + [now], if Check(config, s.entries, now).allowed then s.admitted + [now] else s.admitted,
           After(config, s.entries, now))
  }

  function Run(config: Config, readings: seq<real>): Client
    requires config.Valid()
  {
    if readings == [] then Client([], [], [])
    else Next(config, Run(config, readings[..|readings| - 1]), readings[|readings| - 1])
  }

  ghost predicate NonDecreasing(s: seq<real>) {
    forall i, j :: 0 <= i < j < |s| ==> s[i] <= s[j]
  }

  /** How many of `times` lie in the window (cutoff, t]. */
  function InWindow(times: seq<real>, cutoff: real, t: real): nat {
    if times == [] then 0
    else
      var n := |times| - 1;
      InWindow(times[..n], cutoff, t) + (if cutoff < times[n] <= t then 1 else 0)
  }

  /** The deque is the tail of the admissions, the dropped ones are out of every later window, and any
      two admissions `requests` apart are at least a window apart. */
  ghost predicate Sound(config: Config, s: Client, now: real) {
    && NonDecreasing(s.admitted) && NoneAfter(s.admitted, now)
    && |s.entries| <= config.requests
    && TailAfter(s.admitted, s.entries, now - config.window as real)
    && Spaced(s.admitted, config.requests, config.window as real)
  }

  ghost predicate NoneAfter(times: seq<real>, now: real) {
    forall i :: 0 <= i < |times| ==> times[i] <= now
  }

  /** `tail` ends `times`, and what comes before it is not after the cutoff. */
  ghost predicate TailAfter(times: seq<real>, tail: seq<real>, cutoff: real) {
    && |tail| <= |times| && tail == times[|times| - |tail|..]
    && forall i :: 0 <= i < |times| - |tail| ==> times[i] <= cutoff
  }

  ghost predicate Spaced(times: seq<real>, requests: nat, w: real) {
    forall i, j :: 0 <= i && i + requests <= j < |times| ==> times[i] <= times[j] - w
  }

  /** Expiring cuts the admissions exactly at the cutoff. */
  lemma {:induction false} ExpireCutsAtCutoff(times: seq<real>, entries: seq<real>, cutoff: real)
    requires NonDecreasing(times) && TailAfter(times, entries, cutoff)
    ensures TailAfter(times, Expire(entries, cutoff), cutoff)
    ensures |Expire(entries, cutoff)| <= |entries|
    ensures forall i :: |times| - |Expire(entries, cutoff)| <= i < |times| ==> times[i] > cutoff
    decreases |entries|
  {
    if entries != [] {
      var first := |times| - |entries|;
      assert times[first] == entries[0];
      if entries[0] <= cutoff {
        assert entries[1..] == times[first + 1..];
        ExpireCutsAtCutoff(times, entries[1..], cutoff);
      }
    }
  }

  lemma NextSound(config: Config, s: Client, before: real, now: real)
    requires config.Valid() && Sound(config, s, before) && before <= now
    ensures Sound(config, Next(config, s, now), now)
  {
    var w := config.window as real;
    var live := Live(config, s.entries, now);
    ExpireCutsAtCutoff(s.admitted, s.entries, now - w);
    assert NoneAfter(s.admitted, now);
    if |live| < config.requests {
      AppendSpaced(s.admitted, live, config.requests, w, now);
      AppendOrdered(s.admitted, now);
      var s' := Client(s.readings + [now], s.admitted + [now], live + [now]);
      assert Sound(config, s', now);
      assert Next(config, s, now) == s';
    } else {
      var s' := Client(s.readings + [now], s.admitted, live);
      assert Sound(config, s', now);
      assert Next(config, s, now) == s';
    }
  }

  lemma AppendOrdered(times: seq<real>, now: real)
    requires NonDecreasing(times) && NoneAfter(times, now)
    ensures NonDecreasing(times + [now]) && NoneAfter(times + [now], now)
  {
  }

  lemma AppendSpaced(times: seq<real>, live: seq<real>, requests: nat, w: real, now: real)
    requires TailAfter(times, live, now - w) && |live| < requests && Spaced(times, requests, w)
    ensures Spaced(times + [now], requests, w) && TailAfter(times + [now], live + [now], now - w)
  {
    var longer := times + [now];
    forall i, j | 0 <= i && i + requests <= j < |longer| ensures longer[i] <= longer[j] - w {
      if j == |times| { assert i < |times| - |live|; }
    }
  }

  lemma {:induction false} RunSound(config: Config, readings: seq<real>, now: real)
    requires config.Valid() && NonDecreasing(readings) && NoneAfter(readings, now)
    ensures Sound(config, Run(config, readings), now)
  {
    if readings != [] {
      var n := |readings| - 1;
      RunSound(config, readings[..n], readings[n]);
      NextSound(config, Run(config, readings[..n]), readings[n], readings[n]);
      LaterSound(config, Run(config, readings), readings[n], now);
    }
  }

  lemma LaterSound(config: Config, s: Client, before: real, now: real)
    requires Sound(config, s, before) && before <= now
    ensures Sound(config, s, now)
  {
  }

  lemma RunSoundBefore(config: Config, readings: seq<real>, now: real)
    requires config.Valid() && NonDecreasing(readings + [now])
    ensures Sound(config, Run(config, readings), now)
  {
    var all := readings + [now];
    forall i | 0 <= i < |readings| ensures readings[i] <= now { assert all[i] <= all[|readings|]; }
    forall i, j | 0 <= i < j < |readings| ensures readings[i] <= readings[j] { assert all[i] <= all[j]; }
    RunSound(config, readings, now);
  }

  // ----- The window guarantee -----

  /** A part of the admissions before the cutoff counts for nothing; a part inside counts fully. */
  lemma {:induction false} WindowOfParts(times: seq<real>, cut: nat, cutoff: real, t: real)
    requires cut <= |times| && forall i :: 0 <= i < cut ==> times[i] <= cutoff
    ensures InWindow(times, cutoff, t) <= |times| - cut
    ensures (forall i :: cut <= i < |times| ==> cutoff < times[i] <= t) ==> InWindow(times, cutoff, t) == |times| - cut
  {
    if times != [] {
      var n := |times| - 1;
      WindowOfParts(times[..n], if cut <= n then cut else n, cutoff, t);
    }
  }

  lemma {:induction false} WindowNeverOverfull(times: seq<real>, requests: nat, w: real, t: real)
    requires requests >= 1 && NonDecreasing(times) && Spaced(times, requests, w)
    ensures InWindow(times, t - w, t) <= requests
  {
    if times != [] {
      var n := |times| - 1;
      if times[n] > t {
        WindowNeverOverfull(times[..n], requests, w, t);
      } else {
        var cut := if |times| <= requests then 0 else |times| - requests;
        forall i | 0 <= i < cut ensures times[i] <= t - w { assert times[i] <= times[n] - w; }
        WindowOfParts(times, cut, t - w, t);
      }
    }
  }

  /** For clock readings that do not go back in lock order: no window of the configured length, wherever
      it ends, ever holds more than `requests` admissions. */
  lemma AdmissionsPerWindow(config: Config, readings: seq<real>, t: real)
    requires config.Valid() && NonDecreasing(readings)
    ensures InWindow(Run(config, readings).admitted, t - config.window as real, t) <= config.requests
  {
    AdmissionsOrdered(config, readings);
    WindowNeverOverfull(Run(config, readings).admitted, config.requests, config.window as real, t);
  }

  lemma AdmissionsOrdered(config: Config, readings: seq<real>)
    requires config.Valid() && NonDecreasing(readings)
    ensures var admitted := Run(config, readings).admitted;
      NonDecreasing(admitted) && Spaced(admitted, config.requests, config.window as real)
  {
    if readings != [] { RunSound(config, readings, readings[|readings| - 1]); }
  }

  /** A check is allowed exactly when the window ending now holds fewer than `requests` admissions; then
      `remaining` counts what is left and there is nothing to wait for. Refused, nothing remains. */
  lemma RefusedIffWindowFull(config: Config, readings: seq<real>, now: real)
    requires config.Valid() && NonDecreasing(readings + [now])
    ensures var s := Run(config, readings);
      var used, d := InWindow(s.admitted, now - config.window as real, now), Check(config, s.entries, now);
      && used <= config.requests
      && (d.allowed <==> used < config.requests)
      && (d.allowed ==> d.remaining == config.requests - used - 1 && d.retryAfter == 0)
      && (!d.allowed ==> d.remaining == 0)
  {
    var s := Run(config, readings);
    RunSoundBefore(config, readings, now);
    LiveCountsWindow(config, s, now);
  }

  lemma LiveCountsWindow(config: Config, s: Client, now: real)
    requires Sound(config, s, now)
    ensures |Live(config, s.entries, now)| == InWindow(s.admitted, now - config.window as real, now)
    ensures |Live(config, s.entries, now)| <= config.requests
  {
    CountLive(s.admitted, s.entries, now - config.window as real, now);
  }

  lemma CountLive(times: seq<real>, entries: seq<real>, cutoff: real, now: real)
    requires NonDecreasing(times) && NoneAfter(times, now) && TailAfter(times, entries, cutoff)
    ensures |Expire(entries, cutoff)| == InWindow(times, cutoff, now)
    ensures |Expire(entries, cutoff)| <= |entries|
  {
    ExpireCutsAtCutoff(times, entries, cutoff);
    WindowOfParts(times, |times| - |Expire(entries, cutoff)|, cutoff, now);
  }

  // ----- The retry hint -----

  /** The hint lies between 1 and the window, and is less than a millisecond too early; when the time
      left is a whole number of milliseconds it is not early at all. */
  lemma RetryHintBounds(x: real, w: nat, m: int)
    requires w >= 1 && 0.0 < x <= w as real
    ensures 1 <= RetryAfter(x) <= w
    ensures x - 0.001 < RetryAfter(x) as real && (RetryAfter(x) == 1 || RetryAfter(x) as real <= x + 0.999)
    ensures x * 1000.0 == m as real ==> RetryAfter(x) as real >= x
  {
    var f := (x + 0.999).Floor;
    assert f as real <= x + 0.999 < f as real + 1.0;
    assert RetryAfter(x) >= f;
    assert f <= w by { assert f as real < (w + 1) as real; }
    if x * 1000.0 == m as real {
      assert (1000 * f) as real == 1000.0 * (f as real);
      assert (1000 * f + 1) as real > m as real;
      assert 1000 * f >= m;
      assert f as real >= x;
    }
  }

  /** After a refusal in any run: the hint is within the window, less than a millisecond early and less
      than a second late for the time at which the oldest admission of the full window leaves it; and if
      that is on a millisecond grid, a check at the hinted time is allowed, provided nobody was admitted in
      between. */
  lemma RetryIsHonoured(config: Config, readings: seq<real>, now: real, m: int)
    requires config.Valid() && NonDecreasing(readings + [now])
    requires !Check(config, Run(config, readings).entries, now).allowed
    ensures var s := Run(config, readings);
      var retry := Check(config, s.entries, now).retryAfter;
      && config.requests <= |s.admitted| && 1 <= retry <= config.window
      && var left := s.admitted[|s.admitted| - config.requests] + config.window as real - now;
        && left - 0.001 < retry as real && (retry == 1 || retry as real <= left + 0.999)
        && (left * 1000.0 == m as real ==>
              Check(config, After(config, s.entries, now), now + retry as real).allowed)
  {
    var s := Run(config, readings);
    RunSoundBefore(config, readings, now);
    RefusalHint(config, s, now, m);
    OldestLeaves(config, s, now);
  }

  /** The oldest live entry of a full window is the admission `requests` from the end. */
  lemma OldestLeaves(config: Config, s: Client, now: real)
    requires config.Valid() && Sound(config, s, now) && !Admits(config, s.entries, now)
    ensures config.requests <= |s.admitted|
    ensures TimeLeft(config, s.entries, now) == s.admitted[|s.admitted| - config.requests] + config.window as real - now
  {
    var live := Live(config, s.entries, now);
    ExpireCutsAtCutoff(s.admitted, s.entries, now - config.window as real);
    assert |live| == config.requests;
    assert live[0] == s.admitted[|s.admitted| - |live|];
  }

  lemma RefusalHint(config: Config, s: Client, now: real, m: int)
    requires config.Valid() && Sound(config, s, now) && !Admits(config, s.entries, now)
    ensures var left, retry := TimeLeft(config, s.entries, now), Check(config, s.entries, now).retryAfter;
      && 1 <= retry <= config.window && left - 0.001 < retry as real && (retry == 1 || retry as real <= left + 0.999)
      && (left * 1000.0 == m as real ==> Admits(config, After(config, s.entries, now), now + retry as real))
  {
    var w := config.window as real;
    ExpireCutsAtCutoff(s.admitted, s.entries, now - w);
    var live := Live(config, s.entries, now);
    var left := TimeLeft(config, s.entries, now);
    assert live[0] == s.admitted[|s.admitted| - |live|];
    assert 0.0 < left <= w;
    RetryHintBounds(left, config.window, m);
    var retry := RetryAfter(left);
    if left * 1000.0 == m as real {
      assert now + retry as real - w >= live[0];
      HeadExpires(live, now + retry as real - w);
    }
  }

  lemma HeadExpires(entries: seq<real>, cutoff: real)
    requires entries != [] && entries[0] <= cutoff
    ensures |Expire(entries, cutoff)| < |entries|
  {
    ExpireShrinks(entries[1..], cutoff);
  }

  lemma {:induction false} ExpireShrinks(entries: seq<real>, cutoff: real)
    ensures |Expire(entries, cutoff)| <= |entries|
  {
    if entries != [] && entries[0] <= cutoff { ExpireShrinks(entries[1..], cutoff); }
  }
}
