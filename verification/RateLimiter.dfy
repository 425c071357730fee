/** The fixed-window rate limiter of AI plugins (internal/ai/ratelimit.go). */
module RateLimiter {
  import opened Wrappers
  import opened Clock

  datatype Window = Window(start: Time, count: nat)

  type Windows = map<int, Window>

  /** Limits are 32-bit. */
  type Limit = x: int | -0x8000_0000 <= x < 0x8000_0000

  /** The window a limited request falls into: the plugin's, unless there is none or a minute has
      passed since it began. */
  function CurrentWindow(wins: Windows, plugin: int, now: Time): Window {
    if plugin !in wins || Sub(now, wins[plugin].start) >= MINUTE then Window(now, 0) else wins[plugin]
  }

  predicate Allowed(wins: Windows, plugin: int, limit: Limit, now: Time) {
    limit <= 0 || CurrentWindow(wins, plugin, now).count < limit
  }

  function WindowsAfter(wins: Windows, plugin: int, limit: Limit, now: Time): Windows {
    if limit <= 0 then wins
    else
      var w := CurrentWindow(wins, plugin, now);
      wins[plugin := if w.count < limit then Window(w.start, w.count + 1) else w]
  }

  class Limiter {
    var wins: Windows

    constructor ()
      ensures wins == map[]
    {
      wins := map[];
    }

    method Allow(plugin: int, limit: Limit, now: Time) returns (ok: bool)
      modifies this
      ensures ok == Allowed(old(wins), plugin, limit, now)
      ensures wins == WindowsAfter(old(wins), plugin, limit, now)
      ensures limit <= 0 ==> ok && wins == old(wins)
      ensures limit > 0 && (plugin !in old(wins) || Sub(now, old(wins)[plugin].start) >= 60 * SECOND) ==>
        ok && wins == old(wins)[plugin := Window(now, 1)]
      ensures limit > 0 && plugin in old(wins) && Sub(now, old(wins)[plugin].start) < 60 * SECOND ==>
        var w := old(wins)[plugin];
        && (ok <==> w.count < limit)
        && wins == if ok then old(wins)[plugin := Window(w.start, w.count + 1)] else old(wins)
    {
      if limit <= 0 {
        return true;
      }
      if plugin !in wins || Sub(now, wins[plugin].start) >= MINUTE {
        wins := wins[plugin := Window(now, 0)];
      }
      if wins[plugin].count >= limit {
        return false;
      }
      wins := wins[plugin := wins[plugin].(count := wins[plugin].count + 1)];
      ok := true;
    }

    method Evict(plugin: int)
      modifies this
      ensures wins == old(wins) - {plugin}
    {
      wins := wins - {plugin};
    }
  }

  // ---------- runs ----------

  datatype Call =
    | Allow(plugin: int, limit: Limit, now: Time)
    | Evict(plugin: int)

  function After(wins: Windows, c: Call): Windows {
    match c
    case Allow(plugin, limit, now) => WindowsAfter(wins, plugin, limit, now)
    case Evict(plugin) => wins - {plugin}
  }

  function Run(calls: seq<Call>): Windows {
    if calls == [] then map[] else After(Run(calls[..|calls| - 1]), calls[|calls| - 1])
  }

  /** Whether a call is a limited request that was let through. */
  predicate Admits(wins: Windows, c: Call) {
    c.Allow? && c.limit > 0 && Allowed(wins, c.plugin, c.limit, c.now)
  }

  /** The limited requests of a plugin let through in the half-open span [from, to). */
  function Admitted(calls: seq<Call>, plugin: int, from: Time, to: Time): nat {
    if calls == [] then 0
    else
      var init, c := calls[..|calls| - 1], calls[|calls| - 1];
      Admitted(init, plugin, from, to)
      + (if c.plugin == plugin && Admits(Run(init), c) && from <= c.now < to then 1 else 0)
  }

  /** The clock read under the mutex does not run backwards. */
  ghost predicate ClockOk(calls: seq<Call>) {
    forall i, j | 0 <= i < j < |calls| :: calls[i].Allow? && calls[j].Allow? ==> calls[i].now <= calls[j].now
  }

  /** A plugin whose limit never changes and which is not deleted. */
  ghost predicate Steady(calls: seq<Call>, plugin: int, limit: Limit) {
    forall i | 0 <= i < |calls| && calls[i].plugin == plugin :: calls[i].Allow? && calls[i].limit == limit
  }

  ghost predicate NotAfter(calls: seq<Call>, t: Time) {
    forall i | 0 <= i < |calls| && calls[i].Allow? :: calls[i].now <= t
  }

  lemma {:induction false} WindowBegan(calls: seq<Call>, plugin: int, t: Time)
    requires NotAfter(calls, t) && plugin in Run(calls)
    ensures Run(calls)[plugin].start <= t
  {
    var init, c := calls[..|calls| - 1], calls[|calls| - 1];
    if plugin in Run(init) {
      WindowBegan(init, plugin, t);
    }
  }

  // ---------- the sliding-window bound ----------

  /** The most a span [from, ...) can have seen when the plugin's window is `w`: nothing while the window
      cannot reach into the span; all but its first request while it began before the span; and
      afterwards what such an early window can leave behind, plus a full limit for every minute's worth
      of windows since, plus the current one. */
  function Allowance(w: Window, limit: int, from: Time): int {
    if w.start + MINUTE <= from then 0
    else if w.start < from then w.count - 1
    else (limit - 1) + limit * ((w.start - from) / MINUTE) + w.count
  }

  ghost predicate WithinAllowance(calls: seq<Call>, plugin: int, limit: Limit, from: Time, to: Time) {
    if plugin !in Run(calls) then Admitted(calls, plugin, from, to) == 0
    else
      var w := Run(calls)[plugin];
      && 1 <= w.count <= limit
      && (w.start < to ==> Admitted(calls, plugin, from, to) <= Allowance(w, limit, from))
      && (w.start >= to ==> Admitted(calls, plugin, from, to) <= SpanBound(limit, to - from))
  }

  function CeilMinutes(length: int): int {
    (length + MINUTE - 1) / MINUTE
  }

  function SpanBound(limit: int, length: int): int {
    (CeilMinutes(length) + 1) * limit - 1
  }

  lemma MinutesMonotone(limit: int, a: int, b: int)
    requires limit > 0 && 0 <= a <= b
    ensures limit * (a / MINUTE) <= limit * (b / MINUTE)
    ensures a + MINUTE <= b ==> limit * (a / MINUTE) + limit <= limit * (b / MINUTE)
  {
    assert a / MINUTE <= b / MINUTE;
    if a + MINUTE <= b {
      assert a / MINUTE + 1 <= b / MINUTE;
      MulMonotone(limit, a / MINUTE + 1, b / MINUTE);
      assert limit * (a / MINUTE + 1) == limit * (a / MINUTE) + limit;
    }
    MulMonotone(limit, a / MINUTE, b / MINUTE);
  }

  lemma MulMonotone(k: int, a: int, b: int)
    requires k >= 0 && a <= b
    ensures k * a <= k * b
  {
  }

  /** No window that begins inside the span has more to give than the bound. */
  lemma AllowanceWithinBound(w: Window, limit: Limit, from: Time, to: Time)
    requires from < to && limit > 0 && w.count <= limit && w.start < to
    ensures Allowance(w, limit, from) <= SpanBound(limit, to - from)
  {
    var length := to - from;
    assert CeilMinutes(length) == (length - 1) / MINUTE + 1;
    assert (CeilMinutes(length) + 1) * limit == limit * ((length - 1) / MINUTE) + 2 * limit;
    MinutesMonotone(limit, 0, length - 1);
    if w.start >= from {
      MinutesMonotone(limit, w.start - from, length - 1);
    }
  }

  /** One more request of the plugin. */
  lemma RequestWithinAllowance(calls: seq<Call>, c: Call, limit: Limit, from: Time, to: Time)
    requires from < to && limit > 0 && c.Allow? && c.limit == limit && NotAfter(calls, c.now)
    requires WithinAllowance(calls, c.plugin, limit, from, to)
    ensures WithinAllowance(calls + [c], c.plugin, limit, from, to)
  {
    assert (calls + [c])[..|calls|] == calls;
    var wins := Run(calls);
    var before := Admitted(calls, c.plugin, from, to);
    var w := CurrentWindow(wins, c.plugin, c.now);
    if c.plugin in wins {
      WindowBegan(calls, c.plugin, c.now);
      if wins[c.plugin].start < to {
        AllowanceWithinBound(wins[c.plugin], limit, from, to);
      }
    }
    if w.count == 0 {
      NewWindow(calls, c, limit, from, to);
    }
  }

  /** A request that begins a window; it is always let through. */
  lemma NewWindow(calls: seq<Call>, c: Call, limit: Limit, from: Time, to: Time)
    requires from < to && limit > 0 && c.Allow? && c.limit == limit && NotAfter(calls, c.now)
    requires WithinAllowance(calls, c.plugin, limit, from, to)
    requires CurrentWindow(Run(calls), c.plugin, c.now) == Window(c.now, 0)
    ensures c.now < to ==> Admitted(calls, c.plugin, from, to) <= Allowance(Window(c.now, 1), limit, from) - (if c.now >= from then 1 else 0)
    ensures c.now >= to ==> Admitted(calls, c.plugin, from, to) <= SpanBound(limit, to - from)
  {
    var wins := Run(calls);
    MinutesMonotone(limit, 0, to - from);
    assert SpanBound(limit, to - from) >= 0 by {
      AllowanceWithinBound(Window(from, 0), limit, from, to);
    }
    if c.now >= from {
      MinutesMonotone(limit, 0, c.now - from);
    }
    if c.plugin in wins {
      WindowBegan(calls, c.plugin, c.now);
      var last := wins[c.plugin];
      if last.start < to {
        AllowanceWithinBound(last, limit, from, to);
      }
      if from <= last.start {
        MinutesMonotone(limit, last.start - from, c.now - from);
      }
    }
  }

  lemma {:induction false} RunWithinAllowance(calls: seq<Call>, plugin: int, limit: Limit, from: Time, to: Time)
    requires from < to && limit > 0 && ClockOk(calls) && Steady(calls, plugin, limit)
    ensures WithinAllowance(calls, plugin, limit, from, to)
  {
    if calls != [] {
      var init, c := calls[..|calls| - 1], calls[|calls| - 1];
      RunWithinAllowance(init, plugin, limit, from, to);
      if c.plugin == plugin {
        RequestWithinAllowance(init, c, limit, from, to);
        assert init + [c] == calls;
      }
    }
  }

  /** Any span of a given length lets through at most (ceil(length / minute) + 1) * N - 1 requests. */
  lemma SpanIsBounded(calls: seq<Call>, plugin: int, limit: Limit, from: Time, to: Time)
    requires from < to && limit > 0 && ClockOk(calls) && Steady(calls, plugin, limit)
    ensures Admitted(calls, plugin, from, to) <= (CeilMinutes(to - from) + 1) * limit - 1
  {
    RunWithinAllowance(calls, plugin, limit, from, to);
    if plugin in Run(calls) {
      var w := Run(calls)[plugin];
      if w.start < to {
        AllowanceWithinBound(w, limit, from, to);
      }
    } else {
      AllowanceWithinBound(Window(from, 0), limit, from, to);
    }
  }

  /** So any minute lets through fewer than twice the limit. */
  lemma MinuteIsBounded(calls: seq<Call>, plugin: int, limit: Limit, from: Time)
    requires limit > 0 && ClockOk(calls) && Steady(calls, plugin, limit)
    ensures Admitted(calls, plugin, from, from + MINUTE) <= 2 * limit - 1
  {
    SpanIsBounded(calls, plugin, limit, from, from + MINUTE);
  }

  // ---------- denials ----------

  /** A window's count never exceeds what was let through since it began. */
  lemma {:induction false} WindowIsBacked(calls: seq<Call>, plugin: int, to: Time)
    requires ClockOk(calls) && plugin in Run(calls) && forall i | 0 <= i < |calls| && calls[i].Allow? :: calls[i].now < to
    ensures Run(calls)[plugin].count <= Admitted(calls, plugin, Run(calls)[plugin].start, to)
  {
    var init, c := calls[..|calls| - 1], calls[|calls| - 1];
    if plugin in Run(init) {
      WindowIsBacked(init, plugin, to);
      if c.Allow? {
        WindowBegan(init, plugin, c.now);
      }
    }
  }

  /** Every denial comes after N requests let through within the last minute, whatever the limits were
      then and even if plugins were deleted in between. */
  lemma DenialIsJustified(calls: seq<Call>, c: Call)
    requires ClockOk(calls + [c]) && c.Allow? && !Allowed(Run(calls), c.plugin, c.limit, c.now)
    ensures Admitted(calls, c.plugin, c.now - MINUTE + 1, c.now + 1) >= c.limit
  {
    var wins := Run(calls);
    forall i | 0 <= i < |calls| && calls[i].Allow?
      ensures calls[i].now <= c.now
    {
      assert (calls + [c])[i] == calls[i] && (calls + [c])[|calls|] == c;
    }
    assert ClockOk(calls) by {
      assert forall i | 0 <= i < |calls| :: (calls + [c])[i] == calls[i];
    }
    assert c.plugin in wins;
    WindowIsBacked(calls, c.plugin, c.now + 1);
    WindowBegan(calls, c.plugin, c.now);
    LongerSpanAdmitsMore(calls, c.plugin, c.now - MINUTE + 1, wins[c.plugin].start, c.now + 1);
  }

  lemma {:induction false} LongerSpanAdmitsMore(calls: seq<Call>, plugin: int, from: Time, later: Time, to: Time)
    requires from <= later
    ensures Admitted(calls, plugin, from, to) >= Admitted(calls, plugin, later, to)
  {
    if calls != [] {
      LongerSpanAdmitsMore(calls[..|calls| - 1], plugin, from, later, to);
    }
  }

  /** A request without a limit is let through and leaves the windows alone; an eviction forgets that plugin
      and no other, so that its next request is let through. */
  lemma NoLimitAndNoWindow(calls: seq<Call>, plugin: int, limit: Limit, now: Time)
    ensures limit <= 0 ==>
      Allowed(Run(calls), plugin, limit, now) && Run(calls + [Allow(plugin, limit, now)]) == Run(calls)
    ensures plugin !in Run(calls + [Call.Evict(plugin)])
    ensures forall other | other != plugin :: WindowOf(Run(calls + [Call.Evict(plugin)]), other) == WindowOf(Run(calls), other)
    ensures Allowed(Run(calls + [Call.Evict(plugin)]), plugin, limit, now)
  {
    AppendCall(calls, Allow(plugin, limit, now), plugin);
    AppendCall(calls, Call.Evict(plugin), plugin);
  }

  // ---------- independence ----------

  /** The calls about one plugin. */
  function Only(calls: seq<Call>, plugin: int): seq<Call> {
    if calls == [] then []
    else
      var init, c := calls[..|calls| - 1], calls[|calls| - 1];
      if c.plugin == plugin then Only(init, plugin) + [c] else Only(init, plugin)
  }

  /** The answers a plugin's requests got, in order. */
  function Answers(calls: seq<Call>, plugin: int): seq<bool> {
    if calls == [] then []
    else
      var init, c := calls[..|calls| - 1], calls[|calls| - 1];
      if c.Allow? && c.plugin == plugin then Answers(init, plugin) + [Allowed(Run(init), c.plugin, c.limit, c.now)]
      else Answers(init, plugin)
  }

  function WindowOf(wins: Windows, plugin: int): Option<Window> {
    if plugin in wins then Some(wins[plugin]) else None
  }

  lemma SameWindowSameStep(a: Windows, b: Windows, c: Call, plugin: int)
    requires WindowOf(a, plugin) == WindowOf(b, plugin)
    ensures c.plugin == plugin ==> WindowOf(After(a, c), plugin) == WindowOf(After(b, c), plugin)
    ensures c.plugin != plugin ==> WindowOf(a, plugin) == WindowOf(After(b, c), plugin)
    ensures c.plugin == plugin && c.Allow? ==> Allowed(a, plugin, c.limit, c.now) == Allowed(b, plugin, c.limit, c.now)
  {
    assert plugin in a <==> plugin in b;
  }

  lemma AppendCall(calls: seq<Call>, c: Call, plugin: int)
    ensures Run(calls + [c]) == After(Run(calls), c)
    ensures Answers(calls + [c], plugin)
         == Answers(calls, plugin)
            + (if c.Allow? && c.plugin == plugin then [Allowed(Run(calls), c.plugin, c.limit, c.now)] else [])
  {
    assert (calls + [c])[..|calls|] == calls;
  }

  /** Leaving out every call about other plugins changes neither a plugin's window nor its answers. */
  lemma {:induction false} PluginsAreIndependent(calls: seq<Call>, plugin: int)
    ensures WindowOf(Run(Only(calls, plugin)), plugin) == WindowOf(Run(calls), plugin)
    ensures Answers(Only(calls, plugin), plugin) == Answers(calls, plugin)
  {
    if calls != [] {
      var init, c := calls[..|calls| - 1], calls[|calls| - 1];
      PluginsAreIndependent(init, plugin);
      var only := Only(init, plugin);
      SameWindowSameStep(Run(only), Run(init), c, plugin);
      AppendCall(only, c, plugin);
      AppendCall(init, c, plugin);
      assert init + [c] == calls;
    }
  }

  // ---------- the bound is attained ----------

  function Repeat(c: Call, n: nat): (calls: seq<Call>)
    ensures |calls| == n && forall i | 0 <= i < n :: calls[i] == c
  {
    seq(n, _ => c)
  }

  /** One request, N - 1 more a nanosecond later, and N at the end of that minute. */
  function Burst(plugin: int, limit: Limit): seq<Call>
    requires limit > 0
  {
    [Allow(plugin, limit, -1)] + Repeat(Allow(plugin, limit, 0), limit - 1) + Repeat(Allow(plugin, limit, MINUTE - 1), limit)
  }

  lemma AppendAdmitted(calls: seq<Call>, c: Call, from: Time, to: Time)
    ensures Admitted(calls + [c], c.plugin, from, to)
         == Admitted(calls, c.plugin, from, to) + (if Admits(Run(calls), c) && from <= c.now < to then 1 else 0)
  {
    assert (calls + [c])[..|calls|] == calls;
  }

  /** Requests at one instant are let through while the window has room. */
  lemma {:induction false} RoomLetsThrough(calls: seq<Call>, c: Call, n: nat, from: Time, to: Time)
    requires c.Allow? && from <= c.now < to && 0 < n
    requires CurrentWindow(Run(calls), c.plugin, c.now).count + n <= c.limit
    ensures Admitted(calls + Repeat(c, n), c.plugin, from, to) == Admitted(calls, c.plugin, from, to) + n
    ensures c.plugin in Run(calls + Repeat(c, n))
    ensures var w := CurrentWindow(Run(calls), c.plugin, c.now);
      Run(calls + Repeat(c, n))[c.plugin] == Window(w.start, w.count + n)
  {
    var more := calls + Repeat(c, n - 1);
    assert calls + Repeat(c, n) == more + [c];
    if n == 1 {
      assert more == calls;
    } else {
      RoomLetsThrough(calls, c, n - 1, from, to);
      WindowStays(Run(calls), Run(more), c, n - 1);
    }
    OneLetThrough(more, c, from, to);
  }

  /** At the same instant the window is still the current one. */
  lemma WindowStays(before: Windows, after: Windows, c: Call, n: nat)
    requires c.Allow? && c.plugin in after
    requires var w := CurrentWindow(before, c.plugin, c.now);
      after[c.plugin] == Window(w.start, w.count + n)
    ensures CurrentWindow(after, c.plugin, c.now) == after[c.plugin]
  {
  }

  lemma OneLetThrough(calls: seq<Call>, c: Call, from: Time, to: Time)
    requires c.Allow? && from <= c.now < to && CurrentWindow(Run(calls), c.plugin, c.now).count < c.limit
    ensures Admitted(calls + [c], c.plugin, from, to) == Admitted(calls, c.plugin, from, to) + 1
    ensures var w := CurrentWindow(Run(calls), c.plugin, c.now);
      WindowOf(Run(calls + [c]), c.plugin) == Some(Window(w.start, w.count + 1))
  {
    AppendAdmitted(calls, c, from, to);
    AppendCall(calls, c, c.plugin);
  }

  lemma BurstIsSteady(plugin: int, limit: Limit)
    requires limit > 0
    ensures ClockOk(Burst(plugin, limit)) && Steady(Burst(plugin, limit), plugin, limit)
  {
  }

  lemma BurstBegins(plugin: int, limit: Limit)
    requires limit > 0
    ensures var calls := [Allow(plugin, limit, -1)] + Repeat(Allow(plugin, limit, 0), limit - 1);
      Admitted(calls, plugin, 0, MINUTE) == limit - 1 && WindowOf(Run(calls), plugin) == Some(Window(-1, limit))
  {
    var first := [Allow(plugin, limit, -1)];
    assert first[..0] == [];
    if limit > 1 {
      RoomLetsThrough(first, Allow(plugin, limit, 0), limit - 1, 0, MINUTE);
    } else {
      assert first + Repeat(Allow(plugin, limit, 0), limit - 1) == first;
    }
  }

  /** No smaller bound than 2 N - 1 holds for a minute, whatever the limit. */
  lemma BoundIsAttained(plugin: int, limit: Limit)
    requires limit > 0
    ensures ClockOk(Burst(plugin, limit)) && Steady(Burst(plugin, limit), plugin, limit)
    ensures Admitted(Burst(plugin, limit), plugin, 0, MINUTE) == 2 * limit - 1
  {
    BurstIsSteady(plugin, limit);
    BurstBegins(plugin, limit);
    var second := [Allow(plugin, limit, -1)] + Repeat(Allow(plugin, limit, 0), limit - 1);
    RoomLetsThrough(second, Allow(plugin, limit, MINUTE - 1), limit, 0, MINUTE);
  }
}
