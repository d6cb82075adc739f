/** The fixed-window login limiter, against the history of the attempts. */
module RateLimit {
  import opened Options

  datatype Config = Config(limit: int, window: int)

  datatype Window = Window(start: int, count: int)

  datatype Attempt = Attempt(key: string, time: int)

  /** The window an attempt at `now` falls into. */
  function Opened(c: Config, w: Option<Window>, now: int): Window {
    if w.None? || now - w.value.start >= c.window then Window(now, 0) else w.value
  }

  predicate Allows(c: Config, w: Option<Window>, now: int) { Opened(c, w, now).count < c.limit }

  function After(c: Config, w: Option<Window>, now: int): Window {
    var o := Opened(c, w, now);
    if o.count < c.limit then o.(count := o.count + 1) else o
  }

  /** The window of a key after attempts at `times`. */
  function State(c: Config, times: seq<int>): Option<Window> {
    if times == [] then None else Some(After(c, State(c, times[..|times| - 1]), times[|times| - 1]))
  }

  /** The times, in order, of the attempts that were allowed. */
  function Allowed(c: Config, times: seq<int>): seq<int> {
    if times == [] then []
    else
      var init, now := times[..|times| - 1], times[|times| - 1];
      if Allows(c, State(c, init), now) then Allowed(c, init) + [now] else Allowed(c, init)
  }

  function Times(attempts: seq<Attempt>, key: string): seq<int> {
    if attempts == [] then []
    else
      var init, x := attempts[..|attempts| - 1], attempts[|attempts| - 1];
      if x.key == key then Times(init, key) + [x.time] else Times(init, key)
  }

  /** How many of `times` lie at or after `a`, and before `b`. */
  function Between(times: seq<int>, a: int, b: int): nat {
    if times == [] then 0
    else
      var n, t := Between(times[..|times| - 1], a, b), times[|times| - 1];
      if a <= t < b then n + 1 else n
  }

  predicate Monotone(times: seq<int>) { forall i, j :: 0 <= i < j < |times| ==> times[i] <= times[j] }

  class RateLimiter {
    const c: Config
    var windows: map<string, Window>
    ghost var attempts: seq<Attempt>

    ghost predicate Valid()
      reads this
    {
      forall key :: Lookup(windows, key) == State(c, Times(attempts, key))
    }

    constructor (c: Config)
      ensures Valid() && this.c == c && attempts == []
    {
      this.c := c;
      windows, attempts := map[], [];
    }

    /** Allowed or not as the history of the key says. A denied caller is told to wait a time
        in (0, window], and no interval of that length has 2 * limit allowed attempts. */
    method Allow(key: string, now: int) returns (allowed: bool, retryAfter: int)
      requires Valid()
      modifies this
      ensures Valid() && attempts == old(attempts) + [Attempt(key, now)]
      ensures allowed <==> Allows(c, State(c, Times(old(attempts), key)), now)
      ensures allowed ==> retryAfter == 0
      ensures !allowed ==> retryAfter == Opened(c, State(c, Times(old(attempts), key)), now).start + c.window - now
      ensures !allowed && c.window > 0 && Monotone(Times(attempts, key)) ==> 0 < retryAfter <= c.window
      ensures Monotone(Times(attempts, key)) ==>
        (forall a, b :: b - a <= c.window ==> Between(Allowed(c, Times(attempts, key)), a, b) <= Most(c))
    {
      hide State, Allowed, Between, Times, Monotone;
      ghost var was := Times(attempts, key);
      assert Lookup(windows, key) == State(c, was);
      Recorded(attempts, key, now);
      attempts := attempts + [Attempt(key, now)];
      assert Times(attempts, key) == was + [now];
      NextAllowed(c, was, now);
      if Monotone(was + [now]) {
        UnderTwiceTheLimit(c, was + [now]);
        StartNotLater(c, was, now);
      }
      if key !in windows || now - windows[key].start >= c.window {
        windows := windows[key := Window(now, 0)];
      }
      if windows[key].count >= c.limit {
        return false, c.window - (now - windows[key].start);
      }
      windows := windows[key := windows[key].(count := windows[key].count + 1)];
      return true, 0;
    }
  }

  function Lookup(windows: map<string, Window>, key: string): Option<Window> {
    if key in windows then Some(windows[key]) else None
  }

  lemma Recorded(attempts: seq<Attempt>, key: string, now: int)
    ensures forall k :: k != key ==> Times(attempts + [Attempt(key, now)], k) == Times(attempts, k)
    ensures Times(attempts + [Attempt(key, now)], key) == Times(attempts, key) + [now]
  {
    assert (attempts + [Attempt(key, now)])[..|attempts|] == attempts;
  }

  function Room(c: Config): nat { if c.limit < 0 then 0 else c.limit }

  /** How many attempts an interval as long as the window can have at most. */
  function Most(c: Config): nat { if c.limit <= 0 then 0 else 2 * c.limit - 1 }

  // --------------------------------------------------------------- the bound

  lemma MonotoneInit(times: seq<int>)
    requires Monotone(times) && times != []
    ensures Monotone(times[..|times| - 1])
    ensures forall i :: 0 <= i < |times| ==> times[i] <= times[|times| - 1]
  {
  }

  lemma {:induction false} StartNotLater(c: Config, times: seq<int>, now: int)
    requires Monotone(times + [now])
    ensures State(c, times).Some? ==> State(c, times).value.start <= now
  {
    hide State, Allowed, Monotone;
    StateNone(c, times);
    if times != [] {
      var init, last := times[..|times| - 1], times[|times| - 1];
      MonotoneInit(times + [now]);
      assert (times + [now])[..|times|] == times == init + [last];
      assert (times + [now])[|times| - 1] == last;
      StartNotLater(c, init, last);
      NextAllowed(c, init, last);
    }
  }

  /** The allowed attempts of the current window are its count, the first of them at its
      start, and those that lie less than a window before it are fewer than the limit. */
  ghost predicate Bounded(c: Config, times: seq<int>, w: Window) {
    0 <= w.count <= Room(c) && forall a, b :: BoundedAt(c, Allowed(c, times), w, a, b)
  }

  predicate BoundedAt(c: Config, all: seq<int>, w: Window, a: int, b: int) {
    var n := Between(all, a, b);
    && (a > w.start ==> n <= if w.count == 0 then 0 else w.count - 1)
    && (a > w.start - c.window ==> n <= Most(c) - Room(c) + w.count)
    && (b - a <= c.window ==> n <= Most(c))
  }

  lemma BetweenLast(times: seq<int>, now: int, a: int, b: int)
    ensures Between(times + [now], a, b) == Between(times, a, b) + if a <= now < b then 1 else 0
  {
    assert (times + [now])[..|times|] == times;
  }

  lemma {:induction false} NoneBetween(times: seq<int>, a: int, b: int)
    requires forall i :: 0 <= i < |times| ==> times[i] < a
    ensures Between(times, a, b) == 0
  {
    if times != [] { NoneBetween(times[..|times| - 1], a, b); }
  }

  lemma {:induction false} AllowedNotLater(c: Config, times: seq<int>, now: int)
    requires forall i :: 0 <= i < |times| ==> times[i] <= now
    ensures forall i :: 0 <= i < |Allowed(c, times)| ==> Allowed(c, times)[i] <= now
  {
    hide State, Allows;
    if times != [] { AllowedNotLater(c, times[..|times| - 1], now); }
  }

  /** Opening a window keeps the bounds. */
  lemma OpenBounded(c: Config, times: seq<int>, now: int)
    requires forall i :: 0 <= i < |times| ==> times[i] <= now
    requires State(c, times).Some? ==> Bounded(c, times, State(c, times).value) && State(c, times).value.start <= now
    requires State(c, times).None? ==> times == []
    ensures Bounded(c, times, Opened(c, State(c, times), now))
  {
    hide Between, Allowed, State;
    var s, all, o := State(c, times), Allowed(c, times), Opened(c, State(c, times), now);
    AllowedNotLater(c, times, now);
    if s.None? || now - s.value.start >= c.window {
      if s.None? { EmptyAllowed(c); }
      forall a, b ensures BoundedAt(c, all, o, a, b) {
        if a > now || s.None? { NoneBetween(all, a, b); }
        assert s.Some? ==> BoundedAt(c, all, s.value, a, b);
      }
    }
  }

  lemma StateNone(c: Config, times: seq<int>)
    ensures State(c, times).None? <==> times == []
  {
  }

  lemma EmptyAllowed(c: Config)
    ensures Allowed(c, []) == []
  {
  }

  lemma AllowBounded(c: Config, times: seq<int>, now: int, o: Window)
    requires o == Opened(c, State(c, times), now) && Bounded(c, times, o)
    requires o.start <= now < o.start + c.window || o.start == now
    requires o.count == 0 && c.limit > 0 ==> o.start == now
    ensures Bounded(c, times + [now], After(c, State(c, times), now))
    ensures c.limit > 0 ==> After(c, State(c, times), now).count > 0
  {
    hide Between, State;
    var all := Allowed(c, times);
    assert (times + [now])[..|times|] == times;
    if o.count < c.limit {
      assert Allowed(c, times + [now]) == all + [now];
      forall a, b ensures BoundedAt(c, all + [now], After(c, State(c, times), now), a, b) {
        BetweenLast(all, now, a, b);
        assert BoundedAt(c, all, o, a, b);
      }
    } else {
      assert Allowed(c, times + [now]) == all;
    }
  }

  lemma {:induction false} AlwaysBounded(c: Config, times: seq<int>)
    requires Monotone(times)
    ensures times != [] ==> Bounded(c, times, State(c, times).value) && (c.limit > 0 ==> State(c, times).value.count > 0)
  {
    if times != [] {
      hide Bounded, Allowed, State, Monotone;
      var init, now := times[..|times| - 1], times[|times| - 1];
      assert init + [now] == times;
      MonotoneInit(times);
      AlwaysBounded(c, init);
      StateNone(c, init);
      StartNotLater(c, init, now);
      OpenBounded(c, init, now);
      AllowBounded(c, init, now, Opened(c, State(c, init), now));
      NextAllowed(c, init, now);
    }
  }

  /** In no half-open interval as long as the window are twice `limit` attempts allowed ... */
  lemma {:induction false} UnderTwiceTheLimit(c: Config, times: seq<int>)
    requires Monotone(times)
    ensures forall a, b :: b - a <= c.window ==> Between(Allowed(c, times), a, b) <= Most(c)
  {
    if times == [] {
      assert Allowed(c, times) == [];
    } else {
      AlwaysBounded(c, times);
      forall a, b | b - a <= c.window ensures Between(Allowed(c, times), a, b) <= Most(c) {
        assert BoundedAt(c, Allowed(c, times), State(c, times).value, a, b);
      }
    }
  }

  function Burst(t: int, n: nat): seq<int> { if n == 0 then [] else Burst(t, n - 1) + [t] }

  /** Attempts at one time that fit into the window are all allowed. */
  lemma {:induction false} BurstAllowed(c: Config, times: seq<int>, w: Window, t: int, n: nat, a: int, b: int)
    requires State(c, times) == Some(w) && t - w.start < c.window && w.count + n <= c.limit
    ensures var all := times + Burst(t, n);
      && State(c, all) == Some(Window(w.start, w.count + n))
      && Between(Allowed(c, all), a, b) == Between(Allowed(c, times), a, b) + if a <= t < b then n else 0
  {
    hide State, Allowed, Between;
    if n == 0 {
      assert times + Burst(t, n) == times;
    } else {
      var before := times + Burst(t, n - 1);
      BurstAllowed(c, times, w, t, n - 1, a, b);
      assert times + Burst(t, n) == before + [t];
      NextAllowed(c, before, t);
      BetweenLast(Allowed(c, before), t, a, b);
    }
  }

  lemma NextAllowed(c: Config, times: seq<int>, now: int)
    ensures var s := State(c, times);
      && State(c, times + [now]) == Some(After(c, s, now))
      && Allowed(c, times + [now]) == if Allows(c, s, now) then Allowed(c, times) + [now] else Allowed(c, times)
  {
    assert (times + [now])[..|times|] == times;
  }

  /** ... and one fewer is reached: an attempt that opens a window, `limit` - 1 just before
      the window ends, and `limit` right after. */
  lemma {:induction false} BoundReached(c: Config) returns (times: seq<int>)
    requires c.limit > 0 && c.window > 1
    ensures Monotone(times) && Between(Allowed(c, times), c.window - 1, 2 * c.window - 1) == Most(c)
  {
    hide State, Allowed, Between, Burst, Monotone;
    var a, b := c.window - 1, 2 * c.window - 1;
    var late := FirstWindow(c, a, b);
    NextAllowed(c, late, c.window);
    BetweenLast(Allowed(c, late), c.window, a, b);
    BurstAllowed(c, late + [c.window], Window(c.window, 1), c.window, c.limit - 1, a, b);
    times := late + [c.window] + Burst(c.window, c.limit - 1);
    InOrder(c, late);
  }

  lemma FirstWindow(c: Config, a: int, b: int) returns (late: seq<int>)
    requires c.limit > 0 && c.window > 1 && a == c.window - 1 < b
    ensures late == [0] + Burst(a, c.limit - 1)
    ensures State(c, late) == Some(Window(0, c.limit)) && Between(Allowed(c, late), a, b) == c.limit - 1
  {
    assert State(c, []) == None && Allowed(c, []) == [];
    hide State, Allowed, Between, Burst;
    NextAllowed(c, [], 0);
    assert [] + [0] == [0];
    NoneBetween([0], a, b);
    BurstAllowed(c, [0], Window(0, 1), a, c.limit - 1, a, b);
    late := [0] + Burst(a, c.limit - 1);
  }

  lemma InOrder(c: Config, late: seq<int>)
    requires c.limit > 0 && c.window > 1 && late == [0] + Burst(c.window - 1, c.limit - 1)
    ensures Monotone(late + [c.window] + Burst(c.window, c.limit - 1))
  {
    BurstConstant(c.window - 1, c.limit - 1);
    BurstConstant(c.window, c.limit - 1);
  }

  lemma {:induction false} BurstConstant(t: int, n: nat)
    ensures forall i :: 0 <= i < |Burst(t, n)| ==> Burst(t, n)[i] == t
  {
    if n > 0 { BurstConstant(t, n - 1); }
  }

  // ------------------------------------------------------------ retry after

  /** While others try between a denied attempt and the end `until` of its window, the window
      stays full, or a new one opens at `until` and counts who of them was allowed. */
  lemma {:induction false} WhileWaiting(c: Config, times: seq<int>, others: seq<int>, w: Window)
    requires State(c, times) == Some(w) && w.count >= c.limit
    requires c.window > 0 && forall i :: 0 <= i < |others| ==> others[i] <= w.start + c.window
    ensures var s := State(c, times + others);
      var n := |Allowed(c, times + others)| - |Allowed(c, times)|;
      (s == Some(w) && n == 0) || (n >= 0 && s == Some(Window(w.start + c.window, n)) && (c.limit <= 0 ==> n == 0))
  {
    hide State, Allowed, Monotone;
    if others == [] {
      assert times + others == times;
    } else {
      var init, now := others[..|others| - 1], others[|others| - 1];
      WhileWaiting(c, times, init, w);
      NextAllowed(c, times + init, now);
      assert times + others == times + init + [now];
    }
  }

  /** A denied caller who comes back after exactly the wait it was told is allowed if and only
      if fewer than `limit` others were allowed in the meantime. */
  lemma {:induction false} RetryAfterSuffices(c: Config, times: seq<int>, now: int, others: seq<int>)
    requires c.window > 0 && !Allows(c, State(c, times), now)
    requires forall i :: 0 <= i < |others| ==>
      others[i] <= Opened(c, State(c, times), now).start + c.window
    ensures var back := Opened(c, State(c, times), now).start + c.window;
      var before := times + [now] + others;
      var n := |Allowed(c, before)| - |Allowed(c, times)|;
      Allows(c, State(c, before), back) <==> n < c.limit
  {
    var denied := times + [now];
    assert denied[..|denied| - 1] == times;
    WhileWaiting(c, denied, others, Opened(c, State(c, times), now));
  }
}
