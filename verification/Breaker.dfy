/** The circuit breaker. `Do` releases its lock while the wrapped call runs, so any
    number of calls overlap: a call is a Begin step and, unless skipped, a later End
    step, and a run is any interleaving of such steps. */
module Breaker {
  import opened Options

  datatype Mode = Closed | Open | HalfOpen

  /** `maxFailures` and `openDuration` as configured; nothing keeps them positive. */
  datatype Config = Config(maxFailures: int, openDuration: int)

  datatype State = State(mode: Mode, failures: int, skips: nat, openedAt: int, probing: bool)

  const INITIAL := State(Closed, 0, 0, 0, false)

  /** Phase 1: the new state, and the mode the call runs in unless it is skipped. */
  function Begin(c: Config, s: State, now: int): (State, Option<Mode>) {
    match s.mode
    case Open =>
      if now - s.openedAt < c.openDuration then (s.(skips := s.skips + 1), None)
      else (s.(mode := HalfOpen, probing := true), Some(HalfOpen))
    case HalfOpen =>
      if s.probing then (s.(skips := s.skips + 1), None)
      else (s.(probing := true), Some(HalfOpen))
    case Closed => (s, Some(Closed))
  }

  /** Phase 3: the result of a call begun at `start` in mode `ran`. */
  function End(c: Config, s: State, ran: Mode, start: int, failed: bool): State {
    if failed then
      if ran == HalfOpen then s.(mode := Open, openedAt := start, probing := false)
      else if s.mode == Closed then
        var t := s.(failures := s.failures + 1);
        if t.failures >= c.maxFailures then t.(mode := Open, openedAt := start) else t
      else s
    else if ran == HalfOpen then s.(failures := 0, mode := Closed, probing := false)
    else if s.mode == Closed then s.(failures := 0)
    else s
  }

  class Breaker {
    var mode: Mode
    var failures: int
    var skips: nat
    var openedAt: int
    var probing: bool
    const config: Config

    function View(): State
      reads this
    {
      State(mode, failures, skips, openedAt, probing)
    }

    constructor (config: Config)
      ensures View() == INITIAL && this.config == config
    {
      this.config := config;
      mode, failures, skips, openedAt, probing := Closed, 0, 0, 0, false;
    }

    /** Up to the point where the lock is released; None when the call is skipped. */
    method BeginDo(now: int) returns (ran: Option<Mode>)
      modifies this
      ensures (View(), ran) == Begin(config, old(View()), now)
    {
      if mode == Open {
        if now - openedAt < config.openDuration {
          skips := skips + 1;
          return None;
        }
        mode := HalfOpen;
        probing := true;
        return Some(HalfOpen);
      } else if mode == HalfOpen {
        if probing {
          skips := skips + 1;
          return None;
        }
        probing := true;
        return Some(HalfOpen);
      } else {
        return Some(Closed);
      }
    }

    /** From the point where the lock is taken again. */
    method EndDo(ran: Mode, start: int, failed: bool)
      modifies this
      ensures View() == End(config, old(View()), ran, start, failed)
    {
      if failed {
        if ran == HalfOpen {
          mode := Open;
          openedAt := start;
          probing := false;
        } else if mode == Closed {
          failures := failures + 1;
          if failures >= config.maxFailures {
            mode := Open;
            openedAt := start;
          }
        }
        return;
      }
      if ran == HalfOpen {
        failures := 0;
        mode := Closed;
        probing := false;
      } else if mode == Closed {
        failures := 0;
      }
    }
  }

  // ----------------------------------------------------- overlapping calls

  datatype Call = Call(ran: Mode, start: int)

  /** `applied` lists the results that counted while the breaker was closed, and the
      success of each probe that closed it; true is a failure. */
  datatype World = World(s: State, inFlight: map<nat, Call>, made: nat, finished: nat, clock: int, applied: seq<bool>)

  const START := World(INITIAL, map[], 0, 0, 0, [])

  datatype Step = BeginStep(id: nat, now: int) | EndStep(id: nat, failed: bool)

  predicate Enabled(w: World, step: Step) {
    match step
    case BeginStep(id, _) => id !in w.inFlight
    case EndStep(id, _) => id in w.inFlight
  }

  function Next(c: Config, w: World, step: Step): World
    requires Enabled(w, step)
  {
    match step
    case BeginStep(id, now) =>
      var (s, ran) := Begin(c, w.s, now);
      var v := w.(s := s, made := w.made + 1, clock := now);
      if ran.None? then v else v.(inFlight := w.inFlight[id := Call(ran.value, now)])
    case EndStep(id, failed) =>
      var call := w.inFlight[id];
      var s := End(c, w.s, call.ran, call.start, failed);
      var counts := (call.ran == Closed && w.s.mode == Closed) || (call.ran == HalfOpen && !failed);
      w.(s := s, inFlight := w.inFlight - {id}, finished := w.finished + 1,
         applied := if counts then w.applied + [failed] else w.applied)
  }

  /** `steps` is a possible interleaving from `w`. */
  ghost predicate Legal(c: Config, w: World, steps: seq<Step>)
    decreases |steps|
  {
    steps == [] || (Enabled(w, steps[0]) && Legal(c, Next(c, w, steps[0]), steps[1..]))
  }

  ghost function Run(c: Config, w: World, steps: seq<Step>): World
    requires Legal(c, w, steps)
    decreases |steps|
  {
    if steps == [] then w else Run(c, Next(c, w, steps[0]), steps[1..])
  }

  /** How many consecutive failures it takes to open. */
  function Threshold(c: Config): int {
    if c.maxFailures < 1 then 1 else c.maxFailures
  }

  /** The number of failures at the end of `results`. */
  function Trailing(results: seq<bool>): nat {
    if results == [] || !results[|results| - 1] then 0 else 1 + Trailing(results[..|results| - 1])
  }

  lemma {:induction false} TrailingMeans(results: seq<bool>, n: nat)
    ensures Trailing(results) >= n
        <==> n <= |results| && forall i :: |results| - n <= i < |results| ==> results[i]
  {
    if n > 0 && results != [] {
      var init := results[..|results| - 1];
      TrailingMeans(init, n - 1);
      if n <= |results| && forall i :: |results| - n <= i < |results| ==> results[i] {
        forall i | |init| - (n - 1) <= i < |init| ensures init[i] { assert results[i]; }
      }
    }
  }

  lemma OneLess(calls: map<nat, Call>, id: nat)
    requires id in calls
    ensures |calls - {id}| == |calls| - 1
  {
    assert calls.Keys == (calls - {id}).Keys + {id};
  }

  lemma TrailingSnoc(results: seq<bool>, failed: bool)
    ensures Trailing(results + [failed]) == if failed then 1 + Trailing(results) else 0
  {
    assert (results + [failed])[..|results|] == results;
  }

  ghost predicate Probes(w: World, id: nat) {
    id in w.inFlight && w.inFlight[id].ran == HalfOpen
  }

  /** The half-open state, the probing flag and one half-open call in flight are the same. */
  ghost predicate Probed(w: World) {
    && (w.s.mode == HalfOpen <==> w.s.probing)
    && (w.s.probing <==> exists id :: Probes(w, id))
    && (forall i, j :: Probes(w, i) && Probes(w, j) ==> i == j)
    && (forall id :: id in w.inFlight ==> w.inFlight[id].ran != Open)
  }

  ghost predicate Counted(c: Config, w: World) {
    && 0 <= w.s.failures <= Threshold(c)
    && (w.s.mode != Closed <==> w.s.failures == Threshold(c))
    && w.s.failures == Trailing(w.applied)
    && w.made == w.s.skips + w.finished + |w.inFlight|
  }

  /** What every interleaving keeps. */
  ghost predicate Inv(c: Config, w: World) {
    Probed(w) && Counted(c, w)
  }

  lemma {:induction false} BeginKeepsProbed(c: Config, w: World, id: nat, now: int)
    requires Probed(w) && id !in w.inFlight
    ensures Probed(Next(c, w, BeginStep(id, now)))
  {
    var v := Next(c, w, BeginStep(id, now));
    var ran := Begin(c, w.s, now).1;
    if ran == Some(HalfOpen) {
      forall i ensures Probes(v, i) <==> i == id { assert !Probes(w, i); }
      assert Probes(v, id);
    } else {
      forall i ensures Probes(v, i) <==> Probes(w, i) {}
      if w.s.probing {
        var i :| Probes(w, i);
        assert Probes(v, i);
      }
    }
  }

  lemma {:induction false} BeginKeepsInv(c: Config, w: World, id: nat, now: int)
    requires Inv(c, w) && id !in w.inFlight
    ensures Inv(c, Next(c, w, BeginStep(id, now)))
  {
    hide Trailing, Threshold, Probed;
    BeginKeepsProbed(c, w, id, now);
    var v := Next(c, w, BeginStep(id, now));
    assert Begin(c, w.s, now).1.Some? ==> v.inFlight.Keys == w.inFlight.Keys + {id};
  }

  lemma {:induction false} EndKeepsProbed(c: Config, w: World, id: nat, failed: bool)
    requires Probed(w) && id in w.inFlight
    ensures Probed(Next(c, w, EndStep(id, failed)))
  {
    hide Threshold;
    var v := Next(c, w, EndStep(id, failed));
    forall i ensures Probes(v, i) <==> Probes(w, i) && i != id {}
    if Probes(w, id) {
      assert forall i :: !Probes(v, i);
    } else if w.s.probing {
      var i :| Probes(w, i);
      assert Probes(v, i);
    }
  }

  /** The failure count and the trailing failures, when a result comes in. */
  lemma {:induction false} EndKeepsFailures(c: Config, s: State, applied: seq<bool>, ran: Mode, start: int, failed: bool)
    requires 0 <= s.failures <= Threshold(c) && (s.mode != Closed <==> s.failures == Threshold(c))
    requires s.failures == Trailing(applied) && ran != Open && (ran == HalfOpen ==> s.mode == HalfOpen)
    ensures var t := End(c, s, ran, start, failed);
      var counts := (ran == Closed && s.mode == Closed) || (ran == HalfOpen && !failed);
      && 0 <= t.failures <= Threshold(c) && (t.mode != Closed <==> t.failures == Threshold(c))
      && t.failures == Trailing(if counts then applied + [failed] else applied) && t.skips == s.skips
  {
    TrailingSnoc(applied, failed);
    hide Trailing;
  }

  lemma {:induction false} EndKeepsCounted(c: Config, w: World, id: nat, failed: bool)
    requires Counted(c, w) && id in w.inFlight
    requires w.inFlight[id].ran != Open && (w.inFlight[id].ran == HalfOpen ==> w.s.mode == HalfOpen)
    ensures Counted(c, Next(c, w, EndStep(id, failed)))
  {
    hide Trailing, Threshold, End;
    var call := w.inFlight[id];
    OneLess(w.inFlight, id);
    EndKeepsFailures(c, w.s, w.applied, call.ran, call.start, failed);
  }

  lemma {:induction false} EndKeepsInv(c: Config, w: World, id: nat, failed: bool)
    requires Inv(c, w) && id in w.inFlight
    ensures Inv(c, Next(c, w, EndStep(id, failed)))
  {
    hide Counted, Next, Trailing, Threshold;
    assert w.inFlight[id].ran == HalfOpen ==> Probes(w, id);
    EndKeepsProbed(c, w, id, failed);
    EndKeepsCounted(c, w, id, failed);
  }

  lemma StepKeepsInv(c: Config, w: World, step: Step)
    requires Inv(c, w) && Enabled(w, step)
    ensures Inv(c, Next(c, w, step))
  {
    hide Inv, Next;
    match step
    case BeginStep(id, now) => BeginKeepsInv(c, w, id, now);
    case EndStep(id, failed) => EndKeepsInv(c, w, id, failed);
  }

  lemma {:induction false} RunKeepsInv(c: Config, w: World, steps: seq<Step>)
    requires Inv(c, w) && Legal(c, w, steps)
    ensures Inv(c, Run(c, w, steps))
    decreases |steps|
  {
    if steps != [] {
      StepKeepsInv(c, w, steps[0]);
      RunKeepsInv(c, Next(c, w, steps[0]), steps[1..]);
    }
  }

  // ------------------------------------------------------------ main results

  /** After any interleaving: half-open, probing and one half-open call in flight are one
      and the same; not closed means the failure count stands at the threshold; and every
      call made was skipped, or has finished, or is in flight. */
  lemma {:induction false} AlwaysInv(c: Config, steps: seq<Step>)
    requires Legal(c, START, steps)
    ensures Inv(c, Run(c, START, steps))
  {
    assert Inv(c, START);
    RunKeepsInv(c, START, steps);
  }

  /** A closed breaker opens at a step exactly when that step ends a call with a failure
      and the last `Threshold` results that counted, with this one, are all failures. */
  lemma {:induction false} OpensIff(c: Config, steps: seq<Step>, step: Step)
    requires Legal(c, START, steps) && Enabled(Run(c, START, steps), step)
    requires Run(c, START, steps).s.mode == Closed
    ensures var w := Run(c, START, steps);
      var v := Next(c, w, step);
      v.s.mode != Closed
      <==> step.EndStep? && step.failed && v.applied == w.applied + [true]
           && Threshold(c) <= |v.applied|
           && forall i :: |v.applied| - Threshold(c) <= i < |v.applied| ==> v.applied[i]
  {
    AlwaysInv(c, steps);
    var w := Run(c, START, steps);
    var v := Next(c, w, step);
    StepKeepsInv(c, w, step);
    TrailingMeans(v.applied, Threshold(c));
    assert step.EndStep? ==> !Probes(w, step.id);
  }

  /** The result of a call begun while closed moves nothing once the breaker is open or half-open. */
  lemma {:induction false} StaleIgnored(c: Config, w: World, id: nat, failed: bool)
    requires id in w.inFlight && w.inFlight[id].ran == Closed && w.s.mode != Closed
    ensures Next(c, w, EndStep(id, failed)).s == w.s
    ensures Next(c, w, EndStep(id, failed)).applied == w.applied
  {
  }

  // ------------------------------------------------------------------ time

  /** The clock never runs backwards from one Begin to the next. */
  ghost predicate Monotone(c: Config, w: World, steps: seq<Step>)
    requires Legal(c, w, steps)
    decreases |steps|
  {
    steps == [] || ((steps[0].BeginStep? ==> w.clock <= steps[0].now) && Monotone(c, Next(c, w, steps[0]), steps[1..]))
  }

  /** The begin times of the calls that were let through. */
  ghost function Starts(c: Config, w: World, steps: seq<Step>): seq<int>
    requires Legal(c, w, steps)
    decreases |steps|
  {
    if steps == [] then []
    else
      (if steps[0].BeginStep? && Begin(c, w.s, steps[0].now).1.Some? then [steps[0].now] else [])
      + Starts(c, Next(c, w, steps[0]), steps[1..])
  }

  lemma {:induction false} Blocked(c: Config, w: World, steps: seq<Step>, until: int)
    requires Inv(c, w) && Legal(c, w, steps) && Monotone(c, w, steps)
    requires (w.s.mode == Open && w.s.openedAt + c.openDuration == until) || w.clock >= until
    ensures forall i :: 0 <= i < |Starts(c, w, steps)| ==> Starts(c, w, steps)[i] >= until
    decreases |steps|
  {
    hide Trailing, Threshold;
    if steps != [] {
      StepKeepsInv(c, w, steps[0]);
      if steps[0].EndStep? && w.s.mode == Open { assert !Probes(w, steps[0].id); }
      Blocked(c, Next(c, w, steps[0]), steps[1..], until);
    }
  }

  /** An open breaker lets no call start before openedAt + openDuration, whatever
      results arrive in the meantime. */
  lemma {:induction false} OpenBlocks(c: Config, before: seq<Step>, after: seq<Step>)
    requires Legal(c, START, before) && Run(c, START, before).s.mode == Open
    requires Legal(c, Run(c, START, before), after) && Monotone(c, Run(c, START, before), after)
    ensures var w := Run(c, START, before);
      forall i :: 0 <= i < |Starts(c, w, after)| ==> Starts(c, w, after)[i] >= w.s.openedAt + c.openDuration
  {
    AlwaysInv(c, before);
    var w := Run(c, START, before);
    Blocked(c, w, after, w.s.openedAt + c.openDuration);
  }

  /** A probe begun at `t` that fails is followed by no start before t + openDuration. */
  lemma {:induction false} FailedProbeBlocks(c: Config, before: seq<Step>, id: nat, after: seq<Step>)
    requires Legal(c, START, before) && Probes(Run(c, START, before), id)
    requires Legal(c, Next(c, Run(c, START, before), EndStep(id, true)), after)
    requires Monotone(c, Next(c, Run(c, START, before), EndStep(id, true)), after)
    ensures var w := Run(c, START, before);
      var v := Next(c, w, EndStep(id, true));
      forall i :: 0 <= i < |Starts(c, v, after)| ==> Starts(c, v, after)[i] >= w.inFlight[id].start + c.openDuration
  {
    AlwaysInv(c, before);
    var w := Run(c, START, before);
    StepKeepsInv(c, w, EndStep(id, true));
    var v := Next(c, w, EndStep(id, true));
    Blocked(c, v, after, w.inFlight[id].start + c.openDuration);
  }

  // ---------------------------------------------------- calls let through

  lemma {:induction false} LastStep(c: Config, w: World, steps: seq<Step>)
    requires steps != [] && Legal(c, w, steps)
    ensures var init, last := steps[..|steps| - 1], steps[|steps| - 1];
      Legal(c, w, init) && Enabled(Run(c, w, init), last) && Run(c, w, steps) == Next(c, Run(c, w, init), last)
    decreases |steps|
  {
    hide Next, Enabled;
    if |steps| > 1 {
      var init, rest := steps[..|steps| - 1], steps[1..];
      LastStep(c, Next(c, w, steps[0]), rest);
      assert init[1..] == rest[..|rest| - 1] && init[0] == steps[0];
    }
  }

  /** A call is let through exactly while the breaker is closed, or as the probe once it has
      been open for openDuration; every other call is skipped and counted. */
  lemma {:induction false} StartsIff(c: Config, steps: seq<Step>, id: nat, now: int)
    requires Legal(c, START, steps) && Enabled(Run(c, START, steps), BeginStep(id, now))
    ensures var w := Run(c, START, steps);
      var v := Next(c, w, BeginStep(id, now));
      && (id in v.inFlight <==> w.s.mode == Closed || (w.s.mode == Open && now >= w.s.openedAt + c.openDuration))
      && (w.s.mode == Closed ==> v.inFlight == w.inFlight[id := Call(Closed, now)] && v.s == w.s)
      && (id in v.inFlight && w.s.mode == Open ==>
            v.inFlight == w.inFlight[id := Call(HalfOpen, now)] && v.s.mode == HalfOpen && Probes(v, id))
      && (id !in v.inFlight ==> v.inFlight == w.inFlight && v.s == w.s.(skips := w.s.skips + 1))
  {
    AlwaysInv(c, steps);
  }

  /** The end of the probe decides: success closes the breaker with a clean slate, failure
      opens it as of the start of the probe. */
  lemma {:induction false} ProbeDecides(c: Config, steps: seq<Step>, id: nat, failed: bool)
    requires Legal(c, START, steps) && Probes(Run(c, START, steps), id)
    ensures var w := Run(c, START, steps);
      var v := Next(c, w, EndStep(id, failed));
      && w.s.mode == HalfOpen && !v.s.probing
      && (!failed ==> v.s.mode == Closed && v.s.failures == 0)
      && (failed ==> v.s.mode == Open && v.s.openedAt == w.inFlight[id].start)
  {
    AlwaysInv(c, steps);
  }

  /** From an open breaker whose time is up, one call that succeeds closes it. */
  lemma {:induction false} Recovers(c: Config, steps: seq<Step>, id: nat, now: int)
    requires Legal(c, START, steps) && Run(c, START, steps).s.mode == Open && id !in Run(c, START, steps).inFlight
    requires now >= Run(c, START, steps).s.openedAt + c.openDuration
    ensures var w := Run(c, START, steps);
      Legal(c, w, [BeginStep(id, now), EndStep(id, false)])
      && Run(c, w, [BeginStep(id, now), EndStep(id, false)]).s.mode == Closed
      && Run(c, w, [BeginStep(id, now), EndStep(id, false)]).s.failures == 0
  {
    var w := Run(c, START, steps);
    StartsIff(c, steps, id, now);
    var v := Next(c, w, BeginStep(id, now));
    var u := Next(c, v, EndStep(id, false));
    assert [BeginStep(id, now), EndStep(id, false)][1..] == [EndStep(id, false)];
    assert [EndStep(id, false)][1..] == [];
    assert Legal(c, u, []) && Run(c, u, []) == u;
    assert Legal(c, v, [EndStep(id, false)]) && Run(c, v, [EndStep(id, false)]) == u;
  }

  /** A call in flight started at the time of its Begin, the last step of this id. */
  lemma {:induction false} StartIs(c: Config, steps: seq<Step>, id: nat) returns (k: nat)
    requires Legal(c, START, steps) && id in Run(c, START, steps).inFlight
    ensures k < |steps| && steps[k] == BeginStep(id, Run(c, START, steps).inFlight[id].start)
    ensures forall i :: k < i < |steps| ==> steps[i].id != id
    decreases |steps|
  {
    hide Legal, Run;
    if steps == [] { assert Run(c, START, steps) == START by { Nothing(c); } }
    LastStep(c, START, steps);
    var init, last := steps[..|steps| - 1], steps[|steps| - 1];
    if last.id == id {
      k := |steps| - 1;
    } else {
      k := StartIs(c, init, id);
    }
  }

  lemma Nothing(c: Config)
    ensures Legal(c, START, []) && Run(c, START, []) == START
  {
  }

  /** In `w` the breaker is not open, and `v` has it opened as of the start of call `id`. */
  predicate Opens(w: World, id: nat, v: World) {
    id in w.inFlight && w.s.mode != Open && v.s.openedAt == w.inFlight[id].start
  }

  /** Step `k` ended a call with a failure and opened the breaker, which has been open since. */
  ghost predicate OpenedBy(c: Config, steps: seq<Step>, k: nat)
    requires Legal(c, START, steps)
  {
    && k < |steps| && steps[k].EndStep? && steps[k].failed
    && (forall i :: 0 <= i <= |steps| ==> Legal(c, START, steps[..i]))
    && Opens(Run(c, START, steps[..k]), steps[k].id, Run(c, START, steps))
    && (forall i :: k < i <= |steps| ==> Run(c, START, steps[..i]).s.mode == Open)
  }

  /** An open breaker was opened by the failure of a call, and openedAt is when that call started. */
  lemma {:induction false} OpenedAtIs(c: Config, steps: seq<Step>) returns (k: nat)
    requires Legal(c, START, steps) && Run(c, START, steps).s.mode == Open
    ensures OpenedBy(c, steps, k)
    decreases |steps|
  {
    hide Legal, Run;
    if steps == [] { assert Run(c, START, steps) == START by { Nothing(c); } }
    Prefixes(c, steps);
    LastStep(c, START, steps);
    var init, last := steps[..|steps| - 1], steps[|steps| - 1];
    var w := Run(c, START, init);
    assert steps[..|steps|] == steps;
    if w.s.mode == Open {
      k := OpenedAtIs(c, init);
      forall i | 0 <= i <= |init| ensures init[..i] == steps[..i] {}
      AlwaysInv(c, init);
      StillOpen(c, w, last);
    } else {
      k := |steps| - 1;
    }
  }

  lemma StillOpen(c: Config, w: World, step: Step)
    requires Inv(c, w) && Enabled(w, step) && w.s.mode == Open && Next(c, w, step).s.mode == Open
    ensures Next(c, w, step).s.openedAt == w.s.openedAt
  {
    if step.EndStep? { assert !Probes(w, step.id); }
  }

  lemma {:induction false} Prefixes(c: Config, steps: seq<Step>)
    requires Legal(c, START, steps)
    ensures forall i :: 0 <= i <= |steps| ==> Legal(c, START, steps[..i])
    decreases |steps|
  {
    assert steps[..|steps|] == steps;
    if steps != [] {
      LastStep(c, START, steps);
      var init := steps[..|steps| - 1];
      Prefixes(c, init);
      forall i | 0 <= i < |steps| ensures Legal(c, START, steps[..i]) { assert init[..i] == steps[..i]; }
    }
  }
}
