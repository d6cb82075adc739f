/** Starting and stopping the engine: a worker pool, four background loops, and the two
    phases of Stop, as steps of all goroutines in any order. Goroutines of earlier runs
    are kept in the list, so that nothing is forgotten at a restart. */
module Lifecycle {

  datatype Kind = Worker | Poll | Monitor | Retry | Flusher

  /** Picked: a job was received and the drain flag not yet looked at. Cleared: the flag was
      not set when it was looked at, and Relay is not yet called. */
  datatype Pc = Idle | Picked | Cleared | Relaying | Exited

  datatype Goroutine = Goroutine(kind: Kind, pc: Pc)

  /** Where the holder of the lifecycle lock is. Flagged: Stop set the drain flag.
      Draining: it closed the drain channel and waits for the workers. Forced: its timer
      fired and it cancelled. Drained: the workers are gone. Cancelled: it cancelled and
      waits for the flusher. Joining: it waits for every goroutine. */
  datatype Phase = Stopped | Starting | Running | Flagged | Draining | Forced | Drained | Cancelled | Joining

  /** `base` is the first goroutine of the current run; `timedOut` and `parentEnded` are
      about the current run. */
  datatype World = World(
    phase: Phase, gs: seq<Goroutine>, base: nat, jobs: nat,
    flag: bool, drainClosed: bool, cancelled: bool, timedOut: bool, parentEnded: bool)

  const START := World(Stopped, [], 0, 0, false, false, false, false, false)

  datatype Step =
    // the caller of Start and of Stop
    | StartBegin(parentEnded: bool)
    | Spawn
    | StartEnd
    | StopFlag
    | StopCloseDrain
    | StopTimeout
    | StopDrained
    | StopCancel
    | StopFlusher
    | StopReturn
    // the surroundings
    | ParentEnds
    // goroutine i
    | Enqueue(i: nat)
    | Pick(i: nat)
    | Look(i: nat)
    | BeginRelay(i: nat)
    | BeginRetryRelay(i: nat)
    | EndRelay(i: nat)
    | Exit(i: nat)

  /** The order in which Start launches the goroutines of a run with `workers` workers. */
  function Plan(workers: nat, n: int): Kind {
    if n < workers then Worker
    else if n == workers then Poll
    else if n == workers + 1 then Monitor
    else if n == workers + 2 then Retry
    else Flusher
  }

  predicate Has(w: World, i: nat, kind: Kind, pc: Pc) {
    i < |w.gs| && w.gs[i] == Goroutine(kind, pc)
  }

  ghost predicate AllExited(w: World, kind: Kind) {
    forall i :: 0 <= i < |w.gs| && w.gs[i].kind == kind ==> w.gs[i].pc == Exited
  }

  ghost predicate Enabled(workers: nat, w: World, s: Step) {
    match s
    case StartBegin(_) => w.phase == Stopped
    case Spawn => w.phase == Starting && |w.gs| - w.base < workers + 4
    case StartEnd => w.phase == Starting && |w.gs| - w.base == workers + 4
    case StopFlag => w.phase == Running
    case StopCloseDrain => w.phase == Flagged
    case StopTimeout => w.phase == Draining
    case StopDrained => (w.phase == Draining || w.phase == Forced) && AllExited(w, Worker)
    case StopCancel => w.phase == Drained
    case StopFlusher => w.phase == Cancelled && AllExited(w, Flusher)
    case StopReturn => w.phase == Joining
        && AllExited(w, Worker) && AllExited(w, Poll) && AllExited(w, Monitor) && AllExited(w, Retry)
    case ParentEnds => true
    case Enqueue(i) => Has(w, i, Poll, Idle) && w.jobs < workers
    case Pick(i) => Has(w, i, Worker, Idle) && w.jobs > 0
    case Look(i) => Has(w, i, Worker, Picked)
    case BeginRelay(i) => Has(w, i, Worker, Cleared)
    case BeginRetryRelay(i) => Has(w, i, Retry, Idle)
    case EndRelay(i) => Has(w, i, Worker, Relaying) || Has(w, i, Retry, Relaying)
    case Exit(i) =>
      if Has(w, i, Worker, Idle) then w.cancelled || w.drainClosed
      else i < |w.gs| && w.gs[i].pc == Idle && w.cancelled
  }

  function At(w: World, i: nat, pc: Pc): World
    requires i < |w.gs|
  {
    w.(gs := w.gs[i := w.gs[i].(pc := pc)])
  }

  ghost function Next(workers: nat, w: World, s: Step): World
    requires Enabled(workers, w, s)
  {
    match s
    case StartBegin(ended) => World(Starting, w.gs, |w.gs|, 0, false, false, ended, false, ended)
    case Spawn => w.(gs := w.gs + [Goroutine(Plan(workers, |w.gs| - w.base), Idle)])
    case StartEnd => w.(phase := Running)
    case StopFlag => w.(phase := Flagged, flag := true)
    case StopCloseDrain => w.(phase := Draining, drainClosed := true)
    case StopTimeout => w.(phase := Forced, timedOut := true, cancelled := true)
    case StopDrained => w.(phase := Drained)
    case StopCancel => w.(phase := Cancelled, cancelled := true)
    case StopFlusher => w.(phase := Joining)
    case StopReturn => w.(phase := Stopped, flag := false)
    case ParentEnds => if w.phase == Stopped then w else w.(parentEnded := true, cancelled := true)
    case Enqueue(_) => w.(jobs := w.jobs + 1)
    case Pick(i) => At(w, i, Picked).(jobs := w.jobs - 1)
    case Look(i) => At(w, i, if w.flag then Exited else Cleared)
    case BeginRelay(i) => At(w, i, Relaying)
    case BeginRetryRelay(i) => At(w, i, Relaying)
    case EndRelay(i) => At(w, i, Idle)
    case Exit(i) => At(w, i, Exited)
  }

  ghost predicate Legal(workers: nat, w: World, steps: seq<Step>)
    decreases |steps|
  {
    steps == [] || (Enabled(workers, w, steps[0]) && Legal(workers, Next(workers, w, steps[0]), steps[1..]))
  }

  ghost function Run(workers: nat, w: World, steps: seq<Step>): World
    requires Legal(workers, w, steps)
    decreases |steps|
  {
    if steps == [] then w else Run(workers, Next(workers, w, steps[0]), steps[1..])
  }

  // ------------------------------------------------------------ invariant

  predicate Stopping(p: Phase) { p in {Flagged, Draining, Forced, Drained, Cancelled, Joining} }

  ghost predicate Launched(workers: nat, w: World) {
    && w.base <= |w.gs| <= w.base + workers + 4
    && (forall i :: 0 <= i < w.base ==> w.gs[i].pc == Exited)
    && (forall i :: w.base <= i < |w.gs| ==> w.gs[i].kind == Plan(workers, i - w.base))
    && (forall i :: 0 <= i < |w.gs| && w.gs[i].pc in {Picked, Cleared, Relaying} ==> w.gs[i].kind in {Worker, Retry})
  }

  ghost predicate Phased(w: World) {
    && (w.flag <==> Stopping(w.phase))
    && (w.phase != Stopped ==> (w.drainClosed <==> w.phase in {Draining, Forced, Drained, Cancelled, Joining}))
    && (w.cancelled && w.phase != Stopped ==> w.timedOut || w.parentEnded || w.phase in {Cancelled, Joining})
    && (w.phase in {Forced, Cancelled, Joining} ==> w.cancelled)
    && (w.phase in {Drained, Cancelled, Joining, Stopped} ==> AllExited(w, Worker))
    && (w.phase in {Joining, Stopped} ==> AllExited(w, Flusher))
    && (w.phase == Stopped ==> AllExited(w, Poll) && AllExited(w, Monitor) && AllExited(w, Retry))
  }

  ghost predicate Inv(workers: nat, w: World) {
    Launched(workers, w) && Phased(w)
  }

  lemma MoveKeepsInv(workers: nat, w: World, i: nat, pc: Pc, v: World)
    requires Inv(workers, w) && i < |w.gs| && w.gs[i].pc != Exited
    requires v == At(w, i, pc).(jobs := v.jobs)
    requires pc in {Picked, Cleared, Relaying} ==> w.gs[i].kind in {Worker, Retry}
    ensures Inv(workers, v)
  {
    assert forall j :: 0 <= j < |w.gs| ==> v.gs[j].kind == w.gs[j].kind;
  }

  /** A step of the callers of Start and Stop, or of the surroundings. */
  predicate IsCallers(s: Step) {
    !(s.Pick? || s.Look? || s.BeginRelay? || s.BeginRetryRelay? || s.EndRelay? || s.Exit?)
  }

  lemma {:induction false} LaunchedKept(workers: nat, w: World, s: Step)
    requires Inv(workers, w) && Enabled(workers, w, s) && IsCallers(s)
    ensures Launched(workers, Next(workers, w, s))
  {
    var v := Next(workers, w, s);
    if s.StartBegin? {
      forall i | 0 <= i < |w.gs| ensures w.gs[i].pc == Exited { assert AllExited(w, w.gs[i].kind); }
    }
  }

  lemma {:induction false} PhasedKept(workers: nat, w: World, s: Step)
    requires Inv(workers, w) && Enabled(workers, w, s) && IsCallers(s)
    ensures Phased(Next(workers, w, s))
  {
    hide Launched;
  }

  lemma {:induction false} StepKeepsInv(workers: nat, w: World, s: Step)
    requires Inv(workers, w) && Enabled(workers, w, s)
    ensures Inv(workers, Next(workers, w, s))
  {
    hide Launched, Phased;
    if IsCallers(s) {
      LaunchedKept(workers, w, s);
      PhasedKept(workers, w, s);
    } else {
      GoroutineKeepsInv(workers, w, s);
    }
  }

  lemma {:induction false} GoroutineKeepsInv(workers: nat, w: World, s: Step)
    requires Inv(workers, w) && Enabled(workers, w, s) && !IsCallers(s)
    ensures Inv(workers, Next(workers, w, s))
  {
    hide Inv;
    var v := Next(workers, w, s);
    match s
    case Pick(i) => MoveKeepsInv(workers, w, i, Picked, v);
    case Look(i) => MoveKeepsInv(workers, w, i, if w.flag then Exited else Cleared, v);
    case BeginRelay(i) => MoveKeepsInv(workers, w, i, Relaying, v);
    case BeginRetryRelay(i) => MoveKeepsInv(workers, w, i, Relaying, v);
    case EndRelay(i) => MoveKeepsInv(workers, w, i, Idle, v);
    case Exit(i) => MoveKeepsInv(workers, w, i, Exited, v);
  }

  lemma {:induction false} RunKeepsInv(workers: nat, w: World, steps: seq<Step>)
    requires Inv(workers, w) && Legal(workers, w, steps)
    ensures Inv(workers, Run(workers, w, steps))
    decreases |steps|
  {
    hide Inv, Enabled, Next;
    if steps != [] {
      StepKeepsInv(workers, w, steps[0]);
      RunKeepsInv(workers, Next(workers, w, steps[0]), steps[1..]);
    }
  }

  lemma {:induction false} AlwaysInv(workers: nat, steps: seq<Step>)
    requires Legal(workers, START, steps)
    ensures Inv(workers, Run(workers, START, steps))
  {
    RunKeepsInv(workers, START, steps);
  }

  // ------------------------------------------------------------ main results

  /** A worker's Relay runs under a cancelled context only if the shutdown timer of this run
      fired or the parent context ended: a drain by itself cancels nothing in flight. */
  lemma {:induction false} CancelledOnlyIf(workers: nat, steps: seq<Step>, i: nat)
    requires Legal(workers, START, steps)
    requires Has(Run(workers, START, steps), i, Worker, Relaying) && Run(workers, START, steps).cancelled
    ensures Run(workers, START, steps).timedOut || Run(workers, START, steps).parentEnded
  {
    AlwaysInv(workers, steps);
  }

  // ------------------------------------------------- the retry loop's Relay

  lemma {:induction false} OneMore(workers: nat, w: World, step: Step, rest: seq<Step>)
    requires Enabled(workers, w, step) && Legal(workers, Next(workers, w, step), rest)
    ensures Legal(workers, w, [step] + rest) && Run(workers, w, [step] + rest) == Run(workers, Next(workers, w, step), rest)
  {
    hide Enabled, Next;
    assert ([step] + rest)[1..] == rest;
  }

  lemma {:induction false} NoMore(workers: nat, w: World)
    ensures Legal(workers, w, []) && Run(workers, w, []) == w
  {
  }

  lemma {:induction false} Concat(workers: nat, w: World, a: seq<Step>, b: seq<Step>)
    requires Legal(workers, w, a) && Legal(workers, Run(workers, w, a), b)
    ensures Legal(workers, w, a + b) && Run(workers, w, a + b) == Run(workers, Run(workers, w, a), b)
    decreases |a|
  {
    hide Enabled, Next;
    if a == [] {
      assert a + b == b;
    } else {
      assert (a + b)[1..] == a[1..] + b;
      Concat(workers, Next(workers, w, a[0]), a[1..], b);
    }
  }

  /** The first `n` goroutines of a run of a new engine, all idle. */
  function Crew(workers: nat, n: nat): seq<Goroutine> {
    seq(n, i => Goroutine(Plan(workers, i), Idle))
  }

  lemma {:induction false} LaunchAll(workers: nat, n: nat) returns (steps: seq<Step>)
    requires n <= workers + 4
    ensures Legal(workers, START, steps)
    ensures Run(workers, START, steps) == World(Starting, Crew(workers, n), 0, 0, false, false, false, false, false)
  {
    if n == 0 {
      steps := [StartBegin(false)];
      NoMore(workers, Next(workers, START, StartBegin(false)));
      OneMore(workers, START, StartBegin(false), []);
      assert [StartBegin(false)] + [] == steps;
      assert Crew(workers, 0) == [];
    } else {
      hide Legal, Run;
      var before := LaunchAll(workers, n - 1);
      var w := Run(workers, START, before);
      assert Next(workers, w, Spawn).gs == Crew(workers, n);
      NoMore(workers, Next(workers, w, Spawn));
      OneMore(workers, w, Spawn, []);
      Concat(workers, START, before, [Spawn] + []);
      steps := before + ([Spawn] + []);
    }
  }

  /** All workers of an engine that is draining exit one after the other. */
  lemma {:induction false} WorkersExit(workers: nat, w: World, n: nat) returns (steps: seq<Step>)
    requires n <= workers <= |w.gs| && w.drainClosed
    requires forall i :: 0 <= i < workers ==> w.gs[i] == Goroutine(Worker, if i < n then Exited else Idle)
    ensures Legal(workers, w, steps)
    ensures var v := Run(workers, w, steps);
      && v == w.(gs := v.gs) && |v.gs| == |w.gs|
      && forall i :: 0 <= i < |w.gs| ==> v.gs[i] == if i < workers then Goroutine(Worker, Exited) else w.gs[i]
    decreases workers - n
  {
    hide Legal, Run;
    if n == workers {
      steps := [];
      NoMore(workers, w);
    } else {
      assert Has(w, n, Worker, Idle);
      var v := Next(workers, w, Exit(n));
      var rest := WorkersExit(workers, v, n + 1);
      OneMore(workers, w, Exit(n), rest);
      steps := [Exit(n)] + rest;
    }
  }

  predicate Exposed(w: World, i: nat) {
    i < |w.gs| && w.gs[i].pc == Relaying && w.cancelled && !w.timedOut && !w.parentEnded
  }

  /** A Relay runs under a cancelled context, while neither the timer fired nor the parent ended,
      exactly if it is the retry loop's and Stop, its workers drained, has cancelled ... */
  lemma {:induction false} OnlyRetryExposed(workers: nat, steps: seq<Step>, i: nat)
    requires Legal(workers, START, steps)
    ensures var w := Run(workers, START, steps);
      Exposed(w, i) <==> Has(w, i, Retry, Relaying) && w.phase in {Cancelled, Joining} && !w.timedOut && !w.parentEnded
    ensures var w := Run(workers, START, steps); Exposed(w, i) ==> AllExited(w, Worker)
  {
    AlwaysInv(workers, steps);
  }

  lemma {:induction false} DrainBegun(workers: nat) returns (steps: seq<Step>)
    ensures Legal(workers, START, steps)
    ensures Run(workers, START, steps)
      == World(Draining, Crew(workers, workers + 4)[workers + 2 := Goroutine(Retry, Relaying)], 0, 0, true, true, false, false, false)
  {
    hide Legal, Run;
    var i := workers + 2;
    var launch := LaunchAll(workers, workers + 4);
    var w := Run(workers, START, launch);
    var w1 := Next(workers, w, StartEnd);
    assert Has(w1, i, Retry, Idle);
    var w2 := Next(workers, w1, BeginRetryRelay(i));
    var w3 := Next(workers, w2, StopFlag);
    NoMore(workers, Next(workers, w3, StopCloseDrain));
    OneMore(workers, w3, StopCloseDrain, []);
    OneMore(workers, w2, StopFlag, [StopCloseDrain] + []);
    OneMore(workers, w1, BeginRetryRelay(i), [StopFlag] + ([StopCloseDrain] + []));
    var rest := [BeginRetryRelay(i)] + ([StopFlag] + ([StopCloseDrain] + []));
    OneMore(workers, w, StartEnd, rest);
    Concat(workers, START, launch, [StartEnd] + rest);
    steps := launch + ([StartEnd] + rest);
  }

  /** ... and that happens, in an orderly Stop with any number of workers. */
  lemma {:induction false} RetryExposed(workers: nat) returns (steps: seq<Step>)
    ensures Legal(workers, START, steps) && Exposed(Run(workers, START, steps), workers + 2)
  {
    hide Legal, Run;
    var begun := DrainBegun(workers);
    var w := Run(workers, START, begun);
    var leave := WorkersExit(workers, w, 0);
    var v := Run(workers, w, leave);
    assert AllExited(v, Worker);
    var last := Next(workers, v, StopDrained);
    NoMore(workers, Next(workers, last, StopCancel));
    OneMore(workers, last, StopCancel, []);
    OneMore(workers, v, StopDrained, [StopCancel] + []);
    Concat(workers, w, leave, [StopDrained] + ([StopCancel] + []));
    Concat(workers, START, begun, leave + ([StopDrained] + ([StopCancel] + [])));
    steps := begun + (leave + ([StopDrained] + ([StopCancel] + [])));
  }

  // ----------------------------------------------------------------- counts

  /** How many of the first `n` goroutines are inside Relay. */
  ghost function Relays(gs: seq<Goroutine>, n: nat): nat
    requires n <= |gs|
  {
    if n == 0 then 0 else Relays(gs, n - 1) + if gs[n - 1].pc == Relaying then 1 else 0
  }

  lemma {:induction false} RelaysUpTo(workers: nat, w: World, n: nat)
    requires Launched(workers, w) && n <= |w.gs|
    ensures Relays(w.gs, n) <= if n <= w.base then 0
                               else if n <= w.base + workers then n - w.base
                               else if n <= w.base + workers + 2 then workers
                               else workers + 1
  {
    if n > 0 {
      RelaysUpTo(workers, w, n - 1);
      if n > w.base { assert w.gs[n - 1].kind == Plan(workers, n - 1 - w.base); }
    }
  }

  /** At no moment are more than Workers + 1 Relays in progress, over all runs together. */
  lemma {:induction false} AtMostWorkersPlusOne(workers: nat, steps: seq<Step>)
    requires Legal(workers, START, steps)
    ensures var w := Run(workers, START, steps); Relays(w.gs, |w.gs|) <= workers + 1
  {
    AlwaysInv(workers, steps);
    var w := Run(workers, START, steps);
    RelaysUpTo(workers, w, |w.gs|);
  }

  /** When Stop returns, and as long as the engine is stopped, no goroutine of any run is left. */
  lemma {:induction false} StoppedMeansGone(workers: nat, steps: seq<Step>, i: nat)
    requires Legal(workers, START, steps) && Run(workers, START, steps).phase == Stopped
    requires i < |Run(workers, START, steps).gs|
    ensures Run(workers, START, steps).gs[i].pc == Exited
  {
    AlwaysInv(workers, steps);
    var w := Run(workers, START, steps);
    var kind := w.gs[i].kind;
    assert AllExited(w, kind);
  }

  /** Past looking at the drain flag, with a Relay to call or in it. */
  predicate Committed(w: World, i: nat) { Has(w, i, Worker, Cleared) || Has(w, i, Worker, Relaying) }

  /** Once Stop has set the drain flag no worker goes past it any more: one that is still to
      begin a Relay had looked before the flag was set. */
  lemma {:induction false} NoNewWork(workers: nat, w: World, s: Step, i: nat)
    requires Inv(workers, w) && Enabled(workers, w, s) && Stopping(w.phase)
    requires Committed(Next(workers, w, s), i)
    ensures Committed(w, i)
  {
  }

  /** That can happen: a worker may begin its Relay after the flag is set. */
  lemma {:induction false} LateRelay(workers: nat, w: World, i: nat)
    requires w.phase == Running && Has(w, i, Worker, Cleared)
    ensures Enabled(workers, w, StopFlag)
    ensures var v := Next(workers, w, StopFlag);
      Stopping(v.phase) && Enabled(workers, v, BeginRelay(i)) && Has(Next(workers, v, BeginRelay(i)), i, Worker, Relaying)
  {
  }

  /** How many moves a goroutine is from its end, if it is a worker. */
  function Weight(g: Goroutine): nat {
    if g.kind != Worker then 0
    else match g.pc case Cleared => 4 case Relaying => 3 case Idle => 2 case Picked => 1 case Exited => 0
  }

  /** What is left of the workers' way out. */
  ghost function ToGo(gs: seq<Goroutine>): nat {
    if gs == [] then 0 else ToGo(gs[..|gs| - 1]) + Weight(gs[|gs| - 1])
  }

  lemma {:induction false} ToGoAt(gs: seq<Goroutine>, i: nat, pc: Pc)
    requires i < |gs|
    ensures ToGo(gs[i := gs[i].(pc := pc)]) == ToGo(gs) - Weight(gs[i]) + Weight(gs[i].(pc := pc))
  {
    hide Weight;
    var g, n := gs[i], |gs| - 1;
    var changed := gs[i := g.(pc := pc)];
    if i == n {
      assert changed[..n] == gs[..n];
    } else {
      assert changed[..n] == gs[..n][i := g.(pc := pc)];
      ToGoAt(gs[..n], i, pc);
    }
  }

  predicate MovesWorker(w: World, s: Step) {
    match s
    case Pick(_) => true
    case Look(_) => true
    case BeginRelay(_) => true
    case EndRelay(i) => Has(w, i, Worker, Relaying)
    case Exit(i) => Has(w, i, Worker, Idle)
    case _ => false
  }

  /** While Stop is under way every move of a worker brings the pool nearer to its end, and
      no other step sets it back: the drain is over after at most four moves per worker. */
  lemma {:induction false} DrainShrinks(workers: nat, w: World, s: Step)
    requires Inv(workers, w) && Enabled(workers, w, s) && Stopping(w.phase)
    ensures var v := Next(workers, w, s);
      if MovesWorker(w, s) then ToGo(v.gs) < ToGo(w.gs) else ToGo(v.gs) == ToGo(w.gs)
  {
    hide Launched, ToGo;
    match s
    case Pick(i) => ToGoAt(w.gs, i, Picked);
    case Look(i) => ToGoAt(w.gs, i, Exited);
    case BeginRelay(i) => ToGoAt(w.gs, i, Relaying);
    case BeginRetryRelay(i) => ToGoAt(w.gs, i, Relaying);
    case EndRelay(i) => ToGoAt(w.gs, i, Idle);
    case Exit(i) => ToGoAt(w.gs, i, Exited);
    case _ =>
  }

  /** Draining never gets stuck: either the workers are gone, or one of them can move. */
  lemma {:induction false} DrainMoves(workers: nat, w: World) returns (s: Step)
    requires Inv(workers, w) && w.phase in {Draining, Forced}
    ensures Enabled(workers, w, s) && (s == StopDrained || MovesWorker(w, s))
    ensures s == StopDrained <==> AllExited(w, Worker)
  {
    if AllExited(w, Worker) { return StopDrained; }
    var i :| 0 <= i < |w.gs| && w.gs[i].kind == Worker && w.gs[i].pc != Exited;
    match w.gs[i].pc
    case Idle => s := Exit(i);
    case Picked => s := Look(i);
    case Cleared => s := BeginRelay(i);
    case Relaying => s := EndRelay(i);
    case Exited =>
  }
}
