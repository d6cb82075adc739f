/** Publishes and attempts over whole runs of a seed: how often a target can be published,
    when it can be published again, and how many attempts there are. */
module RelayRuns {
  import opened Options
  import opened Seeds
  import opened RelayChain
  import Rec = Records
  import R = Relay
  import C = RetryChain

  // ------------------------------------------------------------ the bounds

  /** How many steps of the run cost `t` one more publish. */
  ghost function Cost(targets: set<int>, max: int, j: Joint, steps: seq<Step>, t: int): nat
    requires Legal(targets, max, j, steps)
    decreases |steps|
  {
    if steps == [] then 0
    else Cost(targets, max, Next(targets, max, j, steps[0]), steps[1..], t) + One(Costs(j, steps[0], t))
  }

  /** Nothing queues the seed from outside while the worker is not through with it. */
  ghost predicate Calm(targets: set<int>, max: int, j: Joint, steps: seq<Step>)
    requires Legal(targets, max, j, steps)
    decreases |steps|
  {
    steps == [] || (!Busy(j, steps[0]) && Calm(targets, max, Next(targets, max, j, steps[0]), steps[1..]))
  }

  lemma {:induction false} RunTotal(targets: set<int>, max: int, j: Joint, steps: seq<Step>, t: int)
    requires Shaped(targets, j) && Legal(targets, max, j, steps)
    ensures var v := Run(targets, max, j, steps);
      && Shaped(targets, v)
      && Total(v, t) <= Total(j, t) + Cost(targets, max, j, steps, t)
    decreases |steps|
  {
    hide Shaped, Next, Enabled, Total, SoloTotal, Costs, One;
    if steps != [] {
      StepShaped(targets, max, j, steps[0]);
      StepTotal(targets, max, j, steps[0], t);
      RunTotal(targets, max, Next(targets, max, j, steps[0]), steps[1..], t);
    }
  }

  lemma {:induction false} RunSolo(targets: set<int>, max: int, j: Joint, steps: seq<Step>, t: int)
    requires Shaped(targets, j) && Solo(j) && Legal(targets, max, j, steps) && Calm(targets, max, j, steps)
    ensures SoloTotal(Run(targets, max, j, steps), t) <= SoloTotal(j, t) + Cost(targets, max, j, steps, t)
    decreases |steps|
  {
    hide Shaped, Solo, Next, Enabled, Total, SoloTotal, Costs, One, Busy;
    if steps != [] {
      StepShaped(targets, max, j, steps[0]);
      StepSolo(targets, max, j, steps[0]);
      StepTotal(targets, max, j, steps[0], t);
      RunSolo(targets, max, Next(targets, max, j, steps[0]), steps[1..], t);
    }
  }

  /** Over any run, with failing writes, kills, stops, starts, aborts and resends at any time,
      a target is published successfully at most once; once more for each mark lost, each
      deletion of the records and each abort that overtakes a publish; and once more, but no
      more than once, if the seed is queued from outside while the worker is not through. */
  lemma {:induction false} OncePerCost(targets: set<int>, max: int, rows: map<int, Rec.Row>, steps: seq<Step>, t: int)
    requires Legal(targets, max, Fresh(rows), steps)
    ensures Count(Run(targets, max, Fresh(rows), steps).published, t)
      <= 1 + Cost(targets, max, Fresh(rows), steps, t) + One(!Calm(targets, max, Fresh(rows), steps))
  {
    hide Legal, Run, Cost, Calm, Next, Enabled;
    var j := Fresh(rows);
    if Calm(targets, max, j, steps) {
      RunSolo(targets, max, j, steps, t);
    } else {
      RunTotal(targets, max, j, steps, t);
    }
  }

  /** How many resends and aborts queue the seed while the worker is not through with it. */
  ghost function BusyQueued(targets: set<int>, max: int, j: Joint, steps: seq<Step>): nat
    requires Legal(targets, max, j, steps)
    decreases |steps|
  {
    if steps == [] then 0
    else BusyQueued(targets, max, Next(targets, max, j, steps[0]), steps[1..]) + One(Busy(j, steps[0]))
  }

  lemma {:induction false} CalmIff(targets: set<int>, max: int, j: Joint, steps: seq<Step>)
    requires Legal(targets, max, j, steps)
    ensures Calm(targets, max, j, steps) <==> BusyQueued(targets, max, j, steps) == 0
    decreases |steps|
  {
    hide Next, Enabled, Busy;
    if steps != [] { CalmIff(targets, max, Next(targets, max, j, steps[0]), steps[1..]); }
  }

  /** So at most once, and once more for each cost and each of those. */
  lemma {:induction false} OncePerCostAndResend(targets: set<int>, max: int, rows: map<int, Rec.Row>, steps: seq<Step>, t: int)
    requires Legal(targets, max, Fresh(rows), steps)
    ensures Count(Run(targets, max, Fresh(rows), steps).published, t)
      <= 1 + Cost(targets, max, Fresh(rows), steps, t) + BusyQueued(targets, max, Fresh(rows), steps)
  {
    OncePerCost(targets, max, rows, steps, t);
    CalmIff(targets, max, Fresh(rows), steps);
  }

  // ------------------------------------------------- a chain left to itself

  /** What the chain does by itself, with its writes succeeding; and kills, stops and starts. */
  predicate ByItself(step: Step) {
    match step
    case Report(_, wrote) => wrote
    case Leave(_, _, wrote) => wrote
    case Go(_, _, _, wrote) => wrote
    case End(_, wrote) => wrote
    case Bump(_, wrote) => wrote
    case Mark(_, wrote) => wrote
    case Start(wrote) => wrote
    case Resend => false
    case Wipe => false
    case AbortLook => false
    case AbortMark(_, _) => false
    case AbortQueue(_, _) => false
    case _ => true
  }

  /** The stored status tells how far the attempt is. */
  predicate Told(status: Status, at: Place) {
    match at
    case Before(_, reports) => 0 < reports <= 3 ==> status == REPORTS[reports - 1]
    case Publishing(_) => status == Downloaded
    case _ => true
  }

  predicate Telling(j: Joint) { Solo(j) && Told(j.status, j.worker.at) && Told(j.status, j.loop.at) }

  /** Nothing will move the seed but a resend. */
  predicate Dead(j: Joint) {
    !Ahead(j) && j.loop.at.Off? && j.queue == [] && j.status == Downloaded && !j.worker.at.Publishing?
  }

  lemma {:induction false} ToldNext(targets: set<int>, max: int, j: Joint, step: Step)
    requires Enabled(targets, j, step) && ByItself(step) && IsSubmit(step) && Told(j.status, Of(j, Mover(step)).at)
    ensures Told(Reported(targets, max, j, step), Placed(targets, max, j, step).at)
    ensures !step.Take? && !step.Due? ==> !Of(j, step.who).at.Off?
    ensures step.Take? || step.Due? ==> Reported(targets, max, j, step) == j.status
  {
    hide Crew, R.Classified;
  }

  lemma {:induction false} StepTelling(targets: set<int>, max: int, j: Joint, step: Step)
    requires Shaped(targets, j) && Telling(j) && Enabled(targets, j, step) && ByItself(step)
    ensures Telling(Next(targets, max, j, step)) && (Dead(j) ==> Dead(Next(targets, max, j, step)))
  {
    if IsSubmit(step) {
      hide *;
      SubmitTelling(targets, max, j, step);
    } else {
      StepSolo(targets, max, j, step);
      hide Submitted, CrewStep, DoneAt;
    }
  }

  lemma {:induction false} SubmitTelling(targets: set<int>, max: int, j: Joint, step: Step)
    requires Shaped(targets, j) && Telling(j) && Enabled(targets, j, step) && ByItself(step) && IsSubmit(step)
    ensures Telling(Next(targets, max, j, step)) && (Dead(j) ==> Dead(Next(targets, max, j, step)))
  {
    StepSolo(targets, max, j, step);
    ToldNext(targets, max, j, step);
    hide Went, Surrounded, Placed, Reported, Shaped;
  }

  function AloneTotal(j: Joint, t: int): nat {
    Count(j.published, t) + if Dead(j) then 0 else Credit(RowAt(j, t), PcNow(j, t))
  }

  lemma {:induction false} StepAlone(targets: set<int>, max: int, j: Joint, step: Step, t: int)
    requires Shaped(targets, j) && Telling(j) && Enabled(targets, j, step) && ByItself(step)
    ensures AloneTotal(Next(targets, max, j, step), t) <= AloneTotal(j, t)
  {
    StepTelling(targets, max, j, step);
    StepTotal(targets, max, j, step, t);
    if Dead(j) {
      DeadStep(targets, max, j, step);
    } else if Costs(j, step, t) {
      KillDeads(targets, max, j, step, t);
    }
  }

  lemma {:induction false} DeadStep(targets: set<int>, max: int, j: Joint, step: Step)
    requires Shaped(targets, j) && Dead(j) && Enabled(targets, j, step) && ByItself(step)
    ensures Next(targets, max, j, step).published == j.published
  {
    hide CrewStep, DoneAt, R.Classified;
  }

  lemma {:induction false} KillDeads(targets: set<int>, max: int, j: Joint, step: Step, t: int)
    requires Shaped(targets, j) && Telling(j) && Enabled(targets, j, step) && ByItself(step) && Costs(j, step, t)
    ensures Dead(Next(targets, max, j, step)) && Next(targets, max, j, step).published == j.published
  {
    hide CrewStep, DoneAt, Submitted;
  }

  lemma {:induction false} RunAlone(targets: set<int>, max: int, j: Joint, steps: seq<Step>, t: int)
    requires Shaped(targets, j) && Telling(j) && Legal(targets, max, j, steps)
    requires forall i :: 0 <= i < |steps| ==> ByItself(steps[i])
    ensures AloneTotal(Run(targets, max, j, steps), t) <= AloneTotal(j, t)
    decreases |steps|
  {
    hide Shaped, Telling, Next, Enabled, AloneTotal, ByItself;
    if steps != [] {
      StepShaped(targets, max, j, steps[0]);
      StepTelling(targets, max, j, steps[0]);
      StepAlone(targets, max, j, steps[0], t);
      RunAlone(targets, max, Next(targets, max, j, steps[0]), steps[1..], t);
    }
  }

  /** Left to itself and with its writes succeeding, a chain with all its retries publishes a
      target at most once, however often and wherever the process is killed, stopped and started. */
  lemma {:induction false} PublishedOnce(targets: set<int>, max: int, rows: map<int, Rec.Row>, steps: seq<Step>, t: int)
    requires Legal(targets, max, Fresh(rows), steps)
    requires forall i :: 0 <= i < |steps| ==> ByItself(steps[i])
    ensures Count(Run(targets, max, Fresh(rows), steps).published, t) <= 1
  {
    hide Legal, Run, Next, Enabled;
    RunAlone(targets, max, Fresh(rows), steps, t);
  }

  // ------------------------------------------------------- attempts at all

  /** How many Relay calls a queue entry of retry number `no` leads to at most. */
  function Rem(max: int, no: int): (n: nat)
    ensures n >= 1
  {
    if no >= max then 1 else max + 1 - no
  }

  function Sum(max: int, queue: seq<int>): nat {
    if queue == [] then 0 else Sum(max, queue[..|queue| - 1]) + Rem(max, queue[|queue| - 1])
  }

  function RemAt(max: int, at: Place): nat {
    match at
    case Off => 0
    case Before(no, _) => Rem(max, no) - 1
    case Publishing(no) => Rem(max, no) - 1
    case Bumping(no, _) => Rem(max, no) - 1
    case Marking(no, _) => Rem(max, no) - 1
    case Queueing(no) => Rem(max, no)
  }

  /** The Relay calls made and those to come without a new entry from outside. */
  function Attempts(max: int, j: Joint): nat {
    j.started + (if j.job then Rem(max, 0) else 0) + RemAt(max, j.worker.at) + RemAt(max, j.loop.at) + Sum(max, j.queue)
  }

  /** What an entry queued by a resend, an abort or a start allows. */
  function Grant(max: int, j: Joint, step: Step): nat {
    match step
    case Resend => Rem(max, 1)
    case AbortQueue(_, _) => Rem(max, j.count + 1)
    case Start(_) => Rem(max, C.Rebuilt(j.count))
    case _ => 0
  }

  lemma {:induction false} SumWithout(max: int, queue: seq<int>, i: nat)
    requires i < |queue|
    ensures Sum(max, queue[..i] + queue[i + 1..]) + Rem(max, queue[i]) == Sum(max, queue)
  {
    hide Rem;
    var n := |queue| - 1;
    var less := queue[..i] + queue[i + 1..];
    if i == n {
      assert less == queue[..n];
    } else {
      var init := queue[..n];
      assert less[..|less| - 1] == init[..i] + init[i + 1..] && less[|less| - 1] == queue[n];
      SumWithout(max, init, i);
    }
  }

  lemma {:induction false} SumSnoc(max: int, queue: seq<int>, no: int)
    ensures Sum(max, queue + [no]) == Sum(max, queue) + Rem(max, no)
  {
    assert (queue + [no])[..|queue|] == queue;
  }

  lemma {:induction false} SubmitAttempts(targets: set<int>, max: int, j: Joint, step: Step)
    requires max >= 1 && Shaped(targets, j) && Enabled(targets, j, step) && IsSubmit(step) && !step.Due? && !step.Queue?
    ensures Attempts(max, Next(targets, max, j, step)) <= Attempts(max, j)
  {
    hide Sum, DoneAt, Crew, R.Classified, Went, Surrounded;
    hide Reported, Placed, RemAt, Rem;
    PlaceMoves(targets, max, j, step);
  }

  /** Within submitJob nothing is added to what is to come. */
  lemma {:induction false} PlaceMoves(targets: set<int>, max: int, j: Joint, step: Step)
    requires Shaped(targets, j) && Enabled(targets, j, step) && IsSubmit(step) && !step.Due? && !step.Queue?
    ensures RemAt(max, Placed(targets, max, j, step).at) + One(step.Take?)
      <= RemAt(max, Of(j, Mover(step)).at) + if step.Take? then Rem(max, 0) else 0
  {
    if step.Mark? { RemNext(max, Of(j, step.who).at.no); }
    hide DoneAt, Crew, R.Classified, Rem;
  }

  lemma RemNext(max: int, no: int)
    ensures no + 1 <= max ==> Rem(max, no + 1) == Rem(max, no) - 1
  {
  }

  lemma {:induction false} QueueAttempts(targets: set<int>, max: int, j: Joint, step: Step)
    requires max >= 1 && Shaped(targets, j) && Enabled(targets, j, step) && (step.Due? || step.Queue?)
    ensures Attempts(max, Next(targets, max, j, step)) <= Attempts(max, j)
  {
    hide Sum, DoneAt, Crew, R.Classified, Went, Surrounded, Rem;
    match step
    case Due(i) => SumWithout(max, j.queue, i);
    case Queue(who) => SumSnoc(max, j.queue, Of(j, who).at.no);
  }

  lemma {:induction false} StepAttempts(targets: set<int>, max: int, j: Joint, step: Step)
    requires max >= 1 && Shaped(targets, j) && Enabled(targets, j, step)
    ensures Attempts(max, Next(targets, max, j, step)) <= Attempts(max, j) + Grant(max, j, step)
  {
    if step.Due? || step.Queue? {
      hide *;
      QueueAttempts(targets, max, j, step);
    } else if IsSubmit(step) {
      hide *;
      SubmitAttempts(targets, max, j, step);
    } else {
      hide Sum, CrewStep, DoneAt, Submitted, Rem;
      SumNone(max);
      match step
      case Resend => SumSnoc(max, j.queue, 1);
      case AbortQueue(_, _) => SumSnoc(max, j.queue, j.count + 1);
      case Start(_) => SumSnoc(max, j.queue, C.Rebuilt(j.count));
      case _ =>
    }
  }

  lemma SumNone(max: int)
    ensures Sum(max, []) == 0
  {
  }

  ghost function Granted(targets: set<int>, max: int, j: Joint, steps: seq<Step>): nat
    requires Legal(targets, max, j, steps)
    decreases |steps|
  {
    if steps == [] then 0
    else Granted(targets, max, Next(targets, max, j, steps[0]), steps[1..]) + Grant(max, j, steps[0])
  }

  lemma {:induction false} RunAttempts(targets: set<int>, max: int, j: Joint, steps: seq<Step>)
    requires max >= 1 && Shaped(targets, j) && Legal(targets, max, j, steps)
    ensures Attempts(max, Run(targets, max, j, steps)) <= Attempts(max, j) + Granted(targets, max, j, steps)
    decreases |steps|
  {
    hide Shaped, Next, Enabled, Attempts, Grant;
    if steps != [] {
      StepShaped(targets, max, j, steps[0]);
      StepAttempts(targets, max, j, steps[0]);
      RunAttempts(targets, max, Next(targets, max, j, steps[0]), steps[1..]);
    }
  }

  predicate Queues(step: Step) { step.Resend? || step.AbortQueue? || step.Start? }

  function Outside(steps: seq<Step>): nat {
    if steps == [] then 0 else Outside(steps[1..]) + One(Queues(steps[0]))
  }

  lemma {:induction false} GrantedAtMost(targets: set<int>, max: int, j: Joint, steps: seq<Step>)
    requires max >= 1 && Shaped(targets, j) && Legal(targets, max, j, steps)
    ensures Granted(targets, max, j, steps) <= max * Outside(steps)
    decreases |steps|
  {
    if steps != [] {
      StepShaped(targets, max, j, steps[0]);
      GrantedAtMost(targets, max, Next(targets, max, j, steps[0]), steps[1..]);
      assert Grant(max, j, steps[0]) <= max * One(Queues(steps[0])) by { hide Next, Enabled, Legal, Granted; }
      var n, m := Outside(steps[1..]), One(Queues(steps[0]));
      assert max * (n + m) == max * n + max * m;
    }
  }

  /** With any number of queue entries of one seed, from resends, aborts and starts, over kills
      and failing writes: at most RetryMax + 1 Relay calls, and at most RetryMax more for each
      entry queued from outside; exactly, what its retry number leaves. */
  lemma {:induction false} AttemptsBounded(targets: set<int>, retryMax: int, rows: map<int, Rec.Row>, steps: seq<Step>)
    requires Legal(targets, C.MaxRetries(retryMax), Fresh(rows), steps)
    ensures var max := C.MaxRetries(retryMax);
      var v := Run(targets, max, Fresh(rows), steps);
      && v.started <= max + 1 + Granted(targets, max, Fresh(rows), steps)
      && v.started <= max + 1 + max * Outside(steps)
  {
    hide Legal, Run, Next, Enabled, Granted, Outside;
    var max := C.MaxRetries(retryMax);
    SumNone(max);
    RunAttempts(targets, max, Fresh(rows), steps);
    GrantedAtMost(targets, max, Fresh(rows), steps);
  }

  // ---------------------------------------------- the same routing twice

  /** Where RetryChain has a goroutine that is at `at`; off stands for waiting or ended. */
  predicate SamePlace(at: Place, pc: C.Pc) {
    match at
    case Off => pc.Waiting? || pc.Telling? || pc.Ended?
    case Before(no, _) => pc == C.Relaying(no)
    case Publishing(no) => pc == C.Relaying(no)
    case Bumping(no, partial) => pc == C.Bumping(no, partial)
    case Marking(no, partial) => pc == C.Marking(no, partial)
    case Queueing(no) => pc == C.Queueing(no)
  }

  /** The step of RetryChain that a step within an attempt amounts to, if there is one. */
  function ChainStep(j: Joint, step: Step): Option<C.Step> {
    match step
    case Report(_, _) => Some(C.Report)
    case Leave(_, skip, _) => Some(C.Return(if skip then C.LeftOut else C.Failure))
    case Begin(_, _) => None
    case End(who, _) =>
      var result := R.Classified(Of(j, who).crew);
      Some(C.Return(if result.AllDone? then C.Relayed else if result.PartialFailure? then C.Partial else C.Failure))
    case _ => Some(C.Write)
  }

  /** `j` and `chain` are at one place, with the same stored columns. */
  predicate Abreast(j: Joint, who: Who, chain: C.Chain) {
    SamePlace(Of(j, who).at, chain.pc) && chain.status == j.status && chain.count == j.count
  }

  /** The step is one of the chain's, or none, and a queue entry is made exactly where the chain
      comes to wait for one. */
  predicate Routes(targets: set<int>, max: int, j: Joint, step: Step, chain: C.Chain)
    requires Enabled(targets, j, step) && IsSubmit(step) && !step.Take? && !step.Due?
  {
    var v, chained := Next(targets, max, j, step), ChainStep(j, step);
    && (chained.Some? ==> C.Enabled(chain, chained.value))
    && var next := if chained.Some? then C.Next(max, chain, chained.value) else chain;
      Abreast(v, step.who, next) && v.queue == if next.pc.Waiting? then j.queue + [next.pc.no] else j.queue
  }

  /** As long as its writes succeed, an attempt moves the stored columns and itself just as a
      chain of RetryChain does. */
  lemma {:induction false} SameRouting(targets: set<int>, max: int, j: Joint, step: Step, chain: C.Chain)
    requires Enabled(targets, j, step) && IsSubmit(step) && !step.Take? && !step.Due? && ByItself(step)
    requires Abreast(j, step.who, chain) && Told(j.status, Of(j, step.who).at)
    requires Of(j, step.who).at.Before? && Of(j, step.who).at.reports == 0 ==> j.status == Discovered || j.status == Retry
    ensures Routes(targets, max, j, step, chain)
  {
    if step.Report? || step.Leave? || step.Begin? {
      hide *;
      EarlyRouting(targets, max, j, step, chain);
    } else if step.End? {
      hide *;
      EndRouting(targets, max, j, step, chain);
    } else {
      assert step.Bump? || step.Mark? || step.Queue?;
      hide *;
      LateRouting(targets, max, j, step, chain);
    }
  }

  lemma {:induction false} EndRouting(targets: set<int>, max: int, j: Joint, step: Step, chain: C.Chain)
    requires Enabled(targets, j, step) && step.End? && ByItself(step)
    requires Abreast(j, step.who, chain) && Told(j.status, Of(j, step.who).at)
    ensures Routes(targets, max, j, step, chain)
  {
    hide R.Classified, DoneAt, Crew, Went, Surrounded;
  }

  lemma {:induction false} LateRouting(targets: set<int>, max: int, j: Joint, step: Step, chain: C.Chain)
    requires Enabled(targets, j, step) && (step.Bump? || step.Mark? || step.Queue?) && ByItself(step)
    requires Abreast(j, step.who, chain)
    ensures Routes(targets, max, j, step, chain)
  {
    hide R.Classified, DoneAt, Crew, Went, Surrounded;
  }

  lemma {:induction false} EarlyRouting(targets: set<int>, max: int, j: Joint, step: Step, chain: C.Chain)
    requires Enabled(targets, j, step) && (step.Report? || step.Leave? || step.Begin?) && ByItself(step)
    requires Abreast(j, step.who, chain) && Told(j.status, Of(j, step.who).at)
    requires Of(j, step.who).at.Before? && Of(j, step.who).at.reports == 0 ==> j.status == Discovered || j.status == Retry
    ensures Routes(targets, max, j, step, chain)
  {
    hide R.Classified, DoneAt, Crew, Went, Surrounded;
  }
}
