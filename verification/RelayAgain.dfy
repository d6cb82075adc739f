/** When a target is published again: the exact condition at rest, and runs that reach the
    bounds on the number of publishes. */
module RelayAgain {
  import opened Options
  import opened Seeds
  import opened RelayChain
  import opened RelayRuns
  import Rec = Records
  import R = Relay

  // ----------------------------------------------------- building up runs

  /** No deletion of records, and no abort marks one failed. */
  ghost predicate Gentle(steps: seq<Step>) {
    forall i :: 0 <= i < |steps| ==> !steps[i].Wipe? && !steps[i].AbortMark?
  }

  ghost predicate KillFree(steps: seq<Step>) { forall i :: 0 <= i < |steps| ==> !steps[i].Kill? }

  /** The costs for `t` and the queueings that come too early. */
  ghost predicate Counts(targets: set<int>, max: int, j: Joint, steps: seq<Step>, t: int, cost: nat, busy: nat) {
    && Legal(targets, max, j, steps)
    && Cost(targets, max, j, steps, t) == cost && BusyQueued(targets, max, j, steps) == busy
  }

  lemma {:induction false} NoMore(targets: set<int>, max: int, j: Joint, t: int)
    ensures Counts(targets, max, j, [], t, 0, 0) && Run(targets, max, j, []) == j
  {
  }

  lemma {:induction false} OneMore(targets: set<int>, max: int, j: Joint, step: Step, rest: seq<Step>, t: int, cost: nat, busy: nat)
    requires Enabled(targets, j, step) && Counts(targets, max, Next(targets, max, j, step), rest, t, cost, busy)
    ensures Counts(targets, max, j, [step] + rest, t, cost + One(Costs(j, step, t)), busy + One(Busy(j, step)))
    ensures Run(targets, max, j, [step] + rest) == Run(targets, max, Next(targets, max, j, step), rest)
  {
    hide Enabled, Next, Costs, Busy;
    assert ([step] + rest)[1..] == rest;
  }

  lemma {:induction false} Concat(targets: set<int>, max: int, j: Joint, a: seq<Step>, b: seq<Step>, t: int,
                                  cost: nat, busy: nat, more: nat, busier: nat)
    requires Counts(targets, max, j, a, t, cost, busy)
    requires Counts(targets, max, Run(targets, max, j, a), b, t, more, busier)
    ensures Counts(targets, max, j, a + b, t, cost + more, busy + busier)
    ensures Run(targets, max, j, a + b) == Run(targets, max, Run(targets, max, j, a), b)
    decreases |a|
  {
    hide Enabled, Next, Costs, Busy, One;
    if a == [] {
      assert a + b == b;
    } else {
      var v := Next(targets, max, j, a[0]);
      assert (a + b)[1..] == a[1..] + b;
      Concat(targets, max, v, a[1..], b, t, Cost(targets, max, v, a[1..], t), BusyQueued(targets, max, v, a[1..]), more, busier);
    }
  }

  /** A run without deletions, marks of an abort and kills. */
  ghost predicate Mild(targets: set<int>, max: int, j: Joint, steps: seq<Step>) {
    Legal(targets, max, j, steps) && Gentle(steps) && KillFree(steps)
  }

  lemma {:induction false} Then(targets: set<int>, max: int, j: Joint, step: Step, rest: seq<Step>)
    requires Enabled(targets, j, step) && !step.Wipe? && !step.AbortMark? && !step.Kill?
    requires Mild(targets, max, Next(targets, max, j, step), rest)
    ensures Mild(targets, max, j, [step] + rest)
    ensures Run(targets, max, j, [step] + rest) == Run(targets, max, Next(targets, max, j, step), rest)
  {
    hide Enabled, Next;
    assert ([step] + rest)[1..] == rest;
  }

  lemma {:induction false} AndThen(targets: set<int>, max: int, j: Joint, a: seq<Step>, b: seq<Step>)
    requires Mild(targets, max, j, a) && Mild(targets, max, Run(targets, max, j, a), b)
    ensures Mild(targets, max, j, a + b)
    ensures Run(targets, max, j, a + b) == Run(targets, max, Run(targets, max, j, a), b)
  {
    hide Legal, Run, Cost, BusyQueued;
    var v := Run(targets, max, j, a);
    Concat(targets, max, j, a, b, 0, Cost(targets, max, j, a, 0), BusyQueued(targets, max, j, a),
           Cost(targets, max, v, b, 0), BusyQueued(targets, max, v, b));
  }

  lemma {:induction false} Nothing(targets: set<int>, max: int, j: Joint)
    ensures Mild(targets, max, j, []) && Run(targets, max, j, []) == j
  {
  }

  // ------------------------------------------------- up to a publish of `t`

  const YES := R.Answers(true, true, None, R.PublishedOk, true, 0)

  /** Nothing but the attempt of `who`, the record of `t` and the status have changed. */
  predicate Aside(j: Joint, v: Joint, who: Who) {
    && Of(v, TheOther(who)) == Of(j, TheOther(who)) && v.queue == j.queue && v.job == j.job && v.up == j.up
    && v.aborting == j.aborting && v.published == j.published
  }

  /** The goroutine of `t` is about to call Publish. */
  predicate Ready(j: Joint, who: Who, t: int) {
    && Of(j, who).at.Publishing? && t in Of(j, who).crew && Of(j, who).crew[t] == R.Calling
    && t in j.rows && !DoneAt(j, t)
  }

  lemma {:induction false} GoOn(targets: set<int>, max: int, j: Joint, who: Who, t: int)
    requires Of(j, who).at.Publishing? && t in Of(j, who).crew && !DoneAt(j, t)
    requires var pc := Of(j, who).crew[t]; pc.Waiting? || pc.Reading? || (pc.Claiming? && t !in j.rows)
    ensures Enabled(targets, j, Go(who, t, YES, true))
    ensures var v := Next(targets, max, j, Go(who, t, YES, true));
      && Aside(j, v, who) && v.status == j.status && Of(v, who).at.Publishing? && t in Of(v, who).crew && !DoneAt(v, t)
      && R.Rank(Of(v, who).crew[t]) < R.Rank(Of(j, who).crew[t])
      && (Of(v, who).crew[t].Reading? || (Of(v, who).crew[t].Claiming? && t !in v.rows) || Ready(v, who, t))
  {
    hide Submitted, Surrounded;
  }

  lemma {:induction false} Crewed(targets: set<int>, max: int, j: Joint, who: Who, t: int) returns (steps: seq<Step>)
    requires Of(j, who).at.Publishing? && t in Of(j, who).crew && !DoneAt(j, t)
    requires var pc := Of(j, who).crew[t]; pc.Waiting? || pc.Reading? || (pc.Claiming? && t !in j.rows)
    ensures Counts(targets, max, j, steps, t, 0, 0) && Gentle(steps) && KillFree(steps)
    ensures Aside(j, Run(targets, max, j, steps), who) && Ready(Run(targets, max, j, steps), who, t)
    ensures Run(targets, max, j, steps).status == j.status
    decreases R.Rank(Of(j, who).crew[t])
  {
    hide Counts, Run, Next, Enabled, DoneAt;
    var go := Go(who, t, YES, true);
    GoOn(targets, max, j, who, t);
    var v := Next(targets, max, j, go);
    if Ready(v, who, t) {
      NoMore(targets, max, v, t);
      OneMore(targets, max, j, go, [], t, 0, 0);
      steps := [go] + [];
    } else {
      var rest := Crewed(targets, max, v, who, t);
      OneMore(targets, max, j, go, rest, t, 0, 0);
      steps := [go] + rest;
    }
  }

  lemma {:induction false} Reports(targets: set<int>, max: int, j: Joint, who: Who)
    requires Of(j, who).at.Before? && Of(j, who).at.reports < 3
    ensures Enabled(targets, j, Report(who, true))
    ensures var v := Next(targets, max, j, Report(who, true));
      Aside(j, v, who) && v.rows == j.rows && v.status == REPORTS[Of(j, who).at.reports]
      && Of(v, who).at == Of(j, who).at.(reports := Of(j, who).at.reports + 1)
  {
    hide Went, Surrounded;
  }

  lemma {:induction false} Begins(targets: set<int>, max: int, j: Joint, who: Who, t: int)
    requires Of(j, who).at.Before? && Of(j, who).at.reports == 3 && t in targets && !DoneAt(j, t)
    ensures Enabled(targets, j, Begin(who, true))
    ensures var v := Next(targets, max, j, Begin(who, true));
      && Aside(j, v, who) && v.rows == j.rows && v.status == j.status && Of(v, who).at.Publishing?
      && t in Of(v, who).crew && Of(v, who).crew[t] == R.Waiting
  {
    hide Went, Surrounded;
  }

  /** An attempt comes, step by step, to the Publish of a target that is not done. */
  lemma {:induction false} Arms(targets: set<int>, max: int, j: Joint, who: Who, t: int) returns (steps: seq<Step>)
    requires Of(j, who).at.Before? && Of(j, who).at.reports <= 3 && t in targets && !DoneAt(j, t)
    requires Of(j, who).at.reports == 3 ==> j.status == Downloaded
    ensures Counts(targets, max, j, steps, t, 0, 0) && Gentle(steps) && KillFree(steps)
    ensures Aside(j, Run(targets, max, j, steps), who) && Ready(Run(targets, max, j, steps), who, t)
    ensures Run(targets, max, j, steps).status == Downloaded
    decreases 3 - Of(j, who).at.reports
  {
    hide Counts, Run, Next, Enabled, Ready;
    var step := if Of(j, who).at.reports < 3 then Report(who, true) else Begin(who, true);
    var rest;
    if step.Report? {
      Reports(targets, max, j, who);
      rest := Arms(targets, max, Next(targets, max, j, step), who, t);
    } else {
      Begins(targets, max, j, who, t);
      rest := Crewed(targets, max, Next(targets, max, j, step), who, t);
    }
    OneMore(targets, max, j, step, rest, t, 0, 0);
    steps := [step] + rest;
  }

  lemma {:induction false} Fires(targets: set<int>, max: int, j: Joint, who: Who, t: int)
    requires Ready(j, who, t)
    ensures Enabled(targets, j, Go(who, t, YES, true)) && !Costs(j, Go(who, t, YES, true), t)
    ensures var v := Next(targets, max, j, Go(who, t, YES, true));
      && v.published == j.published + [t] && v.rows == j.rows && PcOf(Of(v, who), t) == R.Noting(true)
      && Of(v, who).at.Publishing? && Of(v, who).crew.Keys == Of(j, who).crew.Keys
      && Of(v, TheOther(who)) == Of(j, TheOther(who)) && v.up == j.up && v.job == j.job && v.queue == j.queue && v.aborting == j.aborting
      && v.status == j.status
  {
    hide Submitted, Surrounded;
  }

  // -------------------------------------------------------- a busy resend

  /** A resend accepted while the worker is at the seed's first attempt: without a kill, a
      deletion, an abort or a failing write, every target can be published twice. */
  lemma {:induction false} BusyResendPublishesTwice(targets: set<int>, max: int, t: int) returns (steps: seq<Step>)
    requires t in targets
    ensures Counts(targets, max, Fresh(map[]), steps, t, 0, 1)
    ensures Count(Run(targets, max, Fresh(map[]), steps).published, t) == 2
  {
    hide Legal, Cost, BusyQueued, Run, Next, Enabled, Ready, Costs, Busy;
    var start := Fresh(map[]);
    var taken := Took(targets, max, start);
    var first := Arms(targets, max, taken, Worker, t);
    var j := Run(targets, max, taken, first);
    var resent, due := Requeued(targets, max, j);
    assert !DoneAt(due, t) by { ReadyIs(j, Worker, t); }
    var second := Arms(targets, max, due, Loop, t);
    var k := Run(targets, max, due, second);
    ReadyIs(k, Loop, t);
    StillReady(j, k, t);
    var go, again := Go(Loop, t, YES, true), Go(Worker, t, YES, true);
    Fires(targets, max, k, Loop, t);
    var l := Next(targets, max, k, go);
    StillReady(k, l, t);
    Fires(targets, max, l, Worker, t);
    TooEarly(j, t);
    Harmless(l, again, t);
    Harmless(k, go, t);
    Harmless(resent, Due(0), t);
    Harmless(start, Take, t);
    NoMore(targets, max, Next(targets, max, l, again), t);
    OneMore(targets, max, l, again, [], t, 0, 0);
    OneMore(targets, max, k, go, [again] + [], t, 0, 0);
    Concat(targets, max, due, second, [go] + ([again] + []), t, 0, 0, 0, 0);
    var tail := second + ([go] + ([again] + []));
    OneMore(targets, max, resent, Due(0), tail, t, 0, 0);
    OneMore(targets, max, j, Resend, [Due(0)] + tail, t, 0, 0);
    Concat(targets, max, taken, first, [Resend] + ([Due(0)] + tail), t, 0, 0, 0, 1);
    OneMore(targets, max, start, Take, first + ([Resend] + ([Due(0)] + tail)), t, 0, 1);
    steps := [Take] + (first + ([Resend] + ([Due(0)] + tail)));
    assert Run(targets, max, start, steps).published == [] + [t] + [t];
  }

  lemma {:induction false} Took(targets: set<int>, max: int, j: Joint) returns (v: Joint)
    requires j.up && j.job && j.worker == OFF
    ensures Enabled(targets, j, Take) && v == Next(targets, max, j, Take)
    ensures v == j.(job := false, worker := Runner(Before(0, 0), map[]), started := j.started + 1)
  {
    v := Next(targets, max, j, Take);
  }

  lemma {:induction false} Requeued(targets: set<int>, max: int, j: Joint) returns (resent: Joint, due: Joint)
    requires j.up && j.loop.at.Off?
    ensures Enabled(targets, j, Resend) && resent == Next(targets, max, j, Resend)
    ensures Enabled(targets, resent, Due(|j.queue|)) && due == Next(targets, max, resent, Due(|j.queue|))
    ensures due.rows == j.rows && due.worker == j.worker && due.loop == Runner(Before(1, 0), map[]) && due.published == j.published
    ensures due.up && due.job == j.job && due.aborting == j.aborting && due.queue == j.queue
  {
    resent := Next(targets, max, j, Resend);
    due := Next(targets, max, resent, Due(|j.queue|));
    assert resent.queue[..|j.queue|] + resent.queue[|j.queue| + 1..] == j.queue;
  }

  lemma ReadyIs(j: Joint, who: Who, t: int)
    requires Ready(j, who, t)
    ensures t in j.rows && !DoneAt(j, t) && !Of(j, who).at.Off?
  {
  }

  lemma TooEarly(j: Joint, t: int)
    requires Ready(j, Worker, t)
    ensures Busy(j, Resend) && !Costs(j, Resend, t)
  {
  }

  lemma Harmless(j: Joint, step: Step, t: int)
    requires step.Take? || step.Due? || (step.Go? && step.wrote)
    ensures !Busy(j, step) && !Costs(j, step, t)
  {
  }

  lemma StillReady(j: Joint, k: Joint, t: int)
    requires Ready(j, Worker, t) && k.worker == j.worker && t in k.rows && !DoneAt(k, t)
    ensures Ready(k, Worker, t)
  {
  }

  // ------------------------------------------------------------- at rest

  /** Nothing of the seed is under way but entries that wait in the queue. */
  predicate AtRest(j: Joint) { !Ahead(j) && j.loop.at.Off? && j.aborting.None? }

  /** The retry loop comes to the publish of `t`. */
  lemma {:induction false} LoopPublishes(targets: set<int>, max: int, j: Joint, t: int) returns (steps: seq<Step>)
    requires AtRest(j) && j.up && t in targets && !DoneAt(j, t)
    ensures Mild(targets, max, j, steps)
    ensures var v := Run(targets, max, j, steps);
      && v.published == j.published + [t] && !DoneAt(v, t) && PcOf(v.loop, t) == R.Noting(true)
      && v.loop.at.Publishing? && v.worker == j.worker && v.job == j.job && v.up == j.up && v.aborting == j.aborting
  {
    hide Legal, Run, Next, Enabled, Ready, Cost, BusyQueued, Costs;
    var resent, due := Requeued(targets, max, j);
    assert DoneAt(due, t) == DoneAt(j, t);
    var arm := Arms(targets, max, due, Loop, t);
    var k := Run(targets, max, due, arm);
    ReadyIs(k, Loop, t);
    var go := Go(Loop, t, YES, true);
    Fires(targets, max, k, Loop, t);
    Nothing(targets, max, Next(targets, max, k, go));
    Then(targets, max, k, go, []);
    AndThen(targets, max, due, arm, [go] + []);
    Then(targets, max, resent, Due(|j.queue|), arm + ([go] + []));
    Then(targets, max, j, Resend, [Due(|j.queue|)] + (arm + ([go] + [])));
    steps := [Resend] + ([Due(|j.queue|)] + (arm + ([go] + [])));
  }

  /** Some gentle run publishes `t` once more. */
  ghost predicate CanPublish(targets: set<int>, max: int, j: Joint, t: int) {
    exists steps :: Legal(targets, max, j, steps) && Gentle(steps)
      && Count(Run(targets, max, j, steps).published, t) > Count(j.published, t)
  }

  lemma {:induction false} PublishesAgain(targets: set<int>, max: int, j: Joint, t: int)
    requires AtRest(j) && t in targets && !DoneAt(j, t)
    ensures CanPublish(targets, max, j, t)
  {
    hide Legal, Run, Gentle, KillFree;
    if j.up {
      var steps := LoopPublishes(targets, max, j, t);
    } else {
      var v := Next(targets, max, j, Start(false));
      assert DoneAt(v, t) == DoneAt(j, t);
      var rest := LoopPublishes(targets, max, v, t);
      Then(targets, max, j, Start(false), rest);
    }
  }

  /** A done record that no goroutine is past looking at. */
  predicate Closed(j: Joint, t: int) {
    var pc := PcOf(j.loop, t);
    DoneAt(j, t) && !Ahead(j) && (pc.Waiting? || pc.Reading? || pc.Finished?)
  }

  lemma {:induction false} StepClosed(targets: set<int>, max: int, j: Joint, step: Step, t: int)
    requires Shaped(targets, j) && Closed(j, t) && Enabled(targets, j, step) && !step.Wipe? && !step.AbortMark?
    ensures Closed(Next(targets, max, j, step), t) && Count(Next(targets, max, j, step).published, t) == Count(j.published, t)
  {
    if step.Go? && step.target == t {
      GoStep(targets, max, j, step.who, t, step.a, step.wrote);
      hide Submitted, Surrounded;
    } else {
      OtherRows(targets, max, j, step, t);
      PcStays(targets, max, j, step, t);
      hide Next, Count, R.RowDone;
    }
  }

  lemma {:induction false} PcStays(targets: set<int>, max: int, j: Joint, step: Step, t: int)
    requires Shaped(targets, j) && !Ahead(j) && Enabled(targets, j, step) && (step.Go? ==> step.target != t)
    ensures var v := Next(targets, max, j, step);
      !Ahead(v) && (PcOf(v.loop, t) == PcOf(j.loop, t) || PcOf(v.loop, t).Waiting? || PcOf(v.loop, t).Finished?)
  {
    if IsSubmit(step) { hide R.Classified, Reported, Went, Surrounded; } else { hide Submitted, CrewStep; }
  }

  lemma {:induction false} RunClosed(targets: set<int>, max: int, j: Joint, steps: seq<Step>, t: int)
    requires Shaped(targets, j) && Closed(j, t) && Legal(targets, max, j, steps) && Gentle(steps)
    ensures Count(Run(targets, max, j, steps).published, t) == Count(j.published, t)
    decreases |steps|
  {
    hide Shaped, Closed, Next, Enabled, Count;
    if steps != [] {
      StepShaped(targets, max, j, steps[0]);
      StepClosed(targets, max, j, steps[0], t);
      RunClosed(targets, max, Next(targets, max, j, steps[0]), steps[1..], t);
    }
  }

  lemma {:induction false} RunOutside(targets: set<int>, max: int, j: Joint, steps: seq<Step>, t: int)
    requires Shaped(targets, j) && t !in targets && Legal(targets, max, j, steps)
    ensures Count(Run(targets, max, j, steps).published, t) == Count(j.published, t)
    decreases |steps|
  {
    hide Next, Enabled, Count;
    if steps != [] {
      StepShaped(targets, max, j, steps[0]);
      StepOutside(targets, max, j, steps[0], t);
      RunOutside(targets, max, Next(targets, max, j, steps[0]), steps[1..], t);
    }
  }

  lemma {:induction false} StepOutside(targets: set<int>, max: int, j: Joint, step: Step, t: int)
    requires Shaped(targets, j) && t !in targets && Enabled(targets, j, step)
    ensures Count(Next(targets, max, j, step).published, t) == Count(j.published, t)
  {
    hide CrewStep, R.Classified, Placed, Reported;
  }

  /** At rest a target can be published again, by a resend if not before, exactly when it is a
      target and its record does not say it is done. */
  lemma {:induction false} AgainIff(targets: set<int>, max: int, j: Joint, t: int)
    requires Shaped(targets, j) && AtRest(j)
    ensures CanPublish(targets, max, j, t) <==> t in targets && !DoneAt(j, t)
  {
    if t in targets && !DoneAt(j, t) {
      PublishesAgain(targets, max, j, t);
    } else {
      forall steps | Legal(targets, max, j, steps) && Gentle(steps)
        ensures Count(Run(targets, max, j, steps).published, t) == Count(j.published, t)
      {
        if t !in targets { RunOutside(targets, max, j, steps, t); } else { RunClosed(targets, max, j, steps, t); }
      }
    }
  }

  // --------------------------------------------------------- lost marks

  /** Published once, at rest, and its record does not say so. */
  ghost predicate MarkLost(targets: set<int>, j: Joint, t: int) {
    Shaped(targets, j) && AtRest(j) && Count(j.published, t) == 1 && !DoneAt(j, t) && j.status == Downloaded && j.queue == []
  }

  lemma {:induction false} FirstPublish(targets: set<int>, max: int, t: int) returns (steps: seq<Step>, v: Joint)
    requires t in targets
    ensures Counts(targets, max, Fresh(map[]), steps, t, 0, 0) && v == Run(targets, max, Fresh(map[]), steps)
    ensures v.published == [t] && !DoneAt(v, t) && PcOf(v.worker, t) == R.Noting(true) && v.worker.at.Publishing?
    ensures v.loop == OFF && !v.job && v.queue == [] && v.aborting.None? && v.up && Shaped(targets, v)
    ensures v.status == Downloaded
  {
    hide Legal, Cost, BusyQueued, Run, Next, Enabled, Ready, Shaped;
    var start := Fresh(map[]);
    var taken := Took(targets, max, start);
    var arm := Arms(targets, max, taken, Worker, t);
    var k := Run(targets, max, taken, arm);
    var go := Go(Worker, t, YES, true);
    ReadyIs(k, Worker, t);
    Fires(targets, max, k, Worker, t);
    v := Next(targets, max, k, go);
    NoMore(targets, max, v, t);
    OneMore(targets, max, k, go, [], t, 0, 0);
    Concat(targets, max, taken, arm, [go] + [], t, 0, 0, 0, 0);
    OneMore(targets, max, start, Take, arm + ([go] + []), t, 0, 0);
    steps := [Take] + (arm + ([go] + []));
    CountsShaped(targets, max, steps, t);
  }

  lemma {:induction false} CountsShaped(targets: set<int>, max: int, steps: seq<Step>, t: int)
    requires exists cost, busy :: Counts(targets, max, Fresh(map[]), steps, t, cost, busy)
    ensures Shaped(targets, Run(targets, max, Fresh(map[]), steps))
  {
    RunTotal(targets, max, Fresh(map[]), steps, t);
  }

  /** A kill between a publish and its mark leaves the seed downloaded, and nothing resumes it. */
  lemma {:induction false} KilledMark(targets: set<int>, max: int, t: int) returns (steps: seq<Step>)
    requires t in targets
    ensures Counts(targets, max, Fresh(map[]), steps, t, 1, 0) && MarkLost(targets, Run(targets, max, Fresh(map[]), steps), t)
  {
    hide Legal, Cost, BusyQueued, Run, Next, Enabled, Shaped;
    var first, v := FirstPublish(targets, max, t);
    Killed(targets, max, v, t);
    NoMore(targets, max, Next(targets, max, v, Kill), t);
    OneMore(targets, max, v, Kill, [], t, 0, 0);
    Concat(targets, max, Fresh(map[]), first, [Kill] + [], t, 0, 0, 1, 0);
    steps := first + ([Kill] + []);
  }

  lemma {:induction false} Killed(targets: set<int>, max: int, v: Joint, t: int)
    requires v.published == [t] && !DoneAt(v, t) && PcOf(v.worker, t) == R.Noting(true)
    requires !v.job && v.up && Shaped(targets, v) && v.status == Downloaded
    ensures Enabled(targets, v, Kill) && Costs(v, Kill, t) && MarkLost(targets, Next(targets, max, v, Kill), t)
  {
    StepShaped(targets, max, v, Kill);
    assert DoneAt(Next(targets, max, v, Kill), t) == DoneAt(v, t);
  }

  // ------------------------------------------- a mark lost to an orderly Stop

  /** What the retry loop's attempt makes of target `u`, and nothing else, has changed. */
  ghost predicate Only(j: Joint, v: Joint, u: int) {
    && Aside(j, v, Loop) && v.loop.at == j.loop.at && v.loop.crew.Keys == j.loop.crew.Keys
    && (forall t :: t != u ==> RowAt(v, t) == RowAt(j, t) && PcOf(v.loop, t) == PcOf(j.loop, t))
  }

  const NO := R.Answers(false, false, None, R.OtherError, false, 0)

  lemma {:induction false} Fails(targets: set<int>, max: int, j: Joint, u: int)
    requires j.loop.at.Publishing? && u in j.loop.crew && !j.loop.crew[u].Finished?
    ensures Enabled(targets, j, Go(Loop, u, NO, false))
    ensures var v := Next(targets, max, j, Go(Loop, u, NO, false));
      && Only(j, v, u) && R.Rank(PcOf(v.loop, u)) < R.Rank(PcOf(j.loop, u))
      && (PcOf(j.loop, u) == R.Noting(true) ==> PcOf(v.loop, u) == R.Finished(true) && RowAt(v, u) == RowAt(j, u))
  {
    hide Submitted, Surrounded;
  }

  /** With every call failing a goroutine comes to its end. */
  lemma {:induction false} Fail(targets: set<int>, max: int, j: Joint, u: int) returns (steps: seq<Step>)
    requires j.loop.at.Publishing? && u in j.loop.crew
    ensures Mild(targets, max, j, steps)
    ensures Only(j, Run(targets, max, j, steps), u) && PcOf(Run(targets, max, j, steps).loop, u).Finished?
    decreases R.Rank(PcOf(j.loop, u))
  {
    hide Legal, Run, Next, Enabled, RowAt;
    if j.loop.crew[u].Finished? {
      steps := [];
      Nothing(targets, max, j);
    } else {
      var go := Go(Loop, u, NO, false);
      Fails(targets, max, j, u);
      var rest := Fail(targets, max, Next(targets, max, j, go), u);
      Then(targets, max, j, go, rest);
      steps := [go] + rest;
    }
  }

  /** So do those of `left`, while that of `t` and its record stay. */
  lemma {:induction false} FailRest(targets: set<int>, max: int, j: Joint, t: int, left: set<int>) returns (steps: seq<Step>)
    requires j.loop.at.Publishing? && left <= j.loop.crew.Keys && t !in left
    requires forall u :: u in j.loop.crew && u !in left ==> PcOf(j.loop, u).Finished?
    ensures Mild(targets, max, j, steps)
    ensures var v := Run(targets, max, j, steps);
      && Aside(j, v, Loop) && v.loop.at == j.loop.at && RowAt(v, t) == RowAt(j, t)
      && forall u :: u in v.loop.crew ==> PcOf(v.loop, u).Finished?
    decreases left
  {
    hide Legal, Run, Next, Enabled, RowAt, PcOf;
    if u :| u in left {
      var one := Fail(targets, max, j, u);
      var v := Run(targets, max, j, one);
      var rest := FailRest(targets, max, v, t, left - {u});
      AndThen(targets, max, j, one, rest);
      steps := one + rest;
    } else {
      steps := [];
      Nothing(targets, max, j);
    }
  }

  function Stage(at: Place): nat {
    match at case Publishing(_) => 4 case Bumping(_, _) => 3 case Marking(_, _) => 2 case Queueing(_) => 1 case _ => 0
  }

  /** No write of the attempt's end succeeds. */
  function Leaving(at: Place): Step
    requires 0 < Stage(at)
  {
    match at
    case Publishing(_) => End(Loop, false)
    case Bumping(_, _) => Bump(Loop, false)
    case Marking(_, _) => Mark(Loop, false)
    case Queueing(_) => Queue(Loop)
  }

  /** Records, publishes, worker and process are as they were. */
  predicate Settled(j: Joint, v: Joint) {
    && v.rows == j.rows && v.published == j.published && v.worker == j.worker && v.job == j.job
    && v.up == j.up && v.aborting == j.aborting
  }

  lemma {:induction false} LeavesStep(targets: set<int>, max: int, j: Joint)
    requires Stage(j.loop.at) > 0
    requires j.loop.at.Publishing? ==> forall u :: u in j.loop.crew ==> PcOf(j.loop, u).Finished?
    ensures Enabled(targets, j, Leaving(j.loop.at))
    ensures var v := Next(targets, max, j, Leaving(j.loop.at));
      Settled(j, v) && Stage(v.loop.at) < Stage(j.loop.at) && (v.loop.at.Off? || Stage(v.loop.at) > 0) && !v.loop.at.Publishing?
  {
    hide R.Classified, Went, Surrounded, Reported;
  }

  lemma {:induction false} Leaves(targets: set<int>, max: int, j: Joint) returns (steps: seq<Step>)
    requires j.loop.at.Off? || Stage(j.loop.at) > 0
    requires j.loop.at.Publishing? ==> forall u :: u in j.loop.crew ==> PcOf(j.loop, u).Finished?
    ensures Mild(targets, max, j, steps)
    ensures Settled(j, Run(targets, max, j, steps)) && Run(targets, max, j, steps).loop.at.Off?
    decreases Stage(j.loop.at)
  {
    hide Legal, Run, Next, Enabled, PcOf;
    if j.loop.at.Off? {
      steps := [];
      Nothing(targets, max, j);
    } else {
      var step := Leaving(j.loop.at);
      LeavesStep(targets, max, j);
      var rest := Leaves(targets, max, Next(targets, max, j, step));
      Then(targets, max, j, step, rest);
      steps := [step] + rest;
    }
  }

  /** From there every call fails, the mark of `t` among them, until the attempt has ended. */
  lemma {:induction false} Unmarked(targets: set<int>, max: int, j: Joint, t: int) returns (steps: seq<Step>)
    requires j.loop.at.Publishing? && PcOf(j.loop, t) == R.Noting(true)
    ensures Mild(targets, max, j, steps)
    ensures var v := Run(targets, max, j, steps);
      && v.published == j.published && RowAt(v, t) == RowAt(j, t) && v.worker == j.worker && v.job == j.job
      && v.up == j.up && v.aborting == j.aborting && v.loop.at.Off?
  {
    hide Legal, Run, Next, Enabled;
    var go := Go(Loop, t, NO, false);
    Fails(targets, max, j, t);
    var k := Next(targets, max, j, go);
    var rest := FailRest(targets, max, k, t, k.loop.crew.Keys - {t});
    var l := Run(targets, max, k, rest);
    var out := Leaves(targets, max, l);
    AndThen(targets, max, k, rest, out);
    Then(targets, max, j, go, rest + out);
    steps := [go] + (rest + out);
  }

  /** An orderly Stop ends the context of the retry loop's Relay. If that falls between a publish
      and its mark, the mark and all that follows fail, and the errors are dropped: whatever the
      targets, one of them is published, at rest, and its record does not say so. */
  lemma {:induction false} StoppedMark(targets: set<int>, max: int, j: Joint, t: int) returns (steps: seq<Step>)
    requires Shaped(targets, j) && AtRest(j) && j.up && t in targets && !DoneAt(j, t)
    ensures Legal(targets, max, j, steps) && Gentle(steps) && KillFree(steps)
    ensures var v := Run(targets, max, j, steps);
      Shaped(targets, v) && AtRest(v) && !v.up && !DoneAt(v, t) && Count(v.published, t) == Count(j.published, t) + 1
  {
    hide Legal, Run, Next, Enabled, Shaped;
    var first := LoopPublishes(targets, max, j, t);
    var k := Run(targets, max, j, first);
    var rest := Unmarked(targets, max, k, t);
    var l := Run(targets, max, k, rest);
    assert DoneAt(l, t) == DoneAt(k, t);
    var last := Halted(targets, max, l);
    Then(targets, max, l, Stop, []);
    AndThen(targets, max, k, rest, [Stop] + []);
    AndThen(targets, max, j, first, rest + ([Stop] + []));
    steps := first + (rest + ([Stop] + []));
    RunTotal(targets, max, j, steps, t);
    assert last.published == j.published + [t];
  }

  lemma {:induction false} Halted(targets: set<int>, max: int, j: Joint) returns (v: Joint)
    requires !Ahead(j) && j.loop.at.Off? && j.aborting.None? && j.up
    ensures Enabled(targets, j, Stop) && v == Next(targets, max, j, Stop) && v == j.(up := false)
    ensures Mild(targets, max, v, []) && Run(targets, max, v, []) == v
    ensures AtRest(v) && forall t :: DoneAt(v, t) == DoneAt(j, t)
  {
    v := Next(targets, max, j, Stop);
    Nothing(targets, max, v);
  }
}
