/** Everything that relays one seed: the worker that got it from the poller, the retry loop
    with its queue, resends by the operator at any time, aborts of slow downloads, and stops,
    kills and starts of the process. A step is one call of the repository or of a site, and
    any write may fail. The records of the seed are shared by all. */
module RelayChain {
  import opened Options
  import opened Seeds
  import Rec = Records
  import R = Relay
  import C = RetryChain

  /** Where a goroutine is in submitJob. Before: in Relay, after that many of its three status
      writes; Publishing: its targets are being worked on. */
  datatype Place =
    | Off | Before(no: int, reports: nat) | Publishing(no: int)
    | Bumping(no: int, partial: bool) | Marking(no: int, partial: bool) | Queueing(no: int)

  /** `crew` are the goroutines of the attempt, by target. */
  datatype Runner = Runner(at: Place, crew: map<int, R.Pc>)

  const OFF := Runner(Off, map[])

  /** There is one retry loop, and the seed is handed to a worker once: `job` until then.
      `aborting` are the records a running abort found not done and has yet to mark.
      `published` are the successful publishes, `started` counts the Relay calls. */
  datatype Joint = Joint(
    rows: map<int, Rec.Row>, status: Status, count: int,
    job: bool, worker: Runner, loop: Runner, queue: seq<int>, aborting: Option<set<int>>, up: bool,
    published: seq<int>, started: nat)

  datatype Who = Worker | Loop

  datatype Step =
    | Take
    | Due(i: nat)
    | Report(who: Who, wrote: bool)
    | Leave(who: Who, skip: bool, wrote: bool)
    | Begin(who: Who, listed: bool)
    | Go(who: Who, target: int, a: R.Answers, wrote: bool)
    | End(who: Who, wrote: bool)
    | Bump(who: Who, wrote: bool)
    | Mark(who: Who, wrote: bool)
    | Queue(who: Who)
    | Resend
    | Wipe
    | AbortLook
    | AbortMark(target: int, wrote: bool)
    | AbortQueue(bumped: bool, wrote: bool)
    | Kill
    | Stop
    | Start(wrote: bool)

  function Fresh(rows: map<int, Rec.Row>): Joint {
    Joint(rows, Discovered, 0, true, OFF, OFF, [], None, true, [], 0)
  }

  function Of(j: Joint, who: Who): Runner { if who == Worker then j.worker else j.loop }

  function TheOther(who: Who): Who { if who == Worker then Loop else Worker }

  function With(j: Joint, who: Who, r: Runner): Joint {
    if who == Worker then j.(worker := r) else j.(loop := r)
  }

  function RowAt(j: Joint, t: int): Option<Rec.Row> { if t in j.rows then Some(j.rows[t]) else None }

  predicate DoneAt(j: Joint, t: int) { R.RowDone(RowAt(j, t)) }

  /** A publish that succeeds. */
  predicate Publishes(pc: R.Pc, next: R.Pc) { pc.Calling? && next == R.Noting(true) }

  /** One call of publishToOneTarget, whose write, if it makes one, may fail. Only a failed
      claim is noticed. */
  function CrewStep(row: Option<Rec.Row>, pc: R.Pc, a: R.Answers, wrote: bool): (Option<Rec.Row>, R.Pc) {
    var (after, next) := R.Step(row, pc, a);
    if wrote || pc.Waiting? || pc.Reading? || pc.Calling? then (after, next)
    else if pc.Claiming? then (row, R.Finished(false))
    else (row, next)
  }

  predicate Enabled(targets: set<int>, j: Joint, step: Step) {
    match step
    case Take => j.up && j.job && j.worker.at.Off?
    case Due(i) => j.up && j.loop.at.Off? && i < |j.queue|
    case Report(who, _) => Of(j, who).at.Before? && Of(j, who).at.reports < 3
    case Leave(who, skip, _) => Of(j, who).at.Before? && (skip ==> Of(j, who).at.reports == 1)
    case Begin(who, _) => Of(j, who).at.Before? && Of(j, who).at.reports == 3 && targets != {}
    case Go(who, t, a, _) =>
      Of(j, who).at.Publishing? && t in Of(j, who).crew && !Of(j, who).crew[t].Finished? && a.rival.None?
    case End(who, _) => Of(j, who).at.Publishing? && forall t :: t in Of(j, who).crew ==> Of(j, who).crew[t].Finished?
    case Bump(who, _) => Of(j, who).at.Bumping?
    case Mark(who, _) => Of(j, who).at.Marking?
    case Queue(who) => Of(j, who).at.Queueing?
    case Resend => true
    case Wipe => true
    case AbortLook => j.up && j.aborting.None?
    case AbortMark(t, _) => j.aborting.Some? && t in j.aborting.value
    case AbortQueue(_, _) => j.aborting == Some({})
    case Kill => j.up
    case Stop => j.up && j.worker.at.Off? && j.loop.at.Off? && j.aborting.None?
    case Start(_) => !j.up
  }

  const REPORTS: seq<Status> := [Processing, Downloading, Downloaded]

  function Crew(targets: set<int>, j: Joint, listed: bool): map<int, R.Pc> {
    map t | t in targets && !(listed && DoneAt(j, t)) :: R.Waiting
  }

  function Write(j: Joint, status: Status, wrote: bool): Joint { if wrote then j.(status := status) else j }

  /** The steps of submitJob and of Relay around its targets. */
  predicate IsSubmit(step: Step) {
    step.Take? || step.Due? || step.Report? || step.Leave? || step.Begin? || step.End? || step.Bump? || step.Mark? || step.Queue?
  }

  /** Where such a step takes its goroutine. */
  function Placed(targets: set<int>, max: int, j: Joint, step: Step): Runner
    requires Enabled(targets, j, step) && IsSubmit(step)
  {
    match step
    case Take => Runner(Before(0, 0), map[])
    case Due(i) => Runner(Before(j.queue[i], 0), map[])
    case Report(who, _) => Runner(Of(j, who).at.(reports := Of(j, who).at.reports + 1), map[])
    case Leave(who, skip, _) => if skip then OFF else Runner(Bumping(Of(j, who).at.no, false), map[])
    case Begin(who, listed) => Runner(Publishing(Of(j, who).at.no), Crew(targets, j, listed))
    case End(who, _) =>
      var result := R.Classified(Of(j, who).crew);
      if result.AllDone? then OFF else Runner(Bumping(Of(j, who).at.no, result.PartialFailure?), map[])
    case Bump(who, _) => Runner(Marking(Of(j, who).at.no, Of(j, who).at.partial), map[])
    case Mark(who, _) => if Of(j, who).at.no + 1 <= max then Runner(Queueing(Of(j, who).at.no + 1), map[]) else OFF
    case Queue(_) => OFF
  }

  /** The status it writes, if the write succeeds. */
  function Reported(targets: set<int>, max: int, j: Joint, step: Step): Status
    requires Enabled(targets, j, step)
  {
    match step
    case Report(who, wrote) => if wrote then REPORTS[Of(j, who).at.reports] else j.status
    case Leave(_, skip, wrote) => if skip && wrote then Skipped else j.status
    case End(who, wrote) => if wrote && R.Classified(Of(j, who).crew).AllDone? then Seeding else j.status
    case Mark(who, wrote) =>
      if !wrote then j.status
      else if Of(j, who).at.no + 1 <= max then Retry
      else if Of(j, who).at.partial then Seeding else Failed
    case _ => j.status
  }

  function Mover(step: Step): Who
    requires IsSubmit(step)
  {
    match step
    case Take => Worker
    case Due(_) => Loop
    case _ => step.who
  }

  function Submitted(targets: set<int>, max: int, j: Joint, step: Step): Joint
    requires Enabled(targets, j, step) && IsSubmit(step)
  {
    With(j, Mover(step), Placed(targets, max, j, step)).(
      status := Reported(targets, max, j, step),
      count := if step.Bump? && step.wrote then j.count + 1 else j.count,
      job := j.job && !step.Take?,
      started := if step.Take? || step.Due? then j.started + 1 else j.started,
      queue := if step.Due? then j.queue[..step.i] + j.queue[step.i + 1..]
               else if step.Queue? then j.queue + [Of(j, step.who).at.no]
               else j.queue)
  }

  function Went(j: Joint, who: Who, t: int, a: R.Answers, wrote: bool): Joint
    requires t in Of(j, who).crew
  {
    var r := Of(j, who);
    var (row, pc) := CrewStep(RowAt(j, t), r.crew[t], a, wrote);
    With(j, who, r.(crew := r.crew[t := pc])).(
      rows := if row.Some? then j.rows[t := row.value] else j.rows,
      published := if Publishes(r.crew[t], pc) then j.published + [t] else j.published)
  }

  /** The steps of operator, monitor and process. */
  function Surrounded(j: Joint, step: Step): Joint
    requires !IsSubmit(step) && !step.Go? && (step.AbortMark? ==> j.aborting.Some?)
  {
    match step
    case Resend => j.(count := 0, status := Retry, queue := j.queue + [1])
    case Wipe => j.(rows := map[])
    case AbortLook => j.(aborting := Some(set t | t in j.rows && !DoneAt(j, t)))
    case AbortMark(t, wrote) =>
      j.(aborting := Some(j.aborting.value - {t}),
         rows := if wrote && t in j.rows then j.rows[t := Rec.Applied(RowAt(j, t), Rec.UpdateAttempt(Rec.Failed, "low_speed_abort")).value]
                 else j.rows)
    case AbortQueue(bumped, wrote) =>
      Write(j.(aborting := None, queue := j.queue + [j.count + 1], count := if bumped then j.count + 1 else j.count), Retry, wrote)
    case Kill => j.(job := false, worker := OFF, loop := OFF, queue := [], aborting := None, up := false)
    case Stop => j.(job := false, up := false)
    case Start(wrote) =>
      var status := if wrote then Reclaimed(Seed("", "", j.status, "", 0)).status else j.status;
      j.(up := true, status := status, queue := if status == Retry then j.queue + [C.Rebuilt(j.count)] else j.queue)
  }

  function Next(targets: set<int>, max: int, j: Joint, step: Step): Joint
    requires Enabled(targets, j, step)
  {
    if IsSubmit(step) then Submitted(targets, max, j, step)
    else if step.Go? then Went(j, step.who, step.target, step.a, step.wrote)
    else Surrounded(j, step)
  }

  ghost predicate Legal(targets: set<int>, max: int, j: Joint, steps: seq<Step>)
    decreases |steps|
  {
    steps == [] || (Enabled(targets, j, steps[0]) && Legal(targets, max, Next(targets, max, j, steps[0]), steps[1..]))
  }

  ghost function Run(targets: set<int>, max: int, j: Joint, steps: seq<Step>): Joint
    requires Legal(targets, max, j, steps)
    decreases |steps|
  {
    if steps == [] then j else Run(targets, max, Next(targets, max, j, steps[0]), steps[1..])
  }

  // ------------------------------------------------------------ one record

  function One(b: bool): nat { if b then 1 else 0 }

  function Count(ts: seq<int>, t: int): nat { multiset(ts)[t] }

  /** Past looking at the record, with a publish or a write of it still to come. */
  predicate Armed(pc: R.Pc) {
    pc.Claiming? || pc.Calling? || pc == R.Noting(false) || pc.Demoting? || pc.Joining? || pc.NotingJoin?
  }

  /** What the goroutine will write finds a record. */
  predicate Covers(row: Option<Rec.Row>, pc: R.Pc) {
    (Armed(pc) || pc == R.Noting(true)) && (row.Some? || pc.Claiming?)
  }

  /** How many publishes a record still allows to one attempt after the other, of which the
      present one has its goroutine at `pc`. */
  function Credit(row: Option<Rec.Row>, pc: R.Pc): nat {
    One(Armed(pc)) + One(!R.RowDone(row) && !Covers(row, pc))
  }

  lemma {:induction false} OwnCredit(row: Option<Rec.Row>, pc: R.Pc, a: R.Answers, wrote: bool)
    requires !pc.Finished? && a.rival.None?
    ensures var (after, next) := CrewStep(row, pc, a, wrote);
      Credit(after, next) + One(Publishes(pc, next)) <= Credit(row, pc) + One(pc == R.Noting(true) && !wrote)
  {
  }

  /** What a goroutine of another attempt leaves. */
  lemma {:induction false} OtherCredit(row: Option<Rec.Row>, pc: R.Pc, a: R.Answers, wrote: bool, other: R.Pc)
    requires !pc.Finished? && a.rival.None?
    ensures var after := CrewStep(row, pc, a, wrote).0;
      Credit(after, other) <= Credit(row, other) + One(R.RowDone(row) && !R.RowDone(after))
  {
  }

  predicate Live(pc: R.Pc) { !pc.Finished? && pc != R.Noting(true) }

  /** A goroutine can publish, or undo a record that is done, once. */
  lemma {:induction false} LiveOnce(row: Option<Rec.Row>, pc: R.Pc, a: R.Answers, wrote: bool)
    requires !pc.Finished? && a.rival.None?
    ensures var (after, next) := CrewStep(row, pc, a, wrote);
      One(Live(next)) + One(Publishes(pc, next)) + One(R.RowDone(row) && !R.RowDone(after)) <= One(Live(pc))
  {
  }

  // ------------------------------------------------------------ invariants

  function PcOf(r: Runner, t: int): R.Pc { if t in r.crew then r.crew[t] else R.Finished(false) }

  predicate Fit(targets: set<int>, r: Runner) {
    r.crew.Keys <= targets && (r.crew != map[] ==> r.at.Publishing?)
  }

  /** Crews are there while their attempt is publishing, and of targets only; nothing runs while
      the process is down. */
  predicate Shaped(targets: set<int>, j: Joint) {
    && Fit(targets, j.worker) && Fit(targets, j.loop)
    && (j.job ==> j.worker.at.Off?)
    && (!j.up ==> !j.job && j.worker.at.Off? && j.loop.at.Off?)
    && j.count >= 0
  }

  lemma {:induction false} SubmitShaped(targets: set<int>, max: int, j: Joint, step: Step)
    requires Shaped(targets, j) && Enabled(targets, j, step) && IsSubmit(step)
    ensures Shaped(targets, Next(targets, max, j, step))
  {
    hide DoneAt, R.Classified, Went, Surrounded, Reported;
    if step.Begin? { assert Crew(targets, j, step.listed).Keys <= targets; }
  }

  lemma {:induction false} StepShaped(targets: set<int>, max: int, j: Joint, step: Step)
    requires Shaped(targets, j) && Enabled(targets, j, step)
    ensures Shaped(targets, Next(targets, max, j, step))
  {
    if IsSubmit(step) {
      hide *;
      SubmitShaped(targets, max, j, step);
    } else {
      hide CrewStep, DoneAt, Submitted;
    }
  }

  /** The worker has not come to its end with the seed. */
  predicate Ahead(j: Joint) { j.job || !j.worker.at.Off? }

  /** While the worker is not through, the retry loop has nothing to do. */
  predicate Solo(j: Joint) { Ahead(j) ==> j.loop == OFF && j.queue == [] }

  /** The seed is queued from outside while the worker is not through with it. */
  predicate Busy(j: Joint, step: Step) { (step.Resend? || step.AbortQueue?) && Ahead(j) }

  lemma {:induction false} StepSolo(targets: set<int>, max: int, j: Joint, step: Step)
    requires Shaped(targets, j) && Solo(j) && Enabled(targets, j, step) && !Busy(j, step)
    ensures Solo(Next(targets, max, j, step))
  {
    if IsSubmit(step) {
      hide DoneAt, R.Classified, Went, Surrounded, Reported;
    } else {
      hide CrewStep, DoneAt, Submitted;
    }
  }

  /** The step costs target `t` one more publish: the mark of a successful one is lost, by a
      kill or because its write fails; the records are deleted; or an abort marks failed what
      has become done since it looked. */
  predicate Costs(j: Joint, step: Step, t: int) {
    match step
    case Kill => PcOf(j.worker, t) == R.Noting(true) || PcOf(j.loop, t) == R.Noting(true)
    case Go(who, u, _, wrote) => u == t && PcOf(Of(j, who), t) == R.Noting(true) && !wrote
    case Wipe => true
    case AbortMark(u, wrote) => u == t && wrote && DoneAt(j, t)
    case _ => false
  }

  // --------------------------------------------------- the step by its kind

  /** Steps that leave records, publishes and crews alone. */
  predicate Quiet(step: Step) {
    !(step.Begin? || step.Go? || step.End? || step.Wipe? || step.AbortMark? || step.Kill?)
  }

  ghost predicate Undisturbed(j: Joint, v: Joint) {
    && v.rows == j.rows && v.published == j.published && v.worker.crew == j.worker.crew && v.loop.crew == j.loop.crew
    && (v.worker.at.Publishing? <==> j.worker.at.Publishing?)
    && (v.job || v.worker.at.Before? ==> j.job || j.worker.at.Before?)
  }

  lemma {:induction false} QuietSubmit(targets: set<int>, max: int, j: Joint, step: Step)
    requires Shaped(targets, j) && Enabled(targets, j, step) && IsSubmit(step) && Quiet(step)
    ensures Undisturbed(j, Next(targets, max, j, step))
  {
    hide R.Classified, DoneAt, Went, Surrounded, CrewStep, Reported;
    if !step.Take? && !step.Due? { assert Of(j, step.who).crew == map[]; }
  }

  lemma {:induction false} QuietStep(targets: set<int>, max: int, j: Joint, step: Step)
    requires Shaped(targets, j) && Enabled(targets, j, step) && Quiet(step)
    ensures Undisturbed(j, Next(targets, max, j, step))
  {
    if IsSubmit(step) {
      hide *;
      QuietSubmit(targets, max, j, step);
    } else {
      hide DoneAt, Went, Submitted, CrewStep;
    }
  }

  lemma {:induction false} OtherRows(targets: set<int>, max: int, j: Joint, step: Step, t: int)
    requires Enabled(targets, j, step) && (step.Go? ==> step.target != t)
    requires !step.Wipe? && (step.AbortMark? ==> step.target != t)
    ensures RowAt(Next(targets, max, j, step), t) == RowAt(j, t)
    ensures Count(Next(targets, max, j, step).published, t) == Count(j.published, t)
  {
    hide CrewStep, R.Classified, R.RowDone;
    if IsSubmit(step) { hide Went, Surrounded, Placed, Reported; } else { hide Submitted; }
  }

  lemma {:induction false} GoStep(targets: set<int>, max: int, j: Joint, who: Who, t: int, a: R.Answers, wrote: bool)
    requires Enabled(targets, j, Go(who, t, a, wrote))
    ensures var v := Next(targets, max, j, Go(who, t, a, wrote));
      var (row, pc) := CrewStep(RowAt(j, t), Of(j, who).crew[t], a, wrote);
      && RowAt(v, t) == row && PcOf(Of(v, who), t) == pc
      && Count(v.published, t) == Count(j.published, t) + One(Publishes(Of(j, who).crew[t], pc))
  {
    hide Submitted, Surrounded;
  }

  // ---------------------------------------------------------- the potentials

  /** The worker may still publish `t`, or undo what is done. */
  predicate WorkerLive(j: Joint, t: int) { j.job || j.worker.at.Before? || Live(PcOf(j.worker, t)) }

  /** Publishes made, and those still to come without a cost: one of the worker's, and the
      credit of the record to the attempts of the retry loop, which follow each other. */
  function Total(j: Joint, t: int): nat {
    Count(j.published, t) + One(WorkerLive(j, t)) + Credit(RowAt(j, t), PcOf(j.loop, t))
  }

  function PcNow(j: Joint, t: int): R.Pc { if j.worker.at.Publishing? then PcOf(j.worker, t) else PcOf(j.loop, t) }

  /** The same where no two attempts overlap. */
  function SoloTotal(j: Joint, t: int): nat { Count(j.published, t) + Credit(RowAt(j, t), PcNow(j, t)) }

  lemma {:induction false} GoTotal(targets: set<int>, max: int, j: Joint, who: Who, u: int, a: R.Answers, wrote: bool, t: int)
    requires Shaped(targets, j) && Enabled(targets, j, Go(who, u, a, wrote))
    ensures var v := Next(targets, max, j, Go(who, u, a, wrote));
      && Total(v, t) <= Total(j, t) + One(Costs(j, Go(who, u, a, wrote), t))
      && (Solo(j) ==> SoloTotal(v, t) <= SoloTotal(j, t) + One(Costs(j, Go(who, u, a, wrote), t)))
  {
    hide CrewStep, Credit, Live, Count, Publishes;
    if u == t {
      var row, pc := RowAt(j, t), Of(j, who).crew[t];
      GoStep(targets, max, j, who, t, a, wrote);
      OwnCredit(row, pc, a, wrote);
      OtherCredit(row, pc, a, wrote, PcOf(j.loop, t));
      LiveOnce(row, pc, a, wrote);
      assert who == Loop && Solo(j) ==> !j.worker.at.Publishing?;
    } else {
      OtherRows(targets, max, j, Go(who, u, a, wrote), t);
    }
  }

  lemma {:induction false} Wiped(row: Option<Rec.Row>, pc: R.Pc)
    ensures Credit(None, pc) <= Credit(row, pc) + 1
    ensures Credit(row, R.Finished(false)) <= Credit(row, pc) + One(pc == R.Noting(true))
    ensures pc.Finished? || pc.Waiting? ==> Credit(row, pc) == Credit(row, R.Finished(false))
  {
  }

  /** A record marked failed by an abort. */
  lemma {:induction false} Failing(row: Rec.Row, after: Rec.Row, pc: R.Pc)
    requires after.status == Rec.Failed
    ensures Credit(Some(after), pc) <= Credit(Some(row), pc) + One(R.RowDone(Some(row)))
  {
  }

  lemma {:induction false} MarkTotal(targets: set<int>, max: int, j: Joint, u: int, wrote: bool, t: int)
    requires Enabled(targets, j, AbortMark(u, wrote))
    ensures var v := Next(targets, max, j, AbortMark(u, wrote));
      && Total(v, t) <= Total(j, t) + One(Costs(j, AbortMark(u, wrote), t))
      && SoloTotal(v, t) <= SoloTotal(j, t) + One(Costs(j, AbortMark(u, wrote), t))
  {
    hide Credit, Live, Count;
    if u == t {
      if wrote && t in j.rows {
        var v := Next(targets, max, j, AbortMark(u, wrote));
        Failing(j.rows[t], v.rows[t], PcOf(j.loop, t));
        Failing(j.rows[t], v.rows[t], PcNow(j, t));
      }
    } else {
      OtherRows(targets, max, j, AbortMark(u, wrote), t);
    }
  }

  lemma {:induction false} CrewTotal(targets: set<int>, max: int, j: Joint, step: Step, t: int)
    requires Shaped(targets, j) && Enabled(targets, j, step) && (step.Begin? || step.End?)
    ensures var v := Next(targets, max, j, step);
      Total(v, t) <= Total(j, t) && (Solo(j) ==> SoloTotal(v, t) <= SoloTotal(j, t))
  {
    hide Credit, Count, R.Classified, DoneAt;
    OtherRows(targets, max, j, step, t);
    Wiped(RowAt(j, t), PcOf(j.loop, t));
    Wiped(RowAt(j, t), PcOf(j.worker, t));
    Wiped(RowAt(j, t), R.Waiting);
  }

  lemma {:induction false} LossTotal(targets: set<int>, max: int, j: Joint, step: Step, t: int)
    requires Shaped(targets, j) && Enabled(targets, j, step) && (step.Wipe? || step.Kill?)
    ensures var v := Next(targets, max, j, step);
      && Total(v, t) <= Total(j, t) + One(Costs(j, step, t))
      && SoloTotal(v, t) <= SoloTotal(j, t) + One(Costs(j, step, t))
  {
    hide Credit, Count, Submitted, Went;
    Wiped(RowAt(j, t), PcOf(j.loop, t));
    Wiped(RowAt(j, t), PcNow(j, t));
  }

  lemma {:induction false} StepTotal(targets: set<int>, max: int, j: Joint, step: Step, t: int)
    requires Shaped(targets, j) && Enabled(targets, j, step)
    ensures var v := Next(targets, max, j, step);
      && Total(v, t) <= Total(j, t) + One(Costs(j, step, t))
      && (Solo(j) ==> SoloTotal(v, t) <= SoloTotal(j, t) + One(Costs(j, step, t)))
  {
    if Quiet(step) {
      hide Credit, Live, Count, Enabled, Next;
      QuietStep(targets, max, j, step);
    } else {
      match step
      case Go(who, u, a, wrote) =>
        hide *;
        GoTotal(targets, max, j, who, u, a, wrote, t);
      case Begin(_, _) =>
        hide *;
        CrewTotal(targets, max, j, step, t);
      case End(_, _) =>
        hide *;
        CrewTotal(targets, max, j, step, t);
      case AbortMark(u, wrote) =>
        hide *;
        MarkTotal(targets, max, j, u, wrote, t);
      case Wipe =>
        hide *;
        LossTotal(targets, max, j, step, t);
      case Kill =>
        hide *;
        LossTotal(targets, max, j, step, t);
    }
  }
}
