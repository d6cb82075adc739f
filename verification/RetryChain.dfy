/** The retry chain of a seed: attempts follow each other through the retry queue until
    one succeeds or the retries run out. A chain is a program counter moved on by one
    repository call at a time; the process may be killed between any two of them and
    started again. The writes of the repository succeed. */
module RetryChain {
  import opened Options
  import opened Seeds
  import Q = RetryQueue

  datatype Ending = Succeeded | GaveUp | GaveUpPartly

  datatype Outcome = Relayed | LeftOut | Partial | Failure

  datatype Pc =
    | Fresh | Waiting(no: int) | Relaying(no: int) | Bumping(no: int, partial: bool) | Marking(no: int, partial: bool)
    | Queueing(no: int) | Telling(partial: bool) | Ended(ending: Ending)
    | Down | Idle

  /** `status` and `count` are stored; `started` counts the Relay calls, `crashes` the kills,
      `criticals` the critical notifications. */
  datatype Chain = Chain(pc: Pc, status: Status, count: int, started: nat, crashes: nat, criticals: nat)

  const START := Chain(Fresh, Discovered, 0, 0, 0, 0)

  function MaxRetries(retryMax: int): int { if retryMax <= 0 then 3 else retryMax }

  datatype Step = Submit | Report | Return(outcome: Outcome) | Write | Crash | Boot

  /** The status Relay writes after the one the seed has. */
  function Following(s: Status): Option<Status> {
    match s
    case Discovered => Some(Processing)
    case Retry => Some(Processing)
    case Processing => Some(Downloading)
    case Downloading => Some(Downloaded)
    case _ => None
  }

  predicate Enabled(c: Chain, step: Step) {
    match step
    case Submit => c.pc.Fresh? || c.pc.Waiting?
    case Report => c.pc.Relaying? && Following(c.status).Some?
    case Return(o) =>
      && c.pc.Relaying?
      && (o == LeftOut ==> c.status == Processing)
      && (o == Relayed || o == Partial ==> c.status == Downloaded)
    case Write => c.pc.Bumping? || c.pc.Marking? || c.pc.Queueing? || c.pc.Telling?
    case Crash => !c.pc.Down? && !c.pc.Idle? && !c.pc.Ended?
    case Boot => c.pc.Down?
  }

  /** One write of submitJob after Relay has failed. */
  function Written(max: int, c: Chain): Chain {
    match c.pc
    case Bumping(no, partial) => c.(count := c.count + 1, pc := Marking(no, partial))
    case Marking(no, partial) =>
      if no + 1 <= max then c.(status := Retry, pc := Queueing(no + 1))
      else c.(status := if partial then Seeding else Failed, pc := Telling(partial))
    case Queueing(no) => c.(pc := Waiting(no))
    case Telling(partial) => c.(criticals := c.criticals + 1, pc := Ended(if partial then GaveUpPartly else GaveUp))
    case _ => c
  }

  function Rebuilt(count: int): int { if count < 1 then 1 else count }

  function Next(max: int, c: Chain, step: Step): Chain
    requires Enabled(c, step)
  {
    match step
    case Submit => c.(pc := Relaying(if c.pc.Waiting? then c.pc.no else 0), started := c.started + 1)
    case Report => c.(status := Following(c.status).value)
    case Return(o) =>
      if o == Relayed then c.(status := Seeding, pc := Ended(Succeeded))
      else if o == LeftOut then c.(status := Skipped, pc := Ended(Succeeded))
      else c.(pc := Bumping(c.pc.no, o == Partial))
    case Write => Written(max, c)
    case Crash => c.(pc := Down, crashes := c.crashes + 1)
    case Boot =>
      var s := Reclaimed(Seed("", "", c.status, "", 0)).status;
      c.(status := s, pc := if s == Retry then Waiting(Rebuilt(c.count)) else Idle)
  }

  ghost predicate Legal(max: int, c: Chain, steps: seq<Step>)
    decreases |steps|
  {
    steps == [] || (Enabled(c, steps[0]) && Legal(max, Next(max, c, steps[0]), steps[1..]))
  }

  ghost function Run(max: int, c: Chain, steps: seq<Step>): Chain
    requires Legal(max, c, steps)
    decreases |steps|
  {
    if steps == [] then c else Run(max, Next(max, c, steps[0]), steps[1..])
  }

  // ------------------------------------------------------------ invariant

  predicate Resumable(s: Status) { s == Retry || s == Processing || s == Downloading }

  /** What each program counter says about the stored columns and the counters. */
  predicate AtPc(max: int, c: Chain) {
    match c.pc
    case Fresh => c.status == Discovered && c.started == 0 && c.count == 0 && c.crashes == 0
    case Waiting(no) =>
      c.status == Retry && 1 <= no && c.count <= no && c.started <= max + c.crashes && c.started <= c.count + c.crashes
      && (c.crashes == 0 ==> c.count == no <= max)
    case Relaying(no) =>
      (c.status == Discovered || c.status == Downloaded || Resumable(c.status))
      && 0 <= no && c.count <= no && c.started <= c.count + c.crashes + 1 && (c.crashes == 0 ==> c.count == no <= max)
    case Bumping(no, _) =>
      (c.status == Discovered || c.status == Downloaded || Resumable(c.status))
      && 0 <= no && c.count <= no && c.started <= c.count + c.crashes + 1 && (c.crashes == 0 ==> c.count == no <= max)
    case Marking(no, _) =>
      (c.status == Discovered || c.status == Downloaded || Resumable(c.status))
      && 0 <= no && c.count <= no + 1 && c.started <= c.count + c.crashes && (c.crashes == 0 ==> c.count == no + 1 <= max + 1)
    case Queueing(no) =>
      c.status == Retry && 1 <= no <= max && c.count <= no && c.started <= c.count + c.crashes
      && (c.crashes == 0 ==> c.count == no)
    case Telling(partial) => c.status == if partial then Seeding else Failed
    case Ended(e) =>
      if e == Succeeded then (c.status == Seeding || c.status == Skipped) && c.criticals == 0
      else c.status == (if e == GaveUp then Failed else Seeding) && c.criticals == 1
    case Down =>
      c.crashes > 0 && c.started <= max + c.crashes && (Resumable(c.status) ==> c.started <= c.count + c.crashes)
    case Idle => c.crashes > 0 && !Resumable(c.status)
  }

  ghost predicate Inv(max: int, c: Chain) {
    AtPc(max, c) && 0 <= c.count && c.started <= max + 1 + c.crashes && (c.criticals == 0 || c.pc.Ended?)
  }

  lemma {:induction false} StepKeepsInv(max: int, c: Chain, step: Step)
    requires max >= 1 && Inv(max, c) && Enabled(c, step)
    ensures Inv(max, Next(max, c, step))
  {
  }

  lemma {:induction false} RunKeepsInv(max: int, c: Chain, steps: seq<Step>)
    requires max >= 1 && Inv(max, c) && Legal(max, c, steps)
    ensures Inv(max, Run(max, c, steps))
    decreases |steps|
  {
    if steps != [] {
      StepKeepsInv(max, c, steps[0]);
      RunKeepsInv(max, Next(max, c, steps[0]), steps[1..]);
    }
  }

  // ------------------------------------------------------------ main results

  /** However often the process is killed, a chain makes at most RetryMax + 1 Relay calls, and
      one more for each kill. It sends no critical notification while it goes on or when it
      succeeds, and exactly one when it gives up, with the seed failed, or seeding after a
      partial last attempt. */
  lemma {:induction false} ChainBounded(retryMax: int, steps: seq<Step>)
    requires Legal(MaxRetries(retryMax), START, steps)
    ensures var c := Run(MaxRetries(retryMax), START, steps);
      && c.started <= MaxRetries(retryMax) + 1 + c.crashes
      && (c.criticals == 1 <==> c.pc == Ended(GaveUp) || c.pc == Ended(GaveUpPartly)) && c.criticals <= 1
      && (c.pc == Ended(Succeeded) ==> c.status == Seeding || c.status == Skipped)
      && (c.pc == Ended(GaveUp) ==> c.status == Failed)
      && (c.pc == Ended(GaveUpPartly) ==> c.status == Seeding)
  {
    RunKeepsInv(MaxRetries(retryMax), START, steps);
  }

  /** Without kills each Relay call is counted by the retry number. */
  predicate Exact(max: int, c: Chain) {
    c.crashes == 0 ==>
      match c.pc
      case Fresh => c.started == 0
      case Waiting(no) => c.started == no
      case Relaying(no) => c.started == no + 1
      case Bumping(no, _) => c.started == no + 1
      case Marking(no, _) => c.started == no + 1
      case Queueing(no) => c.started == no
      case Telling(_) => c.started == max + 1
      case Ended(e) => e != Succeeded ==> c.started == max + 1
      case _ => true
  }

  lemma {:induction false} RunExact(max: int, c: Chain, steps: seq<Step>)
    requires max >= 1 && Inv(max, c) && Exact(max, c) && Legal(max, c, steps)
    ensures Exact(max, Run(max, c, steps))
    decreases |steps|
  {
    if steps != [] {
      StepKeepsInv(max, c, steps[0]);
      StepExact(max, c, steps[0]);
      RunExact(max, Next(max, c, steps[0]), steps[1..]);
    }
  }

  lemma {:induction false} StepExact(max: int, c: Chain, step: Step)
    requires max >= 1 && Inv(max, c) && Exact(max, c) && Enabled(c, step)
    ensures Exact(max, Next(max, c, step))
  {
  }

  /** A chain that is not killed gives up after RetryMax + 1 Relay calls, not one less. */
  lemma {:induction false} GivesUpAfterAll(retryMax: int, steps: seq<Step>)
    requires Legal(MaxRetries(retryMax), START, steps)
    ensures var c := Run(MaxRetries(retryMax), START, steps);
      c.crashes == 0 && (c.pc == Ended(GaveUp) || c.pc == Ended(GaveUpPartly))
      ==> c.started == 1 + if retryMax <= 0 then 3 else retryMax
  {
    RunExact(MaxRetries(retryMax), START, steps);
  }

  function StepsLeft(s: Status): nat {
    match s
    case Downloaded => 0 case Downloading => 1 case Processing => 2 case _ => 3
  }

  /** How many steps are left at most while the process stays up. */
  function Rank(max: int, c: Chain): int {
    match c.pc
    case Fresh => max * 10 + 9
    case Waiting(no) => (max - no) * 10 + 9
    case Relaying(no) => (max - no) * 10 + 5 + StepsLeft(c.status)
    case Bumping(no, _) => (max - no) * 10 + 4
    case Marking(no, _) => (max - no) * 10 + 3
    case Queueing(no) => (max - no) * 10 + 10
    case Telling(_) => 1
    case _ => 0
  }

  lemma {:induction false} UpRun(max: int, c: Chain, steps: seq<Step>)
    requires max >= 1 && Inv(max, c) && c.crashes == 0 && Legal(max, c, steps) && Crash !in steps
    ensures Run(max, c, steps).crashes == 0 && |steps| <= Rank(max, c) - Rank(max, Run(max, c, steps))
    decreases |steps|
  {
    if steps != [] {
      var d := Next(max, c, steps[0]);
      StepKeepsInv(max, c, steps[0]);
      assert Rank(max, d) < Rank(max, c);
      UpRun(max, d, steps[1..]);
    }
  }

  /** Every chain ends while the process stays up: no run is longer than 10 * RetryMax + 9
      steps, and one that cannot go on has ended. */
  lemma {:induction false} ChainEnds(retryMax: int, steps: seq<Step>)
    requires Legal(MaxRetries(retryMax), START, steps) && Crash !in steps
    ensures var c := Run(MaxRetries(retryMax), START, steps);
      && |steps| <= 10 * MaxRetries(retryMax) + 9
      && (c.pc.Ended? || exists step :: step != Crash && Enabled(c, step))
  {
    var max := MaxRetries(retryMax);
    RunKeepsInv(max, START, steps);
    UpRun(max, START, steps);
    var c := Run(max, START, steps);
    assert Enabled(c, Submit) || Enabled(c, Return(Failure)) || Enabled(c, Write) || c.pc.Ended?;
  }

  /** A kill followed by a start resumes the chain exactly when the stored status says that a
      retry is due, or that Relay was processing or downloading. It is lost while publishing,
      before the first write, and on the way to giving up. */
  lemma {:induction false} LostIff(retryMax: int, steps: seq<Step>)
    requires Legal(MaxRetries(retryMax), START, steps)
    requires Enabled(Run(MaxRetries(retryMax), START, steps), Crash)
    ensures var max := MaxRetries(retryMax);
      var c := Run(max, START, steps);
      var d := Next(max, Next(max, c, Crash), Boot);
      && d.pc == (if Resumable(c.status) then Waiting(Rebuilt(c.count)) else Idle)
      && (Resumable(c.status) <==> !(c.status == Discovered || c.status == Downloaded || c.pc.Telling?))
      && (c.pc.Waiting? && c.crashes == 0 ==> d.pc == c.pc)
      && (d.pc.Idle? ==> forall step :: !Enabled(d, step))
  {
    RunKeepsInv(MaxRetries(retryMax), START, steps);
  }

  // ------------------------------------------------------------- submitJob

  /** What is left to do by submitJob, done without interruption. */
  function Settled(max: int, c: Chain): Chain {
    if c.pc.Bumping? then Written(max, Written(max, Written(max, c))) else c
  }

  lemma {:induction false} SettledIs(max: int, no: int, partial: bool)
    ensures Settled(max, Chain(Bumping(no, partial), Processing, 0, 0, 0, 0))
      == if no + 1 <= max then Chain(Waiting(no + 1), Retry, 1, 0, 0, 0)
         else if partial then Chain(Ended(GaveUpPartly), Seeding, 1, 0, 0, 1)
         else Chain(Ended(GaveUp), Failed, 1, 0, 0, 1)
  {
  }

  /** What a failed attempt leaves: the seed has one more retry and the error; it is due for a
      retry while there are some left, and then failed, or seeding if it failed in part. No
      other row is touched. */
  lemma {:induction false} FailureStored(rows: Rows, id: int, no: int, partial: bool, error: string, retryMax: int)
    ensures var limit := if retryMax <= 0 then 3 else retryMax;
      var after := Settled(MaxRetries(retryMax), Chain(Bumping(no, partial), Processing, 0, 0, 0, 0));
      var made := Routed(rows, id, after, error);
      && made.Keys == rows.Keys && (forall i :: i in rows && i != id ==> made[i] == rows[i])
      && (id in rows ==>
            && made[id].site == rows[id].site && made[id].hash == rows[id].hash
            && made[id].retryCount == rows[id].retryCount + 1 && made[id].error == error
            && made[id].status == if no < limit then Retry else if partial then Seeding else Failed)
      && (after.pc == Waiting(no + 1) <==> no < limit) && (after.pc.Waiting? <==> no < limit)
      && after.criticals == if no < limit then 0 else 1
  {
    SettledIs(MaxRetries(retryMax), no, partial);
  }

  datatype Notice = Notice(seed: int, partial: bool)

  /** The row of the seed as `after` leaves it, and no other row touched. */
  function Routed(rows: Rows, id: int, after: Chain, error: string): Rows {
    if id !in rows then rows
    else rows[id := rows[id].(retryCount := rows[id].retryCount + after.count, status := after.status, error := error)]
  }

  class Engine {
    const seeds: SeedTable
    const retry: Q.RetryQueue
    var criticals: seq<Notice>

    constructor (seeds: SeedTable, retry: Q.RetryQueue)
      ensures this.seeds == seeds && this.retry == retry && criticals == []
    {
      this.seeds, this.retry, criticals := seeds, retry, [];
    }

    /** After Relay returned `outcome`: nothing for a success; otherwise the three writes of
        the chain at once, on this seed's row, the queue and the notifications alone. */
    method SubmitJob(id: int, retryNo: int, outcome: Outcome, error: string, retryMax: int, now: int)
      requires seeds.Valid()
      modifies this, seeds`rows, retry
      ensures seeds.Valid()
      ensures outcome == Relayed || outcome == LeftOut
        ==> seeds.rows == old(seeds.rows) && retry.items == old(retry.items) && criticals == old(criticals)
      ensures !(outcome == Relayed || outcome == LeftOut) ==>
        var after := Settled(MaxRetries(retryMax), Chain(Bumping(retryNo, outcome == Partial), Processing, 0, 0, 0, 0));
        && seeds.rows == Routed(old(seeds.rows), id, after, error)
        && retry.items == old(retry.items)
             + (if after.pc.Waiting? then [Q.Item(id, after.pc.no, now + Q.BackoffFor(after.pc.no))] else [])
        && criticals == old(criticals) + (if after.criticals == 1 then [Notice(id, after.pc == Ended(GaveUpPartly))] else [])
    {
      hide Sane, Q.BackoffFor, Settled;
      SettledIs(MaxRetries(retryMax), retryNo, outcome == Partial);
      if outcome == Relayed || outcome == LeftOut { return; }
      var isPartial := outcome == Partial;
      var maxRetries := retryMax;
      if maxRetries <= 0 { maxRetries := 3; }
      seeds.BumpRetry(id);
      var next := retryNo + 1;
      if next <= maxRetries {
        var ok := seeds.UpdateSeedStatus(id, Retry, error);
        retry.Enqueue(id, next, now);
        return;
      }
      if isPartial {
        var ok := seeds.UpdateSeedStatus(id, Seeding, error);
        criticals := criticals + [Notice(id, true)];
        return;
      }
      var ok := seeds.UpdateSeedStatus(id, Failed, error);
      criticals := criticals + [Notice(id, false)];
    }

    /** The recovery at the beginning of Start: the seeds in mid-flight are reclaimed, then
        every seed due for a retry is queued, by id. */
    method Recover(now: int) returns (ghost ids: seq<int>)
      requires seeds.Valid()
      modifies seeds`rows, retry
      ensures seeds.Valid() && seeds.rows == map i | i in old(seeds.rows) :: Reclaimed(old(seeds.rows)[i])
      ensures Increasing(ids) && forall i :: i in ids <==> i in old(seeds.rows) && Resumable(old(seeds.rows)[i].status)
      ensures forall i :: i in ids ==> i in seeds.rows
      ensures retry.items == old(retry.items) + Requeued(seeds.rows, ids, now)
    {
      hide Sane, Q.BackoffFor, Increasing;
      seeds.Reclaim();
      ghost var rows := seeds.rows;
      var due := seeds.ListSeedsByStatus(Retry);
      for k := 0 to |due|
        invariant seeds.Valid() && seeds.rows == rows && forall i :: i in due ==> i in rows
        invariant retry.items == old(retry.items) + Requeued(rows, due[..k], now)
      {
        var retryNo := seeds.rows[due[k]].retryCount;
        if retryNo < 1 { retryNo := 1; }
        retry.Enqueue(due[k], retryNo, now);
        assert due[..k + 1][..k] == due[..k];
      }
      assert due[..|due|] == due;
      ids := due;
    }
  }

  function Requeued(rows: Rows, ids: seq<int>, now: int): seq<Q.Item>
    requires forall i :: i in ids ==> i in rows
  {
    if ids == [] then []
    else
      var id := ids[|ids| - 1];
      var no := Rebuilt(rows[id].retryCount);
      Requeued(rows, ids[..|ids| - 1], now) + [Q.Item(id, no, now + Q.BackoffFor(no))]
  }

  /** Each seed is queued with its stored retry number, or 1, after 60 s, 300 s, then 900 s. */
  lemma {:induction false} RequeuedIs(rows: Rows, ids: seq<int>, now: int, k: nat)
    requires (forall i :: i in ids ==> i in rows) && k < |ids|
    ensures var items := Requeued(rows, ids, now);
      var count := rows[ids[k]].retryCount;
      && |items| == |ids| && items[k].seed == ids[k] && items[k].retryNo == (if count < 1 then 1 else count)
      && items[k].dueAt == now + (if count <= 1 then 60 * Q.SECOND else if count == 2 then 300 * Q.SECOND else 900 * Q.SECOND)
  {
    var n := |ids| - 1;
    if n == 0 {
      assert Requeued(rows, ids[..0], now) == [];
    } else {
      RequeuedIs(rows, ids[..n], now, if k < n then k else 0);
    }
  }

  /** How often a seed is queued. */
  function Copies(items: seq<Q.Item>, id: int): nat {
    if items == [] then 0
    else
      var n := Copies(items[..|items| - 1], id);
      if items[|items| - 1].seed == id then n + 1 else n
  }

  lemma {:induction false} CopiesOf(items: seq<Q.Item>, more: seq<Q.Item>, id: int)
    ensures Copies(items + more, id) == Copies(items, id) + Copies(more, id)
  {
    if more == [] {
      assert items + more == items;
    } else {
      var all := items + more;
      assert all[..|all| - 1] == items + more[..|more| - 1];
      CopiesOf(items, more[..|more| - 1], id);
    }
  }

  lemma {:induction false} RequeuedOnce(rows: Rows, ids: seq<int>, now: int, id: int)
    requires (forall i :: i in ids ==> i in rows) && Increasing(ids)
    ensures Copies(Requeued(rows, ids, now), id) == if id in ids then 1 else 0
  {
    if ids != [] {
      var init := ids[..|ids| - 1];
      RequeuedOnce(rows, init, now, id);
      assert ids == init + [ids[|ids| - 1]];
      assert forall i :: i in init ==> i < ids[|ids| - 1];
      var q := Requeued(rows, ids, now);
      assert q[..|q| - 1] == Requeued(rows, init, now);
    }
  }

  /** Recovery adds one item for each seed due for a retry, on top of what the queue holds:
      such a seed is queued once exactly when the queue held nothing for it. A queue that
      outlives a Stop makes the next Start queue its seeds a second time. */
  lemma {:induction false} RecoveryQueuesOnceIff(held: seq<Q.Item>, rows: Rows, ids: seq<int>, now: int, id: int)
    requires (forall i :: i in ids ==> i in rows) && Increasing(ids) && id in ids
    ensures Copies(held + Requeued(rows, ids, now), id) == Copies(held, id) + 1
    ensures Copies(held + Requeued(rows, ids, now), id) == 1 <==> Copies(held, id) == 0
  {
    CopiesOf(held, Requeued(rows, ids, now), id);
    RequeuedOnce(rows, ids, now, id);
  }
}
