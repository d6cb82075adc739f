/** Relaying one seed to its targets. Each attempt runs one goroutine per pending target;
    a goroutine is a program counter moved on by one repository or site call at a time,
    and any interleaving of them is a run. Whether a call succeeds is arbitrary, except
    that writes of the repository do. */
module Relay {
  import opened Options
  import opened Records
  import opened Selections

  predicate IsDone(s: Status) { s in {Published, CrossSeeding, Seeding, Retired} }

  predicate RowDone(row: Option<Row>) { row.Some? && IsDone(row.value.status) }

  datatype Outcome = PublishedOk | NotOk | Duplicate | OtherError

  /** What the outside world answers: building the adapter and cleaning the torrent,
      reading the record, publishing, joining the swarm; and the row, if any, that
      another instance puts in between our reading and our claim. */
  datatype Answers = Answers(setup: bool, read: bool, rival: Option<Row>, publish: Outcome, cross: bool, now: int)

  datatype Pc =
    | Waiting | Reading | Claiming | Calling | Noting(ok: bool) | Demoting | Joining | NotingJoin(ok: bool)
    | Finished(ok: bool)

  /** publishToOneTarget, one call at a time. */
  function Step(row: Option<Row>, pc: Pc, a: Answers): (Option<Row>, Pc) {
    match pc
    case Waiting => (row, if a.setup then Reading else Finished(false))
    case Reading =>
      (row, if !a.read then Finished(false)
            else if RowDone(row) then Finished(true)
            else if row.None? then Claiming
            else Calling)
    case Claiming =>
      var seen := if row.None? then a.rival else row;
      (Applied(seen, Upsert(Publisher, Pending)), if seen.None? then Calling else Demoting)
    case Calling =>
      (row, match a.publish
            case PublishedOk => Noting(true)
            case NotOk => Noting(false)
            case Duplicate => Demoting
            case OtherError => Noting(false))
    case Noting(ok) =>
      (Applied(row, if ok then MarkPublished(a.now) else UpdateAttempt(Failed, "error")), Finished(ok))
    case Demoting => (Applied(row, SetRole(Seeder)), Joining)
    case Joining => (row, NotingJoin(a.cross))
    case NotingJoin(ok) =>
      (Applied(row, if ok then UpdateStatus(CrossSeeding, "") else UpdateAttempt(Failed, "error")), Finished(ok))
    case Finished(_) => (row, pc)
  }

  /** How many calls are left at most. */
  function Rank(pc: Pc): nat {
    match pc
    case Waiting => 7 case Reading => 6 case Claiming => 5 case Calling => 4
    case Demoting => 3 case Joining => 2 case Noting(_) => 1 case NotingJoin(_) => 1
    case Finished(_) => 0
  }

  /** The goroutine run by itself to its end, with fixed answers. */
  function Alone(row: Option<Row>, pc: Pc, a: Answers): (Option<Row>, Pc)
    decreases Rank(pc)
  {
    if pc.Finished? then (row, pc)
    else
      var (r, p) := Step(row, pc, a);
      Alone(r, p, a)
  }

  /** publishToOneTarget on the table. */
  method PublishToOneTarget(table: RecordTable, k: Key, a: Answers) returns (ok: bool)
    modifies table
    ensures (Lookup(table.rows, k), Finished(ok)) == Alone(Lookup(old(table.rows), k), Waiting, a)
    ensures forall j :: j != k ==> Lookup(table.rows, j) == Lookup(old(table.rows), j)
  {
    if !a.setup { return false; }
    if !a.read { return false; }
    var existing := table.GetRecord(k);
    if RowDone(existing) { return true; }
    if existing.None? {
      if a.rival.Some? { table.OtherWriter(k, a.rival.value); }
      var inserted := table.UpsertRecord(k, Publisher, Pending);
      if inserted == Some(false) {
        table.SetRecordRole(k, Seeder);
        ok := FinishCrossSeed(table, k, a);
        return ok;
      }
    }
    ok := Publish(table, k, a);
  }

  /** From the call of adapter.Publish on. */
  method Publish(table: RecordTable, k: Key, a: Answers) returns (ok: bool)
    requires k in table.rows
    modifies table
    ensures (Lookup(table.rows, k), Finished(ok)) == Alone(Lookup(old(table.rows), k), Calling, a)
    ensures forall j :: j != k ==> Lookup(table.rows, j) == Lookup(old(table.rows), j)
  {
    match a.publish
    case PublishedOk =>
      table.MarkPublishedAt(k, a.now);
      ok := true;
    case NotOk =>
      var w := table.UpdateRecordAttempt(k, Failed, "error");
      ok := false;
    case Duplicate =>
      table.SetRecordRole(k, Seeder);
      ok := FinishCrossSeed(table, k, a);
    case OtherError =>
      var w := table.UpdateRecordAttempt(k, Failed, "error");
      ok := false;
  }

  method FinishCrossSeed(table: RecordTable, k: Key, a: Answers) returns (ok: bool)
    modifies table
    ensures (Lookup(table.rows, k), Finished(ok)) == Alone(Lookup(old(table.rows), k), Joining, a)
    ensures forall j :: j != k ==> Lookup(table.rows, j) == Lookup(old(table.rows), j)
  {
    if !a.cross {
      var w := table.UpdateRecordAttempt(k, Failed, "error");
      return false;
    }
    var w := table.UpdateRecordStatus(k, CrossSeeding, "");
    return true;
  }

  /** pendingTargets; `listed` is whether the records could be read. */
  method PendingTargets(table: RecordTable, seed: int, targets: seq<int>, listed: bool) returns (out: seq<int>)
    ensures listed ==> out == Undone(table.rows, seed, targets)
    ensures !listed ==> out == targets
    ensures listed ==> forall t :: t in out <==> t in targets && StillToDo(table.rows, seed, t)
  {
    if !listed { return targets; }
    var at := UndoneMeans(table.rows, seed, targets);
    out := [];
    for i := 0 to |targets|
      invariant out == Undone(table.rows, seed, targets[..i])
    {
      assert targets[..i + 1][..i] == targets[..i];
      var r := table.GetRecord((seed, targets[i]));
      if !RowDone(r) { out := out + [targets[i]]; }
    }
    assert targets[..|targets|] == targets;
  }

  function Undone(rows: map<Key, Row>, seed: int, targets: seq<int>): seq<int> {
    if targets == [] then []
    else
      var last := targets[|targets| - 1];
      Undone(rows, seed, targets[..|targets| - 1]) + if RowDone(Lookup(rows, (seed, last))) then [] else [last]
  }

  /** No record, or one that says neither published, cross-seeding, seeding nor retired. */
  predicate StillToDo(rows: map<Key, Row>, seed: int, t: int) {
    (seed, t) in rows ==>
      var s := rows[(seed, t)].status;
      s != Published && s != CrossSeeding && s != Seeding && s != Retired
  }

  /** The targets at the places `at`, in order, which are the places of those still to do. */
  ghost predicate Picks(rows: map<Key, Row>, seed: int, targets: seq<int>, out: seq<int>, at: seq<nat>) {
    && Selects(targets, t => StillToDo(rows, seed, t), at)
    && |out| == |at| && forall i :: 0 <= i < |at| ==> out[i] == targets[at[i]]
  }

  lemma {:induction false} UndoneMeans(rows: map<Key, Row>, seed: int, targets: seq<int>) returns (at: seq<nat>)
    ensures Picks(rows, seed, targets, Undone(rows, seed, targets), at)
    ensures forall t :: t in Undone(rows, seed, targets) <==> t in targets && StillToDo(rows, seed, t)
  {
    hide Selects, StillToDo;
    if targets == [] {
      at := [];
      SelectsNone((t: int) => StillToDo(rows, seed, t));
    } else {
      var n := |targets| - 1;
      var init, last := targets[..n], targets[n];
      at := UndoneMeans(rows, seed, init);
      assert targets == init + [last];
      SelectsSnoc(init, last, t => StillToDo(rows, seed, t), at);
      StillIs(rows, seed, last);
      if StillToDo(rows, seed, last) { at := at + [n]; }
    }
  }

  lemma StillIs(rows: map<Key, Row>, seed: int, t: int)
    ensures StillToDo(rows, seed, t) <==> !RowDone(Lookup(rows, (seed, t)))
  {
  }

  /** The records of one seed, by target. */
  ghost predicate RowsOf(rows: map<Key, Row>, seed: int, of: map<int, Row>) {
    forall t :: (t in of <==> (seed, t) in rows) && (t in of ==> of[t] == rows[(seed, t)])
  }

  // ------------------------------------------------------------- attempts

  datatype Result = AllDone | PartialFailure(failed: set<int>) | AllFailed | Skipped | Broken

  /** `rows` are the records of the seed by target, `pcs` the goroutines of the running
      attempt, `listed` whether it could read the records when it began, `published` the
      targets whose Publish succeeded, in order, `results` what Relay returned so far. */
  datatype World = World(rows: map<int, Row>, pcs: map<int, Pc>, running: bool, listed: bool,
                         published: seq<int>, results: seq<Result>)

  datatype Move =
    | BeginAttempt(listed: bool)
    | GiveUp(result: Result)
    | Go(target: int, a: Answers)
    | EndAttempt

  function RowAt(w: World, t: int): Option<Row> {
    if t in w.rows then Some(w.rows[t]) else None
  }

  predicate DoneAt(w: World, t: int) { RowDone(RowAt(w, t)) }

  function PendingSet(targets: set<int>, w: World, listed: bool): set<int> {
    if listed then set t | t in targets && !DoneAt(w, t) else targets
  }

  /** There is no other writer. GiveUp stands for what happens before any target is touched: a source that cannot
      be read, a failed download, the promotion filter. */
  predicate Enabled(targets: set<int>, w: World, m: Move) {
    match m
    case BeginAttempt(_) => !w.running && targets != {}
    case GiveUp(r) => !w.running && r in {Skipped, Broken}
    case Go(t, a) => w.running && t in w.pcs && !w.pcs[t].Finished? && a.rival.None?
    case EndAttempt => w.running && forall t :: t in w.pcs ==> w.pcs[t].Finished?
  }

  /** Relay's classification of the targets it attempted. */
  function Classified(pcs: map<int, Pc>): Result {
    var failed := set t | t in pcs && pcs[t] == Finished(false);
    if failed == {} then AllDone
    else if |failed| < |pcs| then PartialFailure(failed)
    else AllFailed
  }

  function Next(targets: set<int>, w: World, m: Move): World
    requires Enabled(targets, w, m)
  {
    match m
    case BeginAttempt(listed) =>
      w.(pcs := map t | t in PendingSet(targets, w, listed) :: Waiting, running := true, listed := listed)
    case GiveUp(r) => w.(results := w.results + [r])
    case Go(t, a) =>
      var (row, pc) := Step(RowAt(w, t), w.pcs[t], a);
      w.(rows := if row.Some? then w.rows[t := row.value] else w.rows,
         pcs := w.pcs[t := pc],
         published := if w.pcs[t] == Calling && pc == Noting(true) then w.published + [t] else w.published)
    case EndAttempt => w.(running := false, results := w.results + [Classified(w.pcs)])
  }

  /** The attempt starts a goroutine for each target that pendingTargets returns. */
  lemma {:induction false} PendingStarted(rows: map<Key, Row>, seed: int, targets: seq<int>, w: World, listed: bool)
    requires RowsOf(rows, seed, w.rows) && Enabled((set t | t in targets), w, BeginAttempt(listed))
    ensures var out := if listed then Undone(rows, seed, targets) else targets;
      Next((set t | t in targets), w, BeginAttempt(listed)).pcs == map t | t in out :: Waiting
  {
    var at := UndoneMeans(rows, seed, targets);
    var all := set t | t in targets;
    forall t ensures t in PendingSet(all, w, listed) <==> t in if listed then Undone(rows, seed, targets) else targets {
      assert StillToDo(rows, seed, t) <==> !DoneAt(w, t);
    }
  }

  ghost predicate Legal(targets: set<int>, w: World, moves: seq<Move>)
    decreases |moves|
  {
    moves == [] || (Enabled(targets, w, moves[0]) && Legal(targets, Next(targets, w, moves[0]), moves[1..]))
  }

  ghost function Run(targets: set<int>, w: World, moves: seq<Move>): World
    requires Legal(targets, w, moves)
    decreases |moves|
  {
    if moves == [] then w else Run(targets, Next(targets, w, moves[0]), moves[1..])
  }

  /** A chain starts with whatever records the seed has. */
  function Fresh(rows: map<int, Row>): World { World(rows, map[], false, true, [], []) }

  // ------------------------------------------------------------ invariant

  predicate Busy(pc: Pc) { pc.Calling? || pc.Noting? || pc.Demoting? || pc.Joining? || pc.NotingJoin? }

  /** How a goroutine stands to its record. */
  predicate Fits(row: Option<Row>, pc: Pc, listed: bool) {
    && (pc.Claiming? ==> row.None?)
    && (Busy(pc) ==> row.Some? && !RowDone(row))
    && (pc == Finished(true) ==> RowDone(row))
    && (listed && pc != Finished(true) ==> !RowDone(row))
  }

  ghost predicate InStep(w: World, t: int)
    requires t in w.pcs
  {
    Fits(RowAt(w, t), w.pcs[t], w.listed)
  }

  lemma StepFits(row: Option<Row>, pc: Pc, a: Answers, listed: bool)
    requires Fits(row, pc, listed) && a.rival.None? && !pc.Finished?
    ensures var (after, p) := Step(row, pc, a);
      && Fits(after, p, listed)
      && (row.Some? ==> after.Some?)
      && (RowDone(row) ==> RowDone(after))
      && (pc == Noting(true) ==> RowDone(after))
      && (p == Noting(true) ==> pc == Calling && !RowDone(row))
  {
  }

  ghost predicate Inv(targets: set<int>, w: World) {
    && w.pcs.Keys <= targets
    && (forall t :: t in w.pcs ==> InStep(w, t) && (w.running || w.pcs[t].Finished?))
    && (w.running ==> forall t :: t in targets && t !in w.pcs ==> DoneAt(w, t))
    && (forall i, j :: 0 <= i < j < |w.published| ==> w.published[i] != w.published[j])
    && (forall t :: t in w.published ==> DoneAt(w, t) || (t in w.pcs && w.pcs[t] == Noting(true)))
    && (forall t :: t in w.pcs && w.pcs[t] == Noting(true) ==> t in w.published)
  }

  lemma GoKeepsInv(targets: set<int>, w: World, t: int, a: Answers)
    requires Inv(targets, w) && Enabled(targets, w, Go(t, a))
    ensures Inv(targets, Next(targets, w, Go(t, a)))
    ensures forall u :: DoneAt(w, u) ==> DoneAt(Next(targets, w, Go(t, a)), u)
  {
    hide Step, Fits;
    var v := Next(targets, w, Go(t, a));
    assert InStep(w, t);
    StepFits(RowAt(w, t), w.pcs[t], a, w.listed);
    assert RowAt(v, t) == Step(RowAt(w, t), w.pcs[t], a).0;
    forall u | u != t ensures DoneAt(v, u) == DoneAt(w, u) && RowAt(v, u) == RowAt(w, u) {}
    forall u | u in v.pcs ensures InStep(v, u) { assert InStep(w, u); }
  }

  lemma BeginKeepsInv(targets: set<int>, w: World, listed: bool)
    requires Inv(targets, w) && Enabled(targets, w, BeginAttempt(listed))
    ensures Inv(targets, Next(targets, w, BeginAttempt(listed)))
  {
    var v := Next(targets, w, BeginAttempt(listed));
    forall t ensures DoneAt(v, t) == DoneAt(w, t) {}
    forall t | t in v.pcs ensures InStep(v, t) {}
    forall t | t in w.published ensures DoneAt(v, t) { assert t in w.pcs ==> InStep(w, t); }
  }

  lemma SameInv(targets: set<int>, w: World, v: World)
    requires Inv(targets, w)
    requires v.rows == w.rows && v.pcs == w.pcs && v.published == w.published && v.listed == w.listed
    requires v.running == w.running || (!v.running && forall t :: t in w.pcs ==> w.pcs[t].Finished?)
    ensures Inv(targets, v)
  {
    forall t ensures DoneAt(v, t) == DoneAt(w, t) {}
    forall t | t in v.pcs ensures InStep(v, t) { assert InStep(w, t); }
  }

  lemma {:induction false} MoveKeepsInv(targets: set<int>, w: World, m: Move)
    requires Inv(targets, w) && Enabled(targets, w, m)
    ensures Inv(targets, Next(targets, w, m))
    ensures forall t :: DoneAt(w, t) ==> DoneAt(Next(targets, w, m), t)
  {
    hide Inv, Step;
    match m
    case BeginAttempt(listed) => BeginKeepsInv(targets, w, listed);
    case GiveUp(r) => SameInv(targets, w, Next(targets, w, m));
    case Go(t, a) => GoKeepsInv(targets, w, t, a);
    case EndAttempt => SameInv(targets, w, Next(targets, w, m));
  }

  lemma {:induction false} RunKeepsInv(targets: set<int>, w: World, moves: seq<Move>)
    requires Inv(targets, w) && Legal(targets, w, moves)
    ensures Inv(targets, Run(targets, w, moves))
    ensures forall t :: DoneAt(w, t) ==> DoneAt(Run(targets, w, moves), t)
    decreases |moves|
  {
    hide Inv, Next, Enabled, DoneAt;
    if moves != [] {
      MoveKeepsInv(targets, w, moves[0]);
      RunKeepsInv(targets, Next(targets, w, moves[0]), moves[1..]);
    }
  }

  // ------------------------------------------------------------ main results

  /** Over all attempts of a chain and all interleavings of their goroutines: targets once
      done stay done, and each target has at most one successful Publish. */
  lemma {:induction false} ChainSafe(targets: set<int>, rows: map<int, Row>, moves: seq<Move>, more: seq<Move>)
    requires Legal(targets, Fresh(rows), moves)
    requires Legal(targets, Run(targets, Fresh(rows), moves), more)
    ensures var w := Run(targets, Fresh(rows), moves);
      var v := Run(targets, w, more);
      && Inv(targets, w)
      && (forall t :: DoneAt(w, t) ==> DoneAt(v, t))
      && (forall i, j :: 0 <= i < j < |v.published| ==> v.published[i] != v.published[j])
  {
    hide Step, Legal, Run;
    assert Inv(targets, Fresh(rows));
    RunKeepsInv(targets, Fresh(rows), moves);
    RunKeepsInv(targets, Run(targets, Fresh(rows), moves), more);
  }

  /** Publish is never called for a target that is done, nor for one it already succeeded for. */
  lemma {:induction false} PublishOnlyUndone(targets: set<int>, w: World, t: int, a: Answers)
    requires Inv(targets, w) && Enabled(targets, w, Go(t, a)) && w.pcs[t] == Calling
    ensures !DoneAt(w, t) && t !in w.published
  {
    assert InStep(w, t);
  }

  lemma FailedShare(pcs: map<int, Pc>)
    ensures var failed := set t | t in pcs && pcs[t] == Finished(false);
      |failed| < |pcs| <==> failed != pcs.Keys
  {
    var failed := set t | t in pcs && pcs[t] == Finished(false);
    var others := pcs.Keys - failed;
    assert pcs.Keys == failed + others;
    assert |pcs.Keys| == |failed| + |others|;
  }

  /** What Relay returns at the end of an attempt. Nil means every enabled target is done.
      With the records read at the start, a partial failure names exactly the attempted
      targets still not done, some but not all of them; a total failure, all of them. */
  lemma {:induction false} AttemptResult(targets: set<int>, w: World)
    requires Inv(targets, w) && Enabled(targets, w, EndAttempt)
    ensures var r := Classified(w.pcs);
      var undone := set t | t in w.pcs && !DoneAt(w, t);
      && (r == AllDone ==> forall t :: t in targets ==> DoneAt(w, t))
      && (w.listed ==>
            && (r == AllDone <==> undone == {})
            && (r.PartialFailure? <==> {} < undone < w.pcs.Keys)
            && (r.PartialFailure? ==> r.failed == undone)
            && (r == AllFailed <==> undone == w.pcs.Keys && undone != {}))
      && (r.PartialFailure? ==> undone <= r.failed)
  {
    hide Step;
    FailedShare(w.pcs);
    var failed := set t | t in w.pcs && w.pcs[t] == Finished(false);
    var undone := set t | t in w.pcs && !DoneAt(w, t);
    forall t | t in w.pcs ensures InStep(w, t) && (w.pcs[t] == Finished(true) || w.pcs[t] == Finished(false)) {}
    forall t | t in targets && failed == {} ensures DoneAt(w, t) {
      if t in w.pcs { assert t !in failed; }
    }
    assert undone <= failed;
    assert w.listed ==> undone == failed;
  }

  // ------------------------------------------------- records left unread

  /** The targets an attempt counts as failed, and those it attempted that are not done. */
  function FailedSet(w: World): set<int> { set t | t in w.pcs && w.pcs[t] == Finished(false) }

  function UndoneSet(w: World): set<int> { set t | t in w.pcs && !DoneAt(w, t) }

  ghost predicate Within(moves: seq<Move>) { forall i :: 0 <= i < |moves| ==> moves[i].Go? }

  /** Whether the records were read does not matter to the goroutines. */
  lemma {:induction false} SameMoves(targets: set<int>, w: World, moves: seq<Move>)
    requires Legal(targets, w, moves) && Within(moves)
    ensures var v := w.(listed := true);
      Legal(targets, v, moves) && Run(targets, v, moves) == Run(targets, w, moves).(listed := true)
    ensures Run(targets, w, moves).running == w.running && Run(targets, w, moves).listed == w.listed
    decreases |moves|
  {
    hide Step;
    if moves != [] { SameMoves(targets, Next(targets, w, moves[0]), moves[1..]); }
  }

  /** With the records read, or nothing done that they could have told, failed means not done. */
  lemma {:induction false} FailedExact(targets: set<int>, w: World, listed: bool, moves: seq<Move>)
    requires Inv(targets, w) && Enabled(targets, w, BeginAttempt(listed))
    requires listed || forall t :: t in targets ==> !DoneAt(w, t)
    requires var b := Next(targets, w, BeginAttempt(listed)); Legal(targets, b, moves) && Within(moves)
    requires Enabled(targets, Run(targets, Next(targets, w, BeginAttempt(listed)), moves), EndAttempt)
    ensures var v := Run(targets, Next(targets, w, BeginAttempt(listed)), moves); FailedSet(v) == UndoneSet(v)
  {
    var b := Next(targets, w, BeginAttempt(listed));
    var c := Next(targets, w, BeginAttempt(true));
    assert PendingSet(targets, w, listed) == PendingSet(targets, w, true);
    assert c == b.(listed := true);
    SameMoves(targets, b, moves);
    BeginKeepsInv(targets, w, true);
    RunKeepsInv(targets, c, moves);
    var v, u := Run(targets, b, moves), Run(targets, c, moves);
    assert u == v.(listed := true);
    forall t | t in u.pcs ensures u.pcs[t] == Finished(false) <==> !DoneAt(u, t) { assert InStep(u, t); }
    forall t ensures DoneAt(u, t) == DoneAt(v, t) {}
  }

  /** The answer of a site that cannot be set up. */
  const NO_SETUP := Answers(false, false, None, OtherError, false, 0)

  lemma {:induction false} FailAll(targets: set<int>, w: World, left: set<int>) returns (moves: seq<Move>)
    requires w.running && left <= w.pcs.Keys
    requires forall t :: t in w.pcs ==> w.pcs[t] == if t in left then Waiting else Finished(false)
    ensures Legal(targets, w, moves) && Within(moves)
    ensures var v := Run(targets, w, moves);
      v.running && v.rows == w.rows && v.pcs == map t | t in w.pcs :: Finished(false)
    decreases left
  {
    if t :| t in left {
      var v := Next(targets, w, Go(t, NO_SETUP));
      assert RowAt(w, t).Some? ==> v.rows == w.rows;
      var rest := FailAll(targets, v, left - {t});
      moves := [Go(t, NO_SETUP)] + rest;
      assert moves[1..] == rest;
    } else {
      moves := [];
      forall t | t in w.pcs ensures w.pcs[t] == Finished(false) { assert t !in left; }
    }
  }

  /** With the records unread and a target done, there is a run of the attempt that reports
      failure for all targets, that one among them. */
  lemma {:induction false} UnlistedMiscount(targets: set<int>, w: World, done: int) returns (moves: seq<Move>)
    requires Enabled(targets, w, BeginAttempt(false)) && done in targets && DoneAt(w, done)
    ensures var b := Next(targets, w, BeginAttempt(false));
      && Legal(targets, b, moves) && Within(moves)
      && (var v := Run(targets, b, moves);
          && Enabled(targets, v, EndAttempt)
          && Classified(v.pcs) == AllFailed
          && done in FailedSet(v) && done !in UndoneSet(v))
  {
    hide Step;
    var b := Next(targets, w, BeginAttempt(false));
    moves := FailAll(targets, b, targets);
    var v := Run(targets, b, moves);
    FailedShare(v.pcs);
    assert FailedSet(v) == v.pcs.Keys;
    assert done in v.pcs && RowAt(v, done) == RowAt(w, done);
  }

  /** The targets an attempt counts as failed are those it attempted and did not get done, on
      every run of it, exactly when it could read the records or no target was done before. */
  lemma {:induction false} FailedExactIff(targets: set<int>, w: World, listed: bool)
    requires Inv(targets, w) && Enabled(targets, w, BeginAttempt(listed))
    ensures var b := Next(targets, w, BeginAttempt(listed));
      (forall moves :: Legal(targets, b, moves) && Within(moves) && Enabled(targets, Run(targets, b, moves), EndAttempt)
         ==> FailedSet(Run(targets, b, moves)) == UndoneSet(Run(targets, b, moves)))
      <==> listed || forall t :: t in targets ==> !DoneAt(w, t)
  {
    hide Legal, Run, Inv, Next, Classified, DoneAt, FailedSet, UndoneSet;
    var b := Next(targets, w, BeginAttempt(listed));
    if listed || forall t :: t in targets ==> !DoneAt(w, t) {
      forall moves | Legal(targets, b, moves) && Within(moves) && Enabled(targets, Run(targets, b, moves), EndAttempt)
        ensures FailedSet(Run(targets, b, moves)) == UndoneSet(Run(targets, b, moves))
      {
        FailedExact(targets, w, listed, moves);
      }
    } else {
      var done :| done in targets && DoneAt(w, done);
      var moves := UnlistedMiscount(targets, w, done);
    }
  }

  predicate Reached(row: Option<Row>, a: Answers) {
    if row.None? && a.rival.Some? then a.cross
    else a.publish == PublishedOk || (a.publish == Duplicate && a.cross)
  }

  /** Run alone, a goroutine reports its target done exactly when the record then says so,
      unless it stopped before looking; it leaves a done record as it was; and an undone
      one becomes done exactly by a publish, or by joining the swarm when the site knows
      the torrent already or another instance claimed the target first. */
  lemma {:induction false} AloneMeans(row: Option<Row>, a: Answers)
    ensures var (after, pc) := Alone(row, Waiting, a);
      && pc.Finished?
      && (RowDone(row) ==> after == row && (pc.ok <==> a.setup && a.read))
      && (!RowDone(row) ==>
            (pc.ok <==> RowDone(after) && a.setup && a.read)
            && (pc.ok <==> a.setup && a.read && Reached(row, a)))
  {
    if a.setup && a.read && !RowDone(row) {
      var (r, p) := Step(row, Reading, a);
      if p == Claiming {
        var (s, q) := Step(r, p, a);
        assert Alone(row, Waiting, a) == Alone(s, q, a);
        AloneOn(s, q, a);
      } else {
        assert Alone(row, Waiting, a) == Alone(r, p, a);
        AloneOn(r, p, a);
      }
    }
  }

  /** What an undone target's record is after such a run: that of the claim, of another instance
      or of an earlier attempt, with the status, the error and the role the answers lead to, one
      more attempt after a failure, and the time of the first publish. */
  lemma {:induction false} AloneRow(row: Option<Row>, a: Answers)
    requires a.setup && a.read && !RowDone(row)
    ensures var (after, pc) := Alone(row, Waiting, a);
      var was := if row.Some? then row.value
                 else if a.rival.Some? then a.rival.value
                 else Row(Publisher, Pending, 0, "", 0, 0, "");
      var joins := (row.None? && a.rival.Some?) || a.publish == Duplicate;
      var ok := if joins then a.cross else a.publish == PublishedOk;
      && pc == Finished(ok) && after.Some?
      && after.value == Row(
           if joins then Seeder else was.role,
           if !ok then Failed else if joins then CrossSeeding else Published,
           if ok then was.attempts else was.attempts + 1,
           if ok then "" else "error",
           if ok && !joins && was.publishedAt == 0 then a.now else was.publishedAt,
           was.retiredAt, was.retireReason)
  {
    var (r, p) := Step(row, Reading, a);
    if p == Claiming {
      var (s, q) := Step(r, p, a);
      assert Alone(row, Waiting, a) == Alone(s, q, a);
      if q == Calling { PublishRow(s, a); }
      JoinRow(s, a);
    } else {
      assert Alone(row, Waiting, a) == Alone(r, p, a);
      PublishRow(r, a);
      JoinRow(r, a);
    }
  }

  lemma {:induction false} JoinRow(row: Option<Row>, a: Answers)
    requires row.Some?
    ensures var r := row.value;
      Alone(row, Demoting, a)
      == (Some(Row(Seeder, if a.cross then CrossSeeding else Failed, if a.cross then r.attempts else r.attempts + 1,
                   if a.cross then "" else "error", r.publishedAt, r.retiredAt, r.retireReason)), Finished(a.cross))
  {
  }

  lemma {:induction false} PublishRow(row: Option<Row>, a: Answers)
    requires row.Some?
    ensures var r := row.value;
      var ok := a.publish == PublishedOk;
      Alone(row, Calling, a)
      == if a.publish == Duplicate then Alone(row, Demoting, a)
         else (Some(Row(r.role, if ok then Published else Failed, if ok then r.attempts else r.attempts + 1,
                        if ok then "" else "error", if ok && r.publishedAt == 0 then a.now else r.publishedAt,
                        r.retiredAt, r.retireReason)), Finished(ok))
  {
  }

  lemma {:induction false} AloneOn(row: Option<Row>, pc: Pc, a: Answers)
    requires row.Some? && (pc == Calling || pc == Demoting)
    ensures var (after, end) := Alone(row, pc, a);
      && end.Finished? && (end.ok <==> RowDone(after))
      && (end.ok <==> if pc == Demoting then a.cross else a.publish == PublishedOk || (a.publish == Duplicate && a.cross))
  {
  }
}
