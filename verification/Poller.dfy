/** The poller's dedup sequence: one goroutine that, for each RSS item, looks up the
    tombstone, writes it, looks up the seed, creates it and hands it to the workers.
    Between any two of these calls seeds may be deleted, the process may be killed, and
    the database may be replaced by a snapshot; any call may fail. */
module Poller {
  import opened Seeds

  type Key = (string, string)

  datatype Pc = Resting | Looking(k: Key) | Marking(k: Key) | Checking(k: Key) | Creating(k: Key) | Handing(k: Key)

  /** `seen` are the tombstones, `seeds` the keys of the seeds table, `created` the rows the
      poller put in and `queued` the seeds it handed over, in order. */
  datatype World = World(seen: set<Key>, seeds: set<Key>, pc: Pc, created: seq<Key>, queued: seq<Key>)

  const START := World({}, {}, Resting, [], [])

  /** Whether a call succeeds, and whether a failed write was written all the same. */
  datatype Answer = Answer(ok: bool, written: bool)

  /** A restore puts the database file of a snapshot in place, tombstones and seeds alike,
      before the process runs again. */
  datatype Step = Item(k: Key) | Call(a: Answer) | Delete(k: Key) | Restore(seen: set<Key>, seeds: set<Key>) | Restart

  predicate Enabled(w: World, step: Step) {
    match step
    case Item(_) => w.pc.Resting?
    case Call(_) => !w.pc.Resting?
    case _ => true
  }

  /** One call of ingestItem. A job that is not taken is dropped. */
  function Called(w: World, a: Answer): World {
    match w.pc
    case Resting => w
    case Looking(k) => w.(pc := if a.ok && k !in w.seen then Marking(k) else Resting)
    case Marking(k) =>
      w.(seen := if a.ok || a.written then w.seen + {k} else w.seen, pc := if a.ok then Checking(k) else Resting)
    case Checking(k) => w.(pc := if a.ok && k !in w.seeds then Creating(k) else Resting)
    case Creating(k) =>
      var v := if (a.ok || a.written) && k !in w.seeds then w.(seeds := w.seeds + {k}, created := w.created + [k]) else w;
      v.(pc := if a.ok then Handing(k) else Resting)
    case Handing(k) => w.(queued := if a.ok then w.queued + [k] else w.queued, pc := Resting)
  }

  function Next(w: World, step: Step): World
    requires Enabled(w, step)
  {
    match step
    case Item(k) => w.(pc := Looking(k))
    case Call(a) => Called(w, a)
    case Delete(k) => w.(seeds := w.seeds - {k})
    case Restore(seen, seeds) => w.(seen := seen, seeds := seeds, pc := Resting)
    case Restart => w.(pc := Resting)
  }

  ghost predicate Legal(w: World, steps: seq<Step>)
    decreases |steps|
  {
    steps == [] || (Enabled(w, steps[0]) && Legal(Next(w, steps[0]), steps[1..]))
  }

  ghost function Run(w: World, steps: seq<Step>): World
    requires Legal(w, steps)
    decreases |steps|
  {
    if steps == [] then w else Run(Next(w, steps[0]), steps[1..])
  }

  // ---------------------------------------------------- counting by key

  function Count(keys: seq<Key>, k: Key): nat { multiset(keys)[k] }

  predicate At(pc: Pc, k: Key) { !pc.Resting? && pc.k == k }

  /** The step is a restore that takes the tombstone of `k` away. */
  predicate Loses(w: World, step: Step, k: Key) {
    step.Restore? && k in w.seen && k !in step.seen
  }

  /** How many restores of the run take the tombstone of `k` away. */
  ghost function Losses(w: World, steps: seq<Step>, k: Key): nat
    requires Legal(w, steps)
    decreases |steps|
  {
    if steps == [] then 0
    else
      var n := Losses(Next(w, steps[0]), steps[1..], k);
      if Loses(w, steps[0], k) then n + 1 else n
  }

  /** The poller writes a tombstone that is missing, and works on a seed under its tombstone. */
  predicate Tied(w: World) {
    && (w.pc.Marking? ==> w.pc.k !in w.seen)
    && (w.pc.Checking? || w.pc.Creating? || w.pc.Handing? ==> w.pc.k in w.seen)
  }

  /** `k` can still be created: it has no tombstone, or is past it and on its way. */
  predicate Creatable(w: World, k: Key) {
    k !in w.seen || ((w.pc.Checking? || w.pc.Creating?) && w.pc.k == k)
  }

  /** `k` can still be handed over. */
  predicate Handable(w: World, k: Key) {
    k !in w.seen || ((w.pc.Checking? || w.pc.Creating? || w.pc.Handing?) && w.pc.k == k)
  }

  function One(b: bool): nat { if b then 1 else 0 }

  /** A creation and a hand-over each use up the one chance a missing tombstone gives, and
      only a restore that takes the tombstone away gives another. */
  lemma {:induction false} StepBounded(w: World, step: Step, k: Key)
    requires Tied(w) && Enabled(w, step)
    ensures var v := Next(w, step);
      && Tied(v)
      && Count(v.created, k) + One(Creatable(v, k)) <= Count(w.created, k) + One(Creatable(w, k)) + One(Loses(w, step, k))
      && Count(v.queued, k) + One(Handable(v, k)) <= Count(w.queued, k) + One(Handable(w, k)) + One(Loses(w, step, k))
      && w.created <= v.created && w.queued <= v.queued
      && (!step.Restore? ==> w.seen <= v.seen)
  {
  }

  lemma {:induction false} RunBounded(w: World, steps: seq<Step>, k: Key)
    requires Tied(w) && Legal(w, steps)
    ensures var v := Run(w, steps);
      var n := Losses(w, steps, k);
      && Tied(v)
      && Count(v.created, k) + One(Creatable(v, k)) <= Count(w.created, k) + One(Creatable(w, k)) + n
      && Count(v.queued, k) + One(Handable(v, k)) <= Count(w.queued, k) + One(Handable(w, k)) + n
    decreases |steps|
  {
    hide Next, Enabled, Tied, Creatable, Handable, Loses, Count;
    if steps != [] {
      StepBounded(w, steps[0], k);
      RunBounded(Next(w, steps[0]), steps[1..], k);
    }
  }

  // ------------------------------------------------------------ main results

  /** Over any polls, deletions, restores, failures and restarts, a (source, hash) is created
      and handed over once, and once more at most for each restore that takes its tombstone away. */
  lemma {:induction false} OncePerLoss(steps: seq<Step>, k: Key)
    requires Legal(START, steps)
    ensures Count(Run(START, steps).created, k) <= 1 + Losses(START, steps, k)
    ensures Count(Run(START, steps).queued, k) <= 1 + Losses(START, steps, k)
  {
    RunBounded(START, steps, k);
  }

  predicate Distinct(keys: seq<Key>) { forall i, j :: 0 <= i < j < |keys| ==> keys[i] != keys[j] }

  lemma {:induction false} DistinctIf(keys: seq<Key>)
    requires forall k :: Count(keys, k) <= 1
    ensures Distinct(keys)
  {
    forall i, j | 0 <= i < j < |keys| ensures keys[i] != keys[j] {
      assert keys == keys[..i] + [keys[i]] + keys[i + 1..j] + [keys[j]] + keys[j + 1..];
      assert Count(keys, keys[i]) <= 1;
    }
  }

  /** Over any run whose restores keep every tombstone written so far, each (source, hash) is
      created at most once and handed over at most once, and only under its tombstone. */
  lemma {:induction false} AtMostOnce(steps: seq<Step>)
    requires Legal(START, steps) && forall k :: Losses(START, steps, k) == 0
    ensures Distinct(Run(START, steps).created) && Distinct(Run(START, steps).queued)
    ensures forall k :: k in Run(START, steps).created || k in Run(START, steps).queued ==> k in Run(START, steps).seen
  {
    var v := Run(START, steps);
    forall k ensures Count(v.created, k) <= 1 && Count(v.queued, k) <= 1 { RunBounded(START, steps, k); }
    DistinctIf(v.created);
    DistinctIf(v.queued);
    forall k | k in v.created || k in v.queued ensures k in v.seen {
      RunBounded(START, steps, k);
      assert Count(v.created, k) > 0 || Count(v.queued, k) > 0;
    }
  }

  /** As long as no restore takes its tombstone away, a tombstoned key the poller is not at
      work on is not created or handed over again: one that was dropped at hand-over stays out. */
  lemma {:induction false} NotAgainWhileKept(w: World, steps: seq<Step>, k: Key)
    requires Tied(w) && Legal(w, steps) && Losses(w, steps, k) == 0
    requires k in w.seen && !At(w.pc, k)
    ensures Count(Run(w, steps).created, k) == Count(w.created, k)
    ensures Count(Run(w, steps).queued, k) == Count(w.queued, k)
  {
    RunBounded(w, steps, k);
    RunGrows(w, steps, k);
  }

  lemma {:induction false} RunGrows(w: World, steps: seq<Step>, k: Key)
    requires Tied(w) && Legal(w, steps)
    ensures Count(w.created, k) <= Count(Run(w, steps).created, k) && Count(w.queued, k) <= Count(Run(w, steps).queued, k)
    decreases |steps|
  {
    hide Next, Enabled, Tied, Creatable, Handable, Loses;
    if steps != [] {
      var v := Next(w, steps[0]);
      StepBounded(w, steps[0], k);
      assert v.created == w.created + v.created[|w.created|..] && v.queued == w.queued + v.queued[|w.queued|..];
      RunGrows(v, steps[1..], k);
    }
  }

  lemma {:induction false} OneMore(w: World, step: Step, rest: seq<Step>, k: Key)
    requires Enabled(w, step) && Legal(Next(w, step), rest)
    ensures Legal(w, [step] + rest) && Run(w, [step] + rest) == Run(Next(w, step), rest)
    ensures Losses(w, [step] + rest, k) == Losses(Next(w, step), rest, k) + One(Loses(w, step, k))
  {
    assert ([step] + rest)[1..] == rest;
  }

  const GOOD := Call(Answer(true, true))

  /** Item `k` polled with every call succeeding, its seed deleted before if there is one. */
  const ONCE: Key -> seq<Step> := k =>
    [Delete(k)] + ([Item(k)] + ([GOOD] + ([GOOD] + ([GOOD] + ([GOOD] + ([GOOD] + []))))))

  lemma {:induction false} PolledOnce(w: World, k: Key)
    requires w.pc.Resting? && k !in w.seen
    ensures Legal(w, ONCE(k)) && Losses(w, ONCE(k), k) == 0
    ensures Run(w, ONCE(k)) == World(w.seen + {k}, w.seeds + {k}, Resting, w.created + [k], w.queued + [k])
  {
    var w1 := Next(w, Delete(k));
    var w2 := Next(w1, Item(k));
    var w3 := Next(w2, GOOD);
    var w4 := Next(w3, GOOD);
    var w5 := Next(w4, GOOD);
    var w6 := Next(w5, GOOD);
    var w7 := Next(w6, GOOD);
    assert w.seeds - {k} + {k} == w.seeds + {k};
    hide Next, Run, Legal, Losses;
    Nothing(w7, k);
    OneMore(w6, GOOD, [], k);
    OneMore(w5, GOOD, [GOOD] + [], k);
    OneMore(w4, GOOD, [GOOD] + ([GOOD] + []), k);
    OneMore(w3, GOOD, [GOOD] + ([GOOD] + ([GOOD] + [])), k);
    OneMore(w2, GOOD, [GOOD] + ([GOOD] + ([GOOD] + ([GOOD] + []))), k);
    OneMore(w1, Item(k), [GOOD] + ([GOOD] + ([GOOD] + ([GOOD] + ([GOOD] + [])))), k);
    OneMore(w, Delete(k), [Item(k)] + ([GOOD] + ([GOOD] + ([GOOD] + ([GOOD] + ([GOOD] + []))))), k);
  }

  lemma {:induction false} Nothing(w: World, k: Key)
    ensures Legal(w, []) && Run(w, []) == w && Losses(w, [], k) == 0
  {
  }

  ghost predicate RestoreFree(steps: seq<Step>) { forall i :: 0 <= i < |steps| ==> !steps[i].Restore? }

  lemma {:induction false} RestoreFreeKeeps(w: World, steps: seq<Step>, k: Key)
    requires Legal(w, steps) && RestoreFree(steps)
    ensures Losses(w, steps, k) == 0
    decreases |steps|
  {
    if steps != [] { RestoreFreeKeeps(Next(w, steps[0]), steps[1..], k); }
  }

  /** After a restore a key can be created, or handed over, again exactly when the snapshot
      lacks its tombstone. */
  lemma {:induction false} AgainIff(w: World, seen: set<Key>, seeds: set<Key>, k: Key)
    ensures var v := Next(w, Restore(seen, seeds));
      && ((exists steps :: Legal(v, steps) && RestoreFree(steps) && Count(Run(v, steps).created, k) > Count(w.created, k))
            <==> k !in seen)
      && ((exists steps :: Legal(v, steps) && RestoreFree(steps) && Count(Run(v, steps).queued, k) > Count(w.queued, k))
            <==> k !in seen)
  {
    hide Legal, Run, Losses;
    var v := Next(w, Restore(seen, seeds));
    if k !in seen {
      PolledOnce(v, k);
      assert RestoreFree(ONCE(k));
    } else {
      forall steps | Legal(v, steps) && RestoreFree(steps)
        ensures Count(Run(v, steps).created, k) <= Count(w.created, k) && Count(Run(v, steps).queued, k) <= Count(w.queued, k)
      {
        RestoreFreeKeeps(v, steps, k);
        NotAgainWhileKept(v, steps, k);
      }
    }
  }

  lemma {:induction false} Concat(w: World, a: seq<Step>, b: seq<Step>, k: Key)
    requires Legal(w, a) && Legal(Run(w, a), b)
    ensures Legal(w, a + b) && Run(w, a + b) == Run(Run(w, a), b)
    ensures Losses(w, a + b, k) == Losses(w, a, k) + Losses(Run(w, a), b, k)
    decreases |a|
  {
    hide Next, Enabled, Loses;
    if a == [] {
      assert a + b == b;
    } else {
      assert (a + b)[1..] == a[1..] + b;
      Concat(Next(w, a[0]), a[1..], b, k);
    }
  }

  lemma {:induction false} RestoreGives(w: World, seen: set<Key>, seeds: set<Key>)
    ensures Next(w, Restore(seen, seeds)) == w.(seen := seen, seeds := seeds, pc := Resting)
  {
  }

  /** The bound is reached: a key can be created and handed over once more for every such
      restore, for any number of them. */
  lemma {:induction false} OnceMorePerLoss(k: Key, n: nat) returns (steps: seq<Step>)
    ensures Legal(START, steps) && Losses(START, steps, k) == n
    ensures Count(Run(START, steps).created, k) == n + 1 && Count(Run(START, steps).queued, k) == n + 1
    ensures Run(START, steps).pc.Resting? && k in Run(START, steps).seen
  {
    hide Legal, Run, Losses, Next;
    if n == 0 {
      PolledOnce(START, k);
      steps := ONCE(k);
    } else {
      var before := OnceMorePerLoss(k, n - 1);
      var w := Run(START, before);
      var snapshot := Restore({}, {});
      var v := w.(seen := {}, seeds := {});
      RestoreGives(w, {}, {});
      PolledOnce(v, k);
      OneMore(w, snapshot, ONCE(k), k);
      Concat(START, before, [snapshot] + ONCE(k), k);
      steps := before + ([snapshot] + ONCE(k));
    }
  }

  /** How many calls are left at most. */
  function Rank(pc: Pc): nat {
    match pc
    case Resting => 0 case Handing(_) => 1 case Creating(_) => 2 case Checking(_) => 3 case Marking(_) => 4 case Looking(_) => 5
  }

  function Drive(w: World, answers: Pc -> Answer): World
    decreases Rank(w.pc)
  {
    if w.pc.Resting? then w else Drive(Called(w, answers(w.pc)), answers)
  }

  lemma DriveStep(w: World, answers: Pc -> Answer)
    requires !w.pc.Resting?
    ensures Drive(w, answers) == Drive(Called(w, answers(w.pc)), answers)
  {
  }

  lemma DriveRests(w: World, answers: Pc -> Answer)
    requires w.pc.Resting?
    ensures Drive(w, answers) == w
  {
  }

  const WELL: Pc -> Answer := pc => Answer(true, true)

  /** When every call succeeds, an item is tombstoned, and created and handed over exactly
      when it had neither tombstone nor seed. */
  lemma {:induction false} WellDriven(w: World, k: Key)
    requires w.pc == Resting
    ensures var v := Drive(w.(pc := Looking(k)), WELL);
      && v.seen == w.seen + {k} && v.pc == Resting
      && (k !in w.seen && k !in w.seeds
          ==> v.seeds == w.seeds + {k} && v.created == w.created + [k] && v.queued == w.queued + [k])
      && (k in w.seen || k in w.seeds ==> v.seeds == w.seeds && v.created == w.created && v.queued == w.queued)
  {
    var a := Answer(true, true);
    var w1 := Called(w.(pc := Looking(k)), a);
    var w2 := Called(w1, a);
    var w3 := Called(w2, a);
    var w4 := Called(w3, a);
    var w5 := Called(w4, a);
    assert w5.pc == Resting;
    hide Drive;
    DriveStep(w.(pc := Looking(k)), WELL);
    if k !in w.seen {
      DriveStep(w1, WELL);
      DriveStep(w2, WELL);
      if k !in w.seeds {
        DriveStep(w3, WELL);
        DriveStep(w4, WELL);
      }
    }
    DriveRests(w5, WELL);
    assert k in w.seen ==> w.seen + {k} == w.seen;
  }

  /** Whatever the calls answer: an item is tombstoned, created and handed over exactly if every
      call before succeeded and found nothing, and this one was written, or taken. */
  lemma {:induction false} DrivenIff(w: World, k: Key, answers: Pc -> Answer)
    requires w.pc == Resting
    ensures var v := Drive(w.(pc := Looking(k)), answers);
      var mark, create := answers(Marking(k)), answers(Creating(k));
      var marks := answers(Looking(k)).ok && k !in w.seen;
      var creates := marks && mark.ok && answers(Checking(k)).ok && k !in w.seeds;
      && v.pc == Resting
      && v.seen == (if marks && (mark.ok || mark.written) then w.seen + {k} else w.seen)
      && v.created == (if creates && (create.ok || create.written) then w.created + [k] else w.created)
      && v.seeds == (if creates && (create.ok || create.written) then w.seeds + {k} else w.seeds)
      && v.queued == if creates && create.ok && answers(Handing(k)).ok then w.queued + [k] else w.queued
  {
    hide Drive;
    var w0 := w.(pc := Looking(k));
    var w1 := Called(w0, answers(w0.pc));
    DriveStep(w0, answers);
    if w1.pc.Resting? {
      DriveRests(w1, answers);
    } else {
      var w2 := Called(w1, answers(w1.pc));
      DriveStep(w1, answers);
      if w2.pc.Resting? { DriveRests(w2, answers); } else { DriveSeed(w2, k, answers); }
    }
  }

  lemma {:induction false} DriveSeed(w: World, k: Key, answers: Pc -> Answer)
    requires w.pc == Checking(k)
    ensures var v := Drive(w, answers);
      var create := answers(Creating(k));
      var creates := answers(Checking(k)).ok && k !in w.seeds;
      && v.pc == Resting && v.seen == w.seen
      && v.created == (if creates && (create.ok || create.written) then w.created + [k] else w.created)
      && v.seeds == (if creates && (create.ok || create.written) then w.seeds + {k} else w.seeds)
      && v.queued == if creates && create.ok && answers(Handing(k)).ok then w.queued + [k] else w.queued
  {
    hide Drive;
    var w1 := Called(w, answers(w.pc));
    DriveStep(w, answers);
    if w1.pc.Resting? {
      DriveRests(w1, answers);
    } else {
      var w2 := Called(w1, answers(w1.pc));
      DriveStep(w1, answers);
      if w2.pc.Resting? {
        DriveRests(w2, answers);
      } else {
        DriveStep(w2, answers);
        DriveRests(Called(w2, answers(w2.pc)), answers);
      }
    }
  }

  // ------------------------------------------------------------- ingestItem

  function KeysOf(rows: Rows): set<Key> {
    set i | i in rows :: (rows[i].site, rows[i].hash)
  }

  lemma KeysOfMore(rows: Rows, id: int, s: Seed)
    requires id !in rows
    ensures KeysOf(rows[id := s]) == KeysOf(rows) + {(s.site, s.hash)}
  {
    var more := rows[id := s];
    forall k | k in KeysOf(rows) ensures k in KeysOf(more) {
      var i :| i in rows && k == (rows[i].site, rows[i].hash);
      assert i in more && k == (more[i].site, more[i].hash);
    }
    assert id in more && (s.site, s.hash) == (more[id].site, more[id].hash);
  }

  lemma KeyIn(rows: Rows, id: int)
    requires id in rows
    ensures (rows[id].site, rows[id].hash) in KeysOf(rows)
  {
  }

  class Ingester {
    const seeds: SeedTable
    var seen: set<Key>
    var jobs: seq<int>
    ghost var created: seq<Key>
    ghost var queued: seq<Key>

    ghost function View(): World
      reads this, seeds
    {
      World(seen, KeysOf(seeds.rows), Resting, created, queued)
    }

    constructor (seeds: SeedTable)
      ensures this.seeds == seeds && View() == World({}, KeysOf(seeds.rows), Resting, [], []) && jobs == []
    {
      this.seeds := seeds;
      seen, jobs, created, queued := {}, [], [], [];
    }

    /** ingestItem, uninterrupted, for an item that passed the strategy filter. */
    method IngestItem(k: Key, answers: Pc -> Answer)
      requires seeds.Valid()
      modifies this, seeds
      ensures seeds.Valid()
      ensures View() == Drive(old(View()).(pc := Looking(k)), answers)
      ensures queued != old(queued)
        ==> |jobs| > 0 && jobs[|jobs| - 1] in seeds.rows
            && (seeds.rows[jobs[|jobs| - 1]].site, seeds.rows[jobs[|jobs| - 1]].hash) == k
    {
      hide Drive;
      ghost var w := View().(pc := Looking(k));
      ghost var w1 := Called(w, answers(Looking(k)));
      DriveStep(w, answers);
      if w1.pc.Resting? { DriveRests(w1, answers); }
      if !answers(Looking(k)).ok { return; }
      if k in seen { return; }
      var mark := answers(Marking(k));
      if mark.ok || mark.written { seen := seen + {k}; }
      ghost var w2 := Called(w1, mark);
      DriveStep(w1, answers);
      if !mark.ok {
        DriveRests(w2, answers);
        return;
      }
      DriveStep(w2, answers);
      DriveRests(View(), answers);
      if !answers(Checking(k)).ok { return; }
      var existing := seeds.FindByHash(k.0, k.1);
      if existing.Some? {
        KeyIn(seeds.rows, existing.value);
        return;
      }
      assert k !in KeysOf(seeds.rows);
      Create(k, w2, answers);
    }

    /** From CreateSeed on. */
    method Create(k: Key, ghost w: World, answers: Pc -> Answer)
      requires seeds.Valid()
      requires w == View().(pc := Checking(k)) && answers(Checking(k)).ok && k !in w.seeds
      modifies this, seeds
      ensures seeds.Valid()
      ensures View() == Drive(w, answers)
      ensures queued != old(queued)
        ==> |jobs| > 0 && jobs[|jobs| - 1] in seeds.rows
            && (seeds.rows[jobs[|jobs| - 1]].site, seeds.rows[jobs[|jobs| - 1]].hash) == k
    {
      hide Drive;
      var create := answers(Creating(k));
      ghost var w1 := Called(w, answers(Checking(k)));
      ghost var w2 := Called(w1, create);
      ghost var rows := seeds.rows;
      if create.ok || create.written {
        var id := seeds.CreateSeed(k.0, k.1, Discovered);
        if id.value in rows { KeyIn(rows, id.value); }
        KeysOfMore(rows, id.value, seeds.rows[id.value]);
        created := created + [k];
        if create.ok && answers(Handing(k)).ok {
          jobs := jobs + [id.value];
          queued := queued + [k];
        }
      }
      DriveStep(w, answers);
      DriveStep(w1, answers);
      if create.ok { DriveStep(w2, answers); }
      DriveRests(View(), answers);
    }
  }
}
