/** Conservation of notifications over whole runs of the router. Each step is one
    section of the router's lock. */
module RouterRuns {
  import opened Router

  /** One Notify: the instances that were subscribed, the line and the time. */
  datatype Notice = Notice(subs: set<string>, level: Level, event: string, line: string, at: int)

  /** `sent` are the batches removed so far, `history` the buffered notifications. */
  datatype World = World(instances: Instances, pending: Pending, sent: seq<Aggregate>, history: seq<Notice>, clock: int)

  const START := World(map[], map[], [], [], 0)

  datatype Step =
    | AddStep(name: string, tiers: set<Level>)
    | NotifyStep(level: Level, msg: Message, now: int)
    | ExpireStep(now: int, order: seq<string>)
    | FlushStep(order: seq<string>)

  /** The instance names ever registered, and the events of the notifications. */
  datatype Scope = Scope(names: set<string>, events: iset<string>)

  /** All events, and those without a bar. */
  ghost const EVERY: iset<string> := iset e: string | |e| >= 0
  ghost const BAR_FREE: iset<string> := iset e: string | '|' !in e

  ghost predicate InScope(scope: Scope, t: Topic) {
    t.instance in scope.names && t.event in scope.events && t.level != Critical
  }

  /** No two of the topics that can come up have the same key. */
  ghost predicate Apart(scope: Scope) {
    forall a, b :: InScope(scope, a) && InScope(scope, b) && Key(a) == Key(b) ==> a == b
  }

  lemma {:induction false} SameTopic(scope: Scope, a: Topic, b: Topic)
    requires Apart(scope) && InScope(scope, a) && InScope(scope, b) && Key(a) == Key(b)
    ensures a == b
  {
  }

  /** The clock does not run backwards. */
  ghost predicate Enabled(scope: Scope, w: World, step: Step) {
    match step
    case AddStep(name, _) => name in scope.names
    case NotifyStep(_, msg, now) => w.clock <= now && msg.event in scope.events
    case ExpireStep(now, order) => w.clock <= now && Lists(order, Expired(w.pending, now))
    case FlushStep(order) => Lists(order, w.pending.Keys)
  }

  /** A critical message is sent at once and buffers nothing. */
  ghost function Next(window: int, w: World, step: Step): World {
    match step
    case AddStep(name, tiers) => w.(instances := w.instances[name := tiers])
    case NotifyStep(level, msg, now) =>
      if level == Critical then w.(clock := now)
      else
        var subs := Subscribers(w.instances, level);
        w.(pending := Buffered(w.pending, subs, level, msg.event, LineOf(msg), now + window),
           history := w.history + [Notice(subs, level, msg.event, LineOf(msg), now)],
           clock := now)
    case ExpireStep(now, order) => Remove(w, order).(clock := now)
    case FlushStep(order) => Remove(w, order)
  }

  ghost function Remove(w: World, order: seq<string>): World {
    w.(pending := w.pending - (set k | k in order), sent := w.sent + Taken(w.pending, order))
  }

  ghost predicate Legal(scope: Scope, window: int, w: World, steps: seq<Step>)
    decreases |steps|
  {
    steps == [] || (Enabled(scope, w, steps[0]) && Legal(scope, window, Next(window, w, steps[0]), steps[1..]))
  }

  ghost function Run(window: int, w: World, steps: seq<Step>): World
    decreases |steps|
  {
    if steps == [] then w else Run(window, Next(window, w, steps[0]), steps[1..])
  }

  // -------------------------------------------------------------- tallies

  predicate Concerns(n: Notice, t: Topic) {
    n.level == t.level && n.event == t.event && t.instance in n.subs
  }

  /** The notices that concern topic `t`, in order. */
  ghost function Notices(history: seq<Notice>, t: Topic): seq<Notice> {
    if history == [] then []
    else
      var last := history[|history| - 1];
      Notices(history[..|history| - 1], t) + if Concerns(last, t) then [last] else []
  }

  function LinesOf(ns: seq<Notice>): (r: seq<string>)
    ensures |r| == |ns|
  {
    seq(|ns|, i requires 0 <= i < |ns| => ns[i].line)
  }

  /** The lines notified for topic `t`, in order. */
  ghost function Notified(w: World, t: Topic): seq<string> {
    LinesOf(Notices(w.history, t))
  }

  /** The lines of the batches of topic `t`, in the order the batches were removed. */
  ghost function BatchLines(sent: seq<Aggregate>, t: Topic): seq<string> {
    if sent == [] then []
    else
      var last := sent[|sent| - 1];
      BatchLines(sent[..|sent| - 1], t) + if last.topic == t then last.lines else []
  }

  ghost function PendingLines(p: Pending, t: Topic): seq<string> {
    if Key(t) in p && p[Key(t)].topic == t then p[Key(t)].lines else []
  }

  /** For every topic, what left in batches and what still waits make up what was notified. */
  ghost predicate Conserved(w: World) {
    forall t :: BatchLines(w.sent, t) + PendingLines(w.pending, t) == Notified(w, t)
  }

  ghost predicate WellKept(scope: Scope, w: World) {
    && w.instances.Keys <= scope.names
    && (forall k :: k in w.pending ==> Kept(scope, k, w.pending[k]))
    && (forall i :: 0 <= i < |w.sent| ==> w.sent[i].count == |w.sent[i].lines|)
  }

  /** An aggregate lies under the key of its own topic and counts its lines. */
  ghost predicate Kept(scope: Scope, key: string, a: Aggregate) {
    && key == Key(a.topic) && a.topic.instance in scope.names && a.topic.event in scope.events && a.topic.level != Critical
    && a.count == |a.lines|
  }

  /** The notices behind the pending lines of topic `t`: the latest ones. */
  ghost function Waiting(w: World, t: Topic): seq<Notice> {
    var ns := Notices(w.history, t);
    var n := |PendingLines(w.pending, t)|;
    if n <= |ns| then ns[|ns| - n..] else ns
  }

  /** A deadline is a window away from the first line that waits for it, so at most that from
      the others and from now. */
  ghost predicate Timed(window: int, w: World) {
    && (forall k :: k in w.pending ==> w.pending[k].deadline <= w.clock + window)
    && (forall t :: Key(t) in w.pending && w.pending[Key(t)].topic == t ==> TimedAt(window, w, t, w.pending[Key(t)].deadline))
  }

  ghost predicate TimedAt(window: int, w: World, t: Topic, deadline: int) {
    && Waiting(w, t) != [] && deadline == Waiting(w, t)[0].at + window
    && forall i :: 0 <= i < |Waiting(w, t)| ==> deadline <= Waiting(w, t)[i].at + window
  }

  ghost predicate Inv(scope: Scope, window: int, w: World) {
    WellKept(scope, w) && Conserved(w) && Timed(window, w)
  }

  // ------------------------------------------------------- one step keeps it

  lemma NoticesSnoc(history: seq<Notice>, n: Notice, t: Topic)
    ensures Notices(history + [n], t) == Notices(history, t) + if Concerns(n, t) then [n] else []
  {
    assert (history + [n])[..|history|] == history;
  }

  /** What a buffered notification does to the pending lines of each topic. */
  lemma {:induction false} BufferedAt(scope: Scope, w: World, n: Notice, deadline: int, t: Topic)
    requires Apart(scope) && WellKept(scope, w)
    requires n.subs <= scope.names && n.level != Critical && n.event in scope.events
    ensures var p := Buffered(w.pending, n.subs, n.level, n.event, n.line, deadline);
      && PendingLines(p, t) == PendingLines(w.pending, t) + (if Concerns(n, t) then [n.line] else [])
      && (Key(t) in p && p[Key(t)].topic == t ==>
            p[Key(t)].deadline
            == if Key(t) in w.pending && w.pending[Key(t)].topic == t then w.pending[Key(t)].deadline else deadline)
      && (Key(t) in p && p[Key(t)].topic == t ==> Concerns(n, t) || (Key(t) in w.pending && w.pending[Key(t)].topic == t))
  {
    hide Key, NameIn, Apart;
    var p := Buffered(w.pending, n.subs, n.level, n.event, n.line, deadline);
    if Key(t) in KeysFor(n.subs, n.level, n.event) {
      var m :| m in n.subs && Key(Topic(m, n.level, n.event)) == Key(t);
      NameInKey(m, n.level, n.event);
      var u := Topic(m, n.level, n.event);
      if Key(t) in w.pending { SameTopic(scope, w.pending[Key(t)].topic, u); }
      if Concerns(n, t) { SameTopic(scope, t, u); }
    }
    if Concerns(n, t) { assert t == Topic(t.instance, n.level, n.event); }
  }

  lemma NotifyKeepsWellKept(scope: Scope, w: World, n: Notice, deadline: int)
    requires Apart(scope) && WellKept(scope, w)
    requires n.subs <= scope.names && n.level != Critical && n.event in scope.events
    ensures var p := Buffered(w.pending, n.subs, n.level, n.event, n.line, deadline);
      forall k :: k in p ==>
        Kept(scope, k, p[k]) && (p[k].deadline == deadline || (k in w.pending && p[k].deadline == w.pending[k].deadline))
  {
    hide Key, NameIn, Apart;
    var p := Buffered(w.pending, n.subs, n.level, n.event, n.line, deadline);
    forall k | k in p
      ensures Kept(scope, k, p[k])
        && (p[k].deadline == deadline || (k in w.pending && p[k].deadline == w.pending[k].deadline))
    {
      if k in KeysFor(n.subs, n.level, n.event) {
        var m :| m in n.subs && Key(Topic(m, n.level, n.event)) == k;
        NameInKey(m, n.level, n.event);
      } else {
        assert p[k] == w.pending[k];
      }
    }
  }

  /** One more line notified for a topic is one more line waiting for it. */
  lemma {:induction false} NotifyAt(scope: Scope, w: World, n: Notice, v: World, deadline: int, t: Topic)
    requires Apart(scope) && WellKept(scope, w) && Conserved(w)
    requires n.subs <= scope.names && n.level != Critical && n.event in scope.events
    requires v == w.(pending := Buffered(w.pending, n.subs, n.level, n.event, n.line, deadline),
                     history := w.history + [n], clock := n.at)
    ensures BatchLines(v.sent, t) + PendingLines(v.pending, t) == Notified(v, t)
    ensures Waiting(v, t) == Waiting(w, t) + if Concerns(n, t) then [n] else []
    ensures Key(t) in v.pending && v.pending[Key(t)].topic == t ==>
      && v.pending[Key(t)].deadline
         == (if Key(t) in w.pending && w.pending[Key(t)].topic == t then w.pending[Key(t)].deadline else deadline)
      && (Concerns(n, t) || (Key(t) in w.pending && w.pending[Key(t)].topic == t))
  {
    hide Key, Apart, Buffered, Notices, PendingLines, BatchLines, WellKept;
    BufferedAt(scope, w, n, deadline, t);
    NoticesSnoc(w.history, n, t);
    assert BatchLines(w.sent, t) + PendingLines(w.pending, t) == Notified(w, t);
    LinesSnoc(Notices(w.history, t), n);
    assert |PendingLines(w.pending, t)| <= |Notices(w.history, t)|;
  }

  lemma {:induction false} NotifyKeepsInv(scope: Scope, window: int, w: World, n: Notice, v: World)
    requires Apart(scope) && Inv(scope, window, w)
    requires n.subs <= scope.names && n.level != Critical && n.event in scope.events && w.clock <= n.at
    requires v == w.(pending := Buffered(w.pending, n.subs, n.level, n.event, n.line, n.at + window),
                     history := w.history + [n], clock := n.at)
    ensures Inv(scope, window, v)
  {
    hide Key, Apart, Buffered, Notified, Waiting, Kept, PendingLines, BatchLines;
    NotifyKeepsWellKept(scope, w, n, n.at + window);
    forall t ensures BatchLines(v.sent, t) + PendingLines(v.pending, t) == Notified(v, t) {
      NotifyAt(scope, w, n, v, n.at + window, t);
    }
    forall t | Key(t) in v.pending && v.pending[Key(t)].topic == t
      ensures TimedAt(window, v, t, v.pending[Key(t)].deadline)
    {
      NotifyAt(scope, w, n, v, n.at + window, t);
      if Key(t) in w.pending && w.pending[Key(t)].topic == t {
        assert TimedAt(window, w, t, w.pending[Key(t)].deadline);
      } else {
        WaitingNone(w, t);
      }
    }
  }

  lemma LinesSnoc(ns: seq<Notice>, n: Notice)
    ensures LinesOf(ns + [n]) == LinesOf(ns) + [n.line] && LinesOf(ns + []) == LinesOf(ns)
  {
    assert ns + [] == ns;
  }

  lemma WaitingNone(w: World, t: Topic)
    ensures !(Key(t) in w.pending && w.pending[Key(t)].topic == t) ==> Waiting(w, t) == []
  {
  }

  // -------------------------------------------------------------- removal

  lemma {:induction false} BatchLinesConcat(a: seq<Aggregate>, b: seq<Aggregate>, t: Topic)
    ensures BatchLines(a + b, t) == BatchLines(a, t) + BatchLines(b, t)
  {
    if b == [] {
      assert a + b == a;
    } else {
      assert (a + b)[..|a + b| - 1] == a + b[..|b| - 1];
      BatchLinesConcat(a, b[..|b| - 1], t);
    }
  }

  lemma NoBatch(t: Topic)
    ensures BatchLines([], t) == []
  {
  }

  lemma OneBatch(scope: Scope, p: Pending, k: string, t: Topic)
    requires k in p && Kept(scope, k, p[k])
    ensures BatchLines([p[k]], t) == if Key(t) == k then PendingLines(p, t) else []
    ensures p[k].count == |p[k].lines|
  {
    assert [p[k]][..0] == [];
  }

  lemma {:induction false} TakenLines(scope: Scope, p: Pending, order: seq<string>, t: Topic)
    requires forall k :: k in p ==> Kept(scope, k, p[k])
    requires forall i :: 0 <= i < |order| ==> order[i] in p
    requires forall i, j :: 0 <= i < j < |order| ==> order[i] != order[j]
    ensures BatchLines(Taken(p, order), t) == if Key(t) in order then PendingLines(p, t) else []
    ensures forall i :: 0 <= i < |Taken(p, order)| ==> Taken(p, order)[i].count == |Taken(p, order)[i].lines|
  {
    hide Key, BatchLines, PendingLines, Kept;
    if order == [] {
      assert BatchLines([], t) == [] by { NoBatch(t); }
    } else {
      var init, last := order[..|order| - 1], order[|order| - 1];
      TakenLines(scope, p, init, t);
      BatchLinesConcat(Taken(p, init), [p[last]], t);
      assert Taken(p, order) == Taken(p, init) + [p[last]];
      OneBatch(scope, p, last, t);
      assert order == init + [last];
      assert last !in init;
    }
  }

  lemma RemoveKeepsInv(scope: Scope, window: int, w: World, order: seq<string>, clock: int)
    requires Inv(scope, window, w) && w.clock <= clock
    requires forall i :: 0 <= i < |order| ==> order[i] in w.pending
    requires forall i, j :: 0 <= i < j < |order| ==> order[i] != order[j]
    ensures Inv(scope, window, Remove(w, order).(clock := clock))
  {
    hide Key, Notices, PendingLines, BatchLines, Taken;
    var v := Remove(w, order).(clock := clock);
    forall t ensures BatchLines(v.sent, t) + PendingLines(v.pending, t) == Notified(v, t) {
      TakenLines(scope, w.pending, order, t);
      BatchLinesConcat(w.sent, Taken(w.pending, order), t);
      PendingLess(w.pending, order, t);
      assert BatchLines(w.sent, t) + PendingLines(w.pending, t) == Notified(w, t);
    }
    TakenLines(scope, w.pending, order, Topic("", Info, ""));
    forall t | Key(t) in v.pending && v.pending[Key(t)].topic == t
      ensures TimedAt(window, v, t, v.pending[Key(t)].deadline)
    {
      StillTimed(window, w, order, clock, t);
    }
  }

  lemma StillTimed(window: int, w: World, order: seq<string>, clock: int, t: Topic)
    requires Timed(window, w)
    requires var v := Remove(w, order).(clock := clock); Key(t) in v.pending && v.pending[Key(t)].topic == t
    ensures var v := Remove(w, order).(clock := clock); TimedAt(window, v, t, v.pending[Key(t)].deadline)
  {
    hide Key, Notices, PendingLines, Taken;
    var v := Remove(w, order).(clock := clock);
    assert Key(t) !in (set k | k in order);
    PendingLess(w.pending, order, t);
    assert Waiting(v, t) == Waiting(w, t);
    assert TimedAt(window, w, t, w.pending[Key(t)].deadline);
  }

  lemma PendingLess(p: Pending, order: seq<string>, t: Topic)
    ensures PendingLines(p - (set k | k in order), t) == if Key(t) in order then [] else PendingLines(p, t)
  {
  }

  lemma StepKeepsInv(scope: Scope, window: int, w: World, step: Step)
    requires Apart(scope) && Inv(scope, window, w) && Enabled(scope, w, step)
    ensures Inv(scope, window, Next(window, w, step))
  {
    hide Apart, Conserved, Timed, Buffered, Taken;
    match step
    case AddStep(name, tiers) =>
      SameTallies(window, w, w.(instances := w.instances[name := tiers]));
    case NotifyStep(level, msg, now) =>
      if level == Critical {
        SameTallies(window, w, w.(clock := now));
      } else {
        var subs := Subscribers(w.instances, level);
        NotifyKeepsInv(scope, window, w, Notice(subs, level, msg.event, LineOf(msg), now), Next(window, w, step));
      }
    case ExpireStep(now, order) => RemoveKeepsInv(scope, window, w, order, now);
    case FlushStep(order) => RemoveKeepsInv(scope, window, w, order, w.clock);
  }

  lemma SameTallies(window: int, w: World, v: World)
    requires v.pending == w.pending && v.sent == w.sent && v.history == w.history && w.clock <= v.clock
    requires Conserved(w) && Timed(window, w)
    ensures Conserved(v) && Timed(window, v)
  {
    forall t ensures Waiting(v, t) == Waiting(w, t) && Notified(v, t) == Notified(w, t) {}
    forall t ensures BatchLines(v.sent, t) + PendingLines(v.pending, t) == Notified(v, t) {
      assert BatchLines(w.sent, t) + PendingLines(w.pending, t) == Notified(w, t);
    }
    forall t | Key(t) in v.pending && v.pending[Key(t)].topic == t
      ensures TimedAt(window, v, t, v.pending[Key(t)].deadline)
    {
      assert TimedAt(window, w, t, w.pending[Key(t)].deadline);
    }
  }

  // ------------------------------------------------------------ main results

  lemma {:induction false} RunKeepsInv(scope: Scope, window: int, w: World, steps: seq<Step>)
    requires Apart(scope) && Inv(scope, window, w) && Legal(scope, window, w, steps)
    ensures Inv(scope, window, Run(window, w, steps))
    decreases |steps|
  {
    hide Apart, Inv, Enabled, Next;
    if steps != [] {
      StepKeepsInv(scope, window, w, steps[0]);
      RunKeepsInv(scope, window, Next(window, w, steps[0]), steps[1..]);
    }
  }

  /** After any run whose topics share no key: per topic, the batches
      removed so far and the lines still pending make up the notified lines in order,
      and every batch and pending aggregate counts its lines. */
  lemma {:induction false} AlwaysConserved(scope: Scope, window: int, steps: seq<Step>)
    requires Apart(scope) && Legal(scope, window, START, steps)
    ensures Inv(scope, window, Run(window, START, steps))
  {
    assert Inv(scope, window, START);
    RunKeepsInv(scope, window, START, steps);
  }

  /** What `steps` call for under topic `t`: the lines of its tier and event, notified while its
      instance, as it was last added, has the tier; `on` is whether it has it at the start. */
  ghost function Wanted(steps: seq<Step>, t: Topic, on: bool): seq<string>
    decreases |steps|
  {
    if steps == [] then []
    else
      match steps[0]
      case AddStep(name, tiers) => Wanted(steps[1..], t, if name == t.instance then t.level in tiers else on)
      case NotifyStep(level, msg, _) =>
        (if on && level != Critical && level == t.level && msg.event == t.event then [LineOf(msg)] else [])
        + Wanted(steps[1..], t, on)
      case _ => Wanted(steps[1..], t, on)
  }

  predicate Has(w: World, t: Topic) { t.instance in w.instances && t.level in w.instances[t.instance] }

  lemma {:induction false} StepWanted(window: int, w: World, step: Step, t: Topic)
    ensures Notified(Next(window, w, step), t) == Notified(w, t) + Wanted([step], t, Has(w, t))
    ensures Has(Next(window, w, step), t) == if step.AddStep? && step.name == t.instance then t.level in step.tiers else Has(w, t)
  {
    hide Buffered, Taken, Notices;
    assert [step][1..] == [];
    if step.NotifyStep? && step.level != Critical {
      var n := Notice(Subscribers(w.instances, step.level), step.level, step.msg.event, LineOf(step.msg), step.now);
      NoticesSnoc(w.history, n, t);
      LinesSnoc(Notices(w.history, t), n);
    }
  }

  lemma {:induction false} RunWanted(window: int, w: World, steps: seq<Step>, t: Topic)
    ensures Notified(Run(window, w, steps), t) == Notified(w, t) + Wanted(steps, t, Has(w, t))
    decreases |steps|
  {
    hide Next, Notified, Has;
    if steps != [] {
      StepWanted(window, w, steps[0], t);
      RunWanted(window, Next(window, w, steps[0]), steps[1..], t);
      WantedFirst(steps, t, Has(w, t));
    }
  }

  lemma WantedFirst(steps: seq<Step>, t: Topic, on: bool)
    requires steps != []
    ensures Wanted(steps, t, on)
      == Wanted([steps[0]], t, on)
         + Wanted(steps[1..], t, if steps[0].AddStep? && steps[0].name == t.instance then t.level in steps[0].tiers else on)
  {
    assert [steps[0]][1..] == [];
  }

  /** End to end: what left in batches and what still waits is, per topic and in order, what the
      notifications called for given who was added with which tiers at the time. */
  lemma {:induction false} EndToEnd(scope: Scope, window: int, steps: seq<Step>, t: Topic)
    requires Apart(scope) && Legal(scope, window, START, steps)
    ensures var w := Run(window, START, steps);
      BatchLines(w.sent, t) + PendingLines(w.pending, t) == Wanted(steps, t, false)
  {
    hide Apart, Legal, Run, BatchLines, PendingLines, Wanted;
    AlwaysConserved(scope, window, steps);
    RunWanted(window, START, steps, t);
    var w := Run(window, START, steps);
    assert BatchLines(w.sent, t) + PendingLines(w.pending, t) == Notified(w, t);
    assert Notified(START, t) == [];
  }

  /** Right after an expiry pass no line has been pending for the window or longer. */
  lemma {:induction false} ExpiryBoundsAge(scope: Scope, window: int, steps: seq<Step>, now: int, order: seq<string>, t: Topic)
    requires Apart(scope) && Legal(scope, window, START, steps)
    requires Enabled(scope, Run(window, START, steps), ExpireStep(now, order))
    ensures var v := Next(window, Run(window, START, steps), ExpireStep(now, order));
      && LinesOf(Waiting(v, t)) == PendingLines(v.pending, t)
      && forall i :: 0 <= i < |Waiting(v, t)| ==> now - Waiting(v, t)[i].at < window
  {
    hide Apart, Legal, Run;
    AlwaysConserved(scope, window, steps);
    var w := Run(window, START, steps);
    StepKeepsInv(scope, window, w, ExpireStep(now, order));
    var v := Next(window, w, ExpireStep(now, order));
    WaitingIsPending(v, t);
    if Key(t) in v.pending && v.pending[Key(t)].topic == t {
      assert TimedAt(window, v, t, v.pending[Key(t)].deadline);
      assert Key(t) in w.pending && Key(t) !in order;
      assert Key(t) !in Expired(w.pending, now);
    } else {
      WaitingNone(v, t);
    }
  }

  /** No batch leaves with an expiry pass before its first line is a window old. */
  lemma {:induction false} ExpiryNotEarly(scope: Scope, window: int, steps: seq<Step>, now: int, order: seq<string>, i: nat)
    requires Apart(scope) && Legal(scope, window, START, steps)
    requires Enabled(scope, Run(window, START, steps), ExpireStep(now, order)) && i < |order|
    ensures var w := Run(window, START, steps);
      && order[i] in w.pending
      && (var t := w.pending[order[i]].topic;
          && order[i] == Key(t) && PendingLines(w.pending, t) == w.pending[order[i]].lines
          && Waiting(w, t) != [] && LinesOf(Waiting(w, t)) == PendingLines(w.pending, t)
          && now - Waiting(w, t)[0].at >= window)
  {
    hide Apart, Legal, Run, Notices, Key;
    AlwaysConserved(scope, window, steps);
    var w := Run(window, START, steps);
    assert order[i] in Expired(w.pending, now);
    var t := w.pending[order[i]].topic;
    assert Kept(scope, order[i], w.pending[order[i]]);
    assert TimedAt(window, w, t, w.pending[Key(t)].deadline);
    WaitingIsPending(w, t);
  }

  lemma WaitingIsPending(w: World, t: Topic)
    requires Conserved(w)
    ensures LinesOf(Waiting(w, t)) == PendingLines(w.pending, t)
  {
    hide BatchLines, PendingLines, Notices;
    var ns, b, p := Notices(w.history, t), BatchLines(w.sent, t), PendingLines(w.pending, t);
    assert b + p == LinesOf(ns);
    assert (b + p)[|b|..] == p;
  }

  // ------------------------------------------------- topics that share a key

  lemma OneMore(scope: Scope, window: int, w: World, step: Step, rest: seq<Step>)
    requires Enabled(scope, w, step) && Legal(scope, window, Next(window, w, step), rest)
    ensures Legal(scope, window, w, [step] + rest)
    ensures Run(window, w, [step] + rest) == Run(window, Next(window, w, step), rest)
  {
    assert ([step] + rest)[1..] == rest;
  }

  /** After `a` got line "a", its instance lost its subscription, and that of `b` got one. */
  ghost function TwoNames(window: int, a: Topic, b: Topic): World {
    var w := Next(window, START, AddStep(a.instance, {a.level}));
    var v := Next(window, w, NotifyStep(a.level, Message("a", "", a.event), 0));
    Next(window, Next(window, v, AddStep(a.instance, {})), AddStep(b.instance, {b.level}))
  }

  lemma TwoNamesIs(window: int, a: Topic, b: Topic)
    requires a.level != Critical && a.instance != b.instance
    ensures TwoNames(window, a, b)
      == World(map[a.instance := {}, b.instance := {b.level}], map[Key(a) := Aggregate(a, 1, ["a"], window)], [],
               [Notice({a.instance}, a.level, a.event, "a", 0)], 0)
  {
    hide Key, Buffered;
    var w := Next(window, START, AddStep(a.instance, {a.level}));
    assert Subscribers(w.instances, a.level) == {a.instance};
    OneLine(w.pending, a.instance, a.level, a.event, "a", window);
    assert a == Topic(a.instance, a.level, a.event);
    var first := Notice({a.instance}, a.level, a.event, "a", 0);
    assert w.history + [first] == [first];
  }

  lemma SecondMisplaced(window: int, a: Topic, b: Topic)
    requires a.level != Critical && b.level != Critical && a.instance != b.instance && Key(a) == Key(b)
    ensures !Conserved(Next(window, TwoNames(window, a, b), NotifyStep(b.level, Message("b", "", b.event), 0)))
  {
    hide Key, Buffered, TwoNames, Conserved;
    var w := TwoNames(window, a, b);
    TwoNamesIs(window, a, b);
    assert Subscribers(w.instances, b.level) == {b.instance};
    OneLine(w.pending, b.instance, b.level, b.event, "b", window);
    assert b == Topic(b.instance, b.level, b.event);
    Misplaced(Next(window, w, NotifyStep(b.level, Message("b", "", b.event), 0)), b,
              Notice({a.instance}, a.level, a.event, "a", 0), Notice({b.instance}, b.level, b.event, "b", 0));
  }

  /** Two topics under one key get one line each: the second line lands in the first
      one's aggregate. */
  lemma {:induction false} Misfiled(scope: Scope, window: int, a: Topic, b: Topic) returns (steps: seq<Step>)
    requires InScope(scope, a) && InScope(scope, b) && a != b && Key(a) == Key(b)
    ensures Legal(scope, window, START, steps) && !Conserved(Run(window, START, steps))
  {
    hide Conserved, Next, Key, Legal, Run;
    if |a.instance| == |b.instance| { SameName(a, b); }
    SecondMisplaced(window, a, b);
    TwoNamesIs(window, a, b);
    steps := Script(scope, window, a, b);
  }

  lemma Script(scope: Scope, window: int, a: Topic, b: Topic) returns (steps: seq<Step>)
    requires InScope(scope, a) && InScope(scope, b) && TwoNames(window, a, b).clock == 0
    ensures Legal(scope, window, START, steps)
    ensures Run(window, START, steps)
         == Next(window, TwoNames(window, a, b), NotifyStep(b.level, Message("b", "", b.event), 0))
  {
    hide Legal, Run, Buffered;
    var s1, s2, s3, s4, s5 := AddStep(a.instance, {a.level}), NotifyStep(a.level, Message("a", "", a.event), 0),
      AddStep(a.instance, {}), AddStep(b.instance, {b.level}), NotifyStep(b.level, Message("b", "", b.event), 0);
    var w1 := Next(window, START, s1);
    var w2 := Next(window, w1, s2);
    var w3 := Next(window, w2, s3);
    var w4 := Next(window, w3, s4);
    NoMore(scope, window, Next(window, w4, s5));
    OneMore(scope, window, w4, s5, []);
    OneMore(scope, window, w3, s4, [s5] + []);
    OneMore(scope, window, w2, s3, [s4] + ([s5] + []));
    OneMore(scope, window, w1, s2, [s3] + ([s4] + ([s5] + [])));
    OneMore(scope, window, START, s1, [s2] + ([s3] + ([s4] + ([s5] + []))));
    steps := [s1] + ([s2] + ([s3] + ([s4] + ([s5] + []))));
  }

  lemma NoMore(scope: Scope, window: int, w: World)
    ensures Legal(scope, window, w, []) && Run(window, w, []) == w
  {
  }

  lemma StemKey(n: string, level: Level, t: Topic)
    requires Stem(n, level) <= t.instance + "|"
    ensures |Stem(n, level)| <= |Key(t)|
    ensures Key(Topic(n, level, Key(t)[|Stem(n, level)|..])) == Key(t)
  {
    var stem := Stem(n, level);
    assert t.instance + "|" <= Key(t) by { KeyCuts(t); }
    assert stem <= Key(t);
    assert Key(t) == stem + Key(t)[|stem|..];
  }

  lemma OneLine(p: Pending, n: string, level: Level, event: string, line: string, deadline: int)
    ensures var t := Topic(n, level, event);
      Buffered(p, {n}, level, event, line, deadline) == p[Key(t) := WithLine(p, t, line, deadline)]
  {
    hide Key, WithLine, NameIn;
    NameInKey(n, level, event);
    assert KeysFor({n}, level, event) == {Key(Topic(n, level, event))};
  }

  lemma Misplaced(w: World, t: Topic, a: Notice, b: Notice)
    requires w.sent == [] && w.history == [a] + [b] && Concerns(b, t) && !Concerns(a, t)
    requires Key(t) in w.pending && w.pending[Key(t)].topic != t
    ensures !Conserved(w)
  {
    hide Key;
    NoticesSnoc([a], b, t);
    assert Notices([a][..0], t) == [];
    assert |Notified(w, t)| == 1;
    assert BatchLines(w.sent, t) + PendingLines(w.pending, t) == [];
  }

  /** Conservation holds on every run over these names and events. */
  ghost predicate AlwaysConserves(scope: Scope, window: int) {
    forall steps :: Legal(scope, window, START, steps) ==> Conserved(Run(window, START, steps))
  }

  /** Conservation holds on every run exactly if no two of the topics share a key. */
  lemma {:induction false} ConservedIff(scope: Scope, window: int)
    ensures Apart(scope) <==> AlwaysConserves(scope, window)
  {
    if Apart(scope) {
      forall steps | Legal(scope, window, START, steps) ensures Conserved(Run(window, START, steps)) {
        AlwaysConserved(scope, window, steps);
      }
    } else {
      var a, b :| InScope(scope, a) && InScope(scope, b) && Key(a) == Key(b) && a != b;
      var steps := Misfiled(scope, window, a, b);
    }
  }

  // ---------------------------------------------- when topics share no key

  /** Whatever the names: two topics with events free of bars have different keys. */
  lemma {:induction false} BarFreeEventsApart(scope: Scope)
    requires forall e :: e in scope.events ==> '|' !in e
    ensures Apart(scope)
  {
    hide Key;
    forall a, b | InScope(scope, a) && InScope(scope, b) && Key(a) == Key(b) ensures a == b {
      BarFreeKeys(a, b);
    }
  }

  /** Whatever the events: that takes names none of which reads like another's key. */
  lemma {:induction false} AnyEventApartIff(names: set<string>)
    ensures Apart(Scope(names, EVERY)) <==> Separable(names)
  {
    hide Key, Stem;
    var scope := Scope(names, EVERY);
    if Separable(names) {
      forall a, b | InScope(scope, a) && InScope(scope, b) && Key(a) == Key(b) ensures a == b {
        KeyInjective(names, a, b);
      }
    } else {
      var n, m :| n in names && m in names && Confusable(n, m);
      var level :| level in {Warning, Info} && Stem(n, level) <= m + "|";
      var b := Topic(m, Info, "x");
      StemKey(n, level, b);
      var a := Topic(n, level, Key(b)[|Stem(n, level)|..]);
      assert InScope(scope, a) && InScope(scope, b);
    }
  }

  /** Conservation over one set of names: for all events exactly when the names are
      separable; for events without a bar always. */
  lemma {:induction false} ConservedOverNames(names: set<string>, window: int)
    ensures Separable(names) <==> AlwaysConserves(Scope(names, EVERY), window)
    ensures AlwaysConserves(Scope(names, BAR_FREE), window)
  {
    hide Apart, Separable, AlwaysConserves;
    AnyEventApartIff(names);
    ConservedIff(Scope(names, EVERY), window);
    BarFreeEventsApart(Scope(names, BAR_FREE));
    ConservedIff(Scope(names, BAR_FREE), window);
  }
}
