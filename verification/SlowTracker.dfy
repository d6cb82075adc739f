/** The "slow since" timers of one qBittorrent instance, against the history of the
    samples it recorded. Times are nanoseconds. */
module SlowTracker {
  import opened Options
  import opened Octets

  const IDLE: int := 600_000_000_000

  datatype Entry = Entry(belowStart: Option<int>, lastSeen: int)

  type Timers = map<string, Entry>

  /** What qBittorrent reports of a torrent; `downloading` also stands for stalledDL. */
  datatype Report = Report(downloading: bool, speed: int64)

  /** A recorded sample: slow when the torrent downloads below its threshold. */
  datatype Sample = Sample(hash: string, time: int, slow: bool)

  predicate Below(r: Report, thresholdKBps: int64) {
    r.downloading && r.speed < Wrap64(thresholdKBps * 1024)
  }

  /** Slow is to download at less than 1024 bytes per second for each KB/s of the threshold. */
  lemma {:induction false} BelowIff(r: Report, thresholdKBps: int64, bytes: int64)
    requires (bytes - thresholdKBps * 1024) % 0x1_0000_0000_0000_0000 == 0
    ensures Below(r, thresholdKBps) <==> r.downloading && r.speed < bytes
    ensures MIN_INT64 <= thresholdKBps * 1024 <= MAX_INT64 ==> bytes == thresholdKBps * 1024
  {
    var w := Wrap64(thresholdKBps * 1024);
    var q := (thresholdKBps * 1024 + 0x8000_0000_0000_0000) / 0x1_0000_0000_0000_0000;
    assert w == thresholdKBps * 1024 - q * 0x1_0000_0000_0000_0000;
    assert (bytes - w) % 0x1_0000_0000_0000_0000 == 0;
  }

  function Pruned(t: Timers, now: int): Timers {
    map h | h in t && now - t[h].lastSeen <= IDLE :: t[h]
  }

  /** The timers after one sample. */
  function After(t: Timers, x: Sample): Timers {
    if x.slow then
      var p := Pruned(t, x.time);
      var start := if x.hash in p && p[x.hash].belowStart.Some? then p[x.hash].belowStart.value else x.time;
      p[x.hash := Entry(Some(start), x.time)]
    else if x.hash in t then t[x.hash := Entry(None, x.time)]
    else t
  }

  function Replay(history: seq<Sample>): Timers {
    if history == [] then map[] else After(Replay(history[..|history| - 1]), history[|history| - 1])
  }

  /** The samples of one torrent. */
  function Of(history: seq<Sample>, hash: string): seq<Sample> {
    if history == [] then []
    else
      var x := history[|history| - 1];
      Of(history[..|history| - 1], hash) + if x.hash == hash then [x] else []
  }

  /** From sample `a` to the last one all are slow, with no gap of more than ten minutes. */
  ghost predicate Stretch(s: seq<Sample>, a: int) {
    && 0 <= a < |s|
    && (forall i :: a <= i < |s| ==> s[i].slow)
    && (forall i :: a < i < |s| ==> s[i].time - s[i - 1].time <= IDLE)
  }

  /** The torrent has been slow, by two samples or more, for `duration` up to its last sample. */
  ghost predicate SlowFor(history: seq<Sample>, hash: string, duration: int) {
    Lasting(Of(history, hash), duration)
  }

  ghost predicate Lasting(s: seq<Sample>, duration: int) {
    exists a :: Stretch(s, a) && a < |s| - 1 && s[|s| - 1].time - s[a].time >= duration
  }

  /** The comparison IsSlow makes for a slow sample. */
  predicate Overdue(t: Timers, x: Sample, duration: int) {
    var p := Pruned(t, x.time);
    x.hash in p && p[x.hash].belowStart.Some? && x.time - p[x.hash].belowStart.value >= duration
  }

  /** No timer has been idle for more than ten minutes. */
  predicate NoneIdle(t: Timers, now: int) { forall h :: h in t ==> now - t[h].lastSeen <= IDLE }

  /** A sample leaves no idle timer exactly when it is slow, or none but its own was idle before. */
  lemma {:induction false} PrunesIff(t: Timers, x: Sample)
    ensures NoneIdle(After(t, x), x.time)
      <==> x.slow || forall h :: h in t && h != x.hash ==> x.time - t[h].lastSeen <= IDLE
  {
    var v := After(t, x);
    if !x.slow && NoneIdle(v, x.time) {
      forall h | h in t && h != x.hash ensures x.time - t[h].lastSeen <= IDLE { assert h in v && v[h] == t[h]; }
    }
  }

  /** A torrent that is not seen again keeps its timer for any length of time, as long as no
      slow sample of another one comes in. */
  lemma {:induction false} IdleTimerStays(h: string, g: string, later: int)
    requires g != h && later > IDLE
    ensures var t := Replay([Sample(h, 0, true), Sample(g, later, false)]);
      h in t && t[h] == Entry(Some(0), 0) && !NoneIdle(t, later)
      && NoneIdle(After(t, Sample(g, later, true)), later)
  {
    var x, y := Sample(h, 0, true), Sample(g, later, false);
    assert [x, y][..1] == [x] && [x][..0] == [];
    assert Replay([x]) == After(Replay([]), x) == map[h := Entry(Some(0), 0)];
    var t := Replay([x, y]);
    assert t == After(Replay([x]), y);
    PrunesIff(t, Sample(g, later, true));
  }

  class SlowTimers {
    var timers: Timers
    ghost var history: seq<Sample>

    ghost predicate Valid()
      reads this
    {
      timers == Replay(history)
    }

    constructor ()
      ensures Valid() && history == []
    {
      timers, history := map[], [];
    }

    /** True only for a torrent whose last samples say so. A failed lookup (None) records and
        changes nothing; a call leaves no timer idle beyond ten minutes exactly when it took a
        slow sample, or none but the torrent's own was idle before. */
    method IsSlow(hash: string, found: Option<Report>, thresholdKBps: int64, duration: int, now: int) returns (slow: bool)
      requires Valid()
      modifies this
      ensures Valid()
      ensures history == old(history)
        + if found.None? then [] else [Sample(hash, now, Below(found.value, thresholdKBps))]
      ensures slow ==> found.Some? && Below(found.value, thresholdKBps) && SlowFor(history, hash, duration)
      ensures found.Some? && Below(found.value, thresholdKBps) && Monotone(history)
        ==> (slow <==> SlowFor(history, hash, duration))
      ensures timers == if found.None? then old(timers) else After(old(timers), Sample(hash, now, Below(found.value, thresholdKBps)))
      ensures NoneIdle(timers, now)
        <==> (found.Some? && Below(found.value, thresholdKBps))
             || forall h :: h in old(timers) && (found.Some? ==> h != hash) ==> now - old(timers)[h].lastSeen <= IDLE
    {
      if found.None? { return false; }
      PrunesIff(timers, Sample(hash, now, Below(found.value, thresholdKBps)));
      var info := found.value;
      if !info.downloading {
        ResetSlowTimer(hash, now);
        return false;
      }
      var threshold := Wrap64(thresholdKBps * 1024);
      if info.speed >= threshold {
        ResetSlowTimer(hash, now);
        return false;
      }
      ghost var was := history;
      history := history + [Sample(hash, now, true)];
      assert history[..|history| - 1] == was;
      Verdict(was, hash, duration, now);
      Prune(now);
      if hash !in timers {
        timers := timers[hash := Entry(Some(now), now)];
        return false;
      }
      timers := timers[hash := timers[hash].(lastSeen := now)];
      if timers[hash].belowStart.None? {
        timers := timers[hash := timers[hash].(belowStart := Some(now))];
        return false;
      }
      return now - timers[hash].belowStart.value >= duration;
    }

    method ResetSlowTimer(hash: string, now: int)
      requires Valid()
      modifies this
      ensures timers == After(old(timers), Sample(hash, now, false))
      ensures Valid() && history == old(history) + [Sample(hash, now, false)]
    {
      history := history + [Sample(hash, now, false)];
      assert history[..|history| - 1] == old(history);
      if hash in timers {
        timers := timers[hash := Entry(None, now)];
      }
    }

    method Prune(now: int)
      modifies this`timers
      ensures timers == Pruned(old(timers), now)
    {
      var todo := timers.Keys;
      while todo != {}
        invariant todo <= old(timers).Keys
        invariant timers == map h | h in old(timers) && (h in todo || now - old(timers)[h].lastSeen <= IDLE) :: old(timers)[h]
        decreases |todo|
      {
        var h :| h in todo;
        todo := todo - {h};
        if now - timers[h].lastSeen > IDLE {
          timers := timers - {h};
        }
      }
    }
  }

  // ------------------------------------------------------------------ proof

  /** No sample was taken before an earlier recorded one. */
  ghost predicate Monotone(history: seq<Sample>) {
    forall i, j :: 0 <= i < j < |history| ==> history[i].time <= history[j].time
  }

  ghost predicate Latest(history: seq<Sample>, time: int) {
    history != [] ==> history[|history| - 1].time <= time
  }

  /** A running timer started with the first sample of a stretch. */
  ghost predicate Sound(t: Timers, s: seq<Sample>, hash: string) {
    hash in t ==>
      && s != [] && t[hash].lastSeen == s[|s| - 1].time
      && (t[hash].belowStart.Some? ==> exists a :: Stretch(s, a) && s[a].time == t[hash].belowStart.value)
  }

  /** A stretch that is not cut off by `now` has a timer running since its start. */
  ghost predicate Complete(t: Timers, s: seq<Sample>, hash: string, now: int) {
    forall a :: Stretch(s, a) && now - s[|s| - 1].time <= IDLE
      ==> hash in t && t[hash].belowStart.Some? && t[hash].belowStart.value <= s[a].time
  }

  lemma Extend(s: seq<Sample>, x: Sample, a: int)
    requires x.slow && (0 <= a < |s| ==> x.time - s[|s| - 1].time <= IDLE)
    ensures Stretch(s + [x], a) <==> a == |s| || Stretch(s, a)
  {
    var u := s + [x];
    if Stretch(u, a) && a < |s| {
      forall i | a <= i < |s| ensures s[i].slow { assert u[i].slow; }
      forall i | a < i < |s| ensures s[i].time - s[i - 1].time <= IDLE { assert u[i].time - u[i - 1].time <= IDLE; }
    }
  }

  lemma Broken(s: seq<Sample>, x: Sample, a: int)
    requires 0 <= a < |s| && (x.slow ==> x.time - s[|s| - 1].time > IDLE)
    ensures !Stretch(s + [x], a)
  {
    var u := s + [x];
    assert u[|s|] == x && u[|s| - 1] == s[|s| - 1];
  }

  /** One slow sample of `hash` itself. */
  lemma SlowSample(t: Timers, s: seq<Sample>, x: Sample)
    requires x.slow && Sound(t, s, x.hash)
    ensures Sound(After(t, x), s + [x], x.hash)
    ensures Complete(t, s, x.hash, x.time) && (forall i :: 0 <= i < |s| ==> s[i].time <= x.time)
      ==> forall now :: Complete(After(t, x), s + [x], x.hash, now)
  {
    var h, u, v := x.hash, s + [x], After(t, x);
    Extend(s, x, |s|);
    if h in t && x.time - t[h].lastSeen <= IDLE && t[h].belowStart.Some? {
      var a :| Stretch(s, a) && s[a].time == t[h].belowStart.value;
      Extend(s, x, a);
      assert Stretch(u, a) && u[a].time == v[h].belowStart.value;
    } else {
      assert Stretch(u, |s|) && u[|s|].time == v[h].belowStart.value;
    }
    if Complete(t, s, h, x.time) && forall i :: 0 <= i < |s| ==> s[i].time <= x.time {
      forall a | Stretch(u, a) ensures v[h].belowStart.value <= u[a].time {
        if a < |s| {
          if x.time - s[|s| - 1].time > IDLE { Broken(s, x, a); }
          Extend(s, x, a);
        }
      }
    }
  }

  lemma {:induction false} OfTimes(history: seq<Sample>, hash: string, time: int)
    requires forall i :: 0 <= i < |history| ==> history[i].time <= time
    ensures forall i :: 0 <= i < |Of(history, hash)| ==> Of(history, hash)[i].time <= time
  {
    if history != [] { OfTimes(history[..|history| - 1], hash, time); }
  }

  lemma {:induction false} OneSample(t: Timers, s: seq<Sample>, x: Sample, hash: string)
    requires Sound(t, s, hash)
    ensures Sound(After(t, x), if x.hash == hash then s + [x] else s, hash)
  {
    if x.hash == hash && x.slow { SlowSample(t, s, x); }
  }

  lemma {:induction false} TimersSound(history: seq<Sample>, hash: string)
    ensures Sound(Replay(history), Of(history, hash), hash)
  {
    if history == [] {
    } else {
      hide Stretch, Sound, After;
      var init, x := history[..|history| - 1], history[|history| - 1];
      TimersSound(init, hash);
      OneSample(Replay(init), Of(init, hash), x, hash);
      assert Of(history, hash) == if x.hash == hash then Of(init, hash) + [x] else Of(init, hash);
    }
  }

  lemma SampledComplete(history: seq<Sample>, x: Sample)
    requires forall i :: 0 <= i < |history| ==> history[i].time <= x.time
    requires x.slow && Complete(Replay(history), Of(history, x.hash), x.hash, x.time)
    ensures forall now :: Complete(After(Replay(history), x), Of(history, x.hash) + [x], x.hash, now)
  {
    hide Stretch, Complete, Sound, After;
    OfTimes(history, x.hash, x.time);
    TimersSound(history, x.hash);
    SlowSample(Replay(history), Of(history, x.hash), x);
  }

  /** Pruning at the sample of another torrent takes no timer that is still needed. */
  lemma OtherSample(t: Timers, s: seq<Sample>, x: Sample, hash: string, now: int)
    requires x.hash != hash && x.time <= now && Sound(t, s, hash) && Complete(t, s, hash, now)
    ensures Complete(After(t, x), s, hash, now)
  {
    hide Stretch;
  }

  /** A sample that is not slow ends every stretch. */
  lemma ResetSample(t: Timers, s: seq<Sample>, x: Sample, now: int)
    requires !x.slow
    ensures Complete(After(t, x), s + [x], x.hash, now)
  {
    assert (s + [x])[|s|] == x;
  }

  lemma {:induction false} TimersComplete(history: seq<Sample>, hash: string, now: int)
    requires Monotone(history) && Latest(history, now)
    ensures Complete(Replay(history), Of(history, hash), hash, now)
  {
    if history != [] {
      var init, x := history[..|history| - 1], history[|history| - 1];
      var t, s := Replay(init), Of(init, hash);
      hide Stretch, Complete, Sound, After;
      TimersSound(init, hash);
      if x.hash != hash {
        TimersComplete(init, hash, now);
        OtherSample(t, s, x, hash, now);
        assert Of(history, hash) == s;
      } else if x.slow {
        TimersComplete(init, hash, x.time);
        SampledComplete(init, x);
      } else {
        ResetSample(t, s, x, now);
      }
    }
  }

  lemma {:induction false} OverdueLasts(t: Timers, s: seq<Sample>, x: Sample, duration: int)
    requires x.slow && Sound(t, s, x.hash) && Overdue(t, x, duration)
    ensures Lasting(s + [x], duration)
  {
    var a :| Stretch(s, a) && s[a].time == t[x.hash].belowStart.value;
    Extend(s, x, a);
    assert Stretch(s + [x], a) && (s + [x])[a] == s[a];
  }

  lemma {:induction false} LastingOverdue(t: Timers, s: seq<Sample>, x: Sample, duration: int)
    requires x.slow && Sound(t, s, x.hash) && Complete(t, s, x.hash, x.time) && Lasting(s + [x], duration)
    ensures Overdue(t, x, duration)
  {
    var u := s + [x];
    var a :| Stretch(u, a) && a < |u| - 1 && u[|u| - 1].time - u[a].time >= duration;
    if x.time - s[|s| - 1].time > IDLE { Broken(s, x, a); }
    Extend(s, x, a);
  }

  /** What the slow path answers about a sample taken at `now`. */
  lemma {:induction false} Verdict(history: seq<Sample>, hash: string, duration: int, now: int)
    ensures var yes := Overdue(Replay(history), Sample(hash, now, true), duration);
      var next := history + [Sample(hash, now, true)];
      (yes ==> SlowFor(next, hash, duration)) && (Monotone(next) ==> (yes <==> SlowFor(next, hash, duration)))
  {
    var t, s, x := Replay(history), Of(history, hash), Sample(hash, now, true);
    var next := history + [x];
    assert next[..|next| - 1] == history;
    assert Of(next, hash) == s + [x];
    hide Of, Replay, Lasting, Overdue, Sound, Complete;
    TimersSound(history, hash);
    if Overdue(t, x, duration) { OverdueLasts(t, s, x, duration); }
    if Monotone(next) && Lasting(s + [x], duration) {
      forall i | 0 <= i < |history| ensures history[i].time <= now { assert next[i].time <= next[|history|].time; }
      forall i, j | 0 <= i < j < |history| ensures history[i].time <= history[j].time {
        assert next[i].time <= next[j].time;
      }
      TimersComplete(history, hash, now);
      LastingOverdue(t, s, x, duration);
    }
  }
}
