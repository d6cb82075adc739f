/** The aggregating notification router: warning and info messages wait, per
    (instance, tier, event), for their window to pass, and leave in batches. */
module Router {

  datatype Level = Critical | Warning | Info

  function Text(l: Level): string {
    match l
    case Critical => "critical"
    case Warning => "warning"
    case Info => "info"
  }

  datatype Message = Message(title: string, body: string, event: string)

  function LineOf(m: Message): string {
    if m.title == "" then m.body
    else if m.body == "" then m.title
    else m.title + ": " + m.body
  }

  /** Title, then body; a colon and a space stand between them exactly if there are both. */
  lemma {:induction false} LineIs(m: Message)
    ensures var n := |LineOf(m)| - |m.body|;
      |m.title| <= n && LineOf(m)[..|m.title|] == m.title && LineOf(m)[n..] == m.body
      && LineOf(m)[|m.title|..n] == if m.title != "" && m.body != "" then ": " else ""
  {
    if m.title != "" && m.body != "" {
      assert LineOf(m)[|m.title|..|m.title| + 2] == ": ";
    }
  }

  datatype Topic = Topic(instance: string, level: Level, event: string)

  /** The key of a topic in the pending map. */
  function Key(t: Topic): string {
    t.instance + "|" + Text(t.level) + "|" + t.event
  }

  datatype Aggregate = Aggregate(topic: Topic, count: nat, lines: seq<string>, deadline: int)

  type Pending = map<string, Aggregate>

  type Instances = map<string, set<Level>>

  function Subscribers(instances: Instances, level: Level): set<string> {
    set n | n in instances && level in instances[n]
  }

  // ------------------------------------------------------------------ keys

  lemma KeyCuts(t: Topic)
    ensures Key(t) == t.instance + ("|" + (Text(t.level) + ("|" + t.event)))
  {
  }

  /** The instance name in a key made for `level` and `event`. */
  function NameIn(key: string, level: Level, event: string): string {
    var n := |Text(level)| + |event| + 2;
    if |key| >= n then key[..|key| - n] else key
  }

  lemma NameInKey(n: string, level: Level, event: string)
    ensures NameIn(Key(Topic(n, level, event)), level, event) == n
  {
  }

  /** The start of every key of instance `n` at `level`. */
  function Stem(n: string, level: Level): string {
    n + "|" + Text(level) + "|"
  }

  /** Name `m` reads like a key of `n`: the two can be confused. */
  predicate Confusable(n: string, m: string) {
    n != m && exists l :: l in {Warning, Info} && Stem(n, l) <= m + "|"
  }

  ghost predicate Separable(names: set<string>) {
    forall n, m :: n in names && m in names ==> !Confusable(n, m)
  }

  lemma NoBar(l: Level)
    ensures forall i :: 0 <= i < |Text(l)| ==> Text(l)[i] != '|'
  {
  }

  lemma LongerName(a: Topic, b: Topic)
    requires Key(a) == Key(b) && |a.instance| < |b.instance| && a.level != Critical
    ensures Confusable(a.instance, b.instance)
  {
    var key, n, l := Key(a), |a.instance|, |Text(a.level)|;
    NoBar(a.level);
    var cut := |b.instance|;
    assert key[cut] == '|';
    assert forall i :: n < i < n + 1 + l ==> key[i] == Text(a.level)[i - n - 1];
    assert Stem(a.instance, a.level) == key[..n + 1 + l + 1];
    assert b.instance + "|" == key[..cut + 1];
    assert key[..n + 1 + l + 1] == key[..cut + 1][..n + 1 + l + 1];
    assert Stem(a.instance, a.level) <= b.instance + "|";
  }

  lemma SameName(a: Topic, b: Topic)
    requires Key(a) == Key(b) && |a.instance| == |b.instance|
    ensures a == b
  {
    var key, n := Key(a), |a.instance|;
    assert key[..n] == a.instance && key[..n] == b.instance;
    assert key[n + 1] == Text(a.level)[0] && key[n + 1] == Text(b.level)[0];
    assert a.level == b.level;
    assert key[n + |Text(a.level)| + 2..] == a.event && key[n + |Text(b.level)| + 2..] == b.event;
  }

  /** Among separable names the key tells instance, tier and event apart. */
  lemma {:induction false} KeyInjective(names: set<string>, a: Topic, b: Topic)
    requires Separable(names) && a.instance in names && b.instance in names
    requires a.level != Critical && b.level != Critical
    requires Key(a) == Key(b)
    ensures a == b
  {
    if |a.instance| == |b.instance| {
      SameName(a, b);
    } else if |a.instance| < |b.instance| {
      LongerName(a, b);
    } else {
      LongerName(b, a);
    }
  }

  /** Names without a bar cannot be confused. */
  lemma {:induction false} BarFreeSeparable(names: set<string>)
    requires forall n :: n in names ==> '|' !in n
    ensures Separable(names)
  {
    forall n, m, l | n in names && m in names && n != m ensures !(Stem(n, l) <= m + "|") {
      var stem := Stem(n, l);
      assert stem[|n|] == '|' && |stem| > |n| + 1;
      assert |n| < |m| ==> (m + "|")[|n|] == m[|n|] && m[|n|] in m;
    }
  }

  /** With events free of bars the key is read from its end. */
  lemma {:induction false} BarFreeKeys(a: Topic, b: Topic)
    requires '|' !in a.event && '|' !in b.event && Key(a) == Key(b)
    ensures a == b
  {
    SameEvent(a, b);
    var key, n := Key(a), |Key(a)| - |a.event|;
    assert key[n - 2] == Text(a.level)[|Text(a.level)| - 1] && key[n - 2] == Text(b.level)[|Text(b.level)| - 1];
    assert a.level == b.level;
    assert a.instance == key[..|a.instance|] && b.instance == key[..|a.instance|];
  }

  lemma SameEvent(a: Topic, b: Topic)
    requires '|' !in a.event && '|' !in b.event && Key(a) == Key(b)
    ensures a.event == b.event
  {
    var key := Key(a);
    var i, j := |key| - |a.event|, |key| - |b.event|;
    assert key[i..] == a.event && key[j..] == b.event;
    assert key[i - 1] == '|' && key[j - 1] == '|';
    assert forall k :: i <= k < |key| ==> key[k] == a.event[k - i];
    assert forall k :: j <= k < |key| ==> key[k] == b.event[k - j];
  }

  // ------------------------------------------------------------- buffering

  /** The aggregate of topic `t` with one more line; `deadline` is for a new one. */
  function WithLine(p: Pending, t: Topic, line: string, deadline: int): Aggregate {
    if Key(t) in p then
      var a := p[Key(t)];
      a.(count := a.count + 1, lines := a.lines + [line])
    else Aggregate(t, 1, [line], deadline)
  }

  function KeysFor(subs: set<string>, level: Level, event: string): set<string> {
    set n | n in subs :: Key(Topic(n, level, event))
  }

  /** The aggregates of the instances `subs`, each with one more line. */
  function Lengthened(p: Pending, subs: set<string>, level: Level, event: string, line: string, deadline: int): Pending {
    map k | k in KeysFor(subs, level, event) :: WithLine(p, Topic(NameIn(k, level, event), level, event), line, deadline)
  }

  /** One line added for each of the instances `subs`. */
  function Buffered(p: Pending, subs: set<string>, level: Level, event: string, line: string, deadline: int): Pending {
    p + Lengthened(p, subs, level, event, line, deadline)
  }

  class Router {
    var instances: Instances
    var pending: Pending
    const window: int

    constructor (window: int)
      ensures instances == map[] && pending == map[] && this.window == window
    {
      this.window := window;
      instances, pending := map[], map[];
    }

    method Add(name: string, tiers: set<Level>)
      modifies this
      ensures instances == old(instances)[name := tiers] && pending == old(pending)
    {
      instances := instances[name := tiers];
    }

    /** The locked part of buffer; the instances are walked in any order. */
    method Buffer(level: Level, msg: Message, now: int)
      modifies this
      ensures instances == old(instances)
      ensures pending == Buffered(old(pending), Subscribers(instances, level), level, msg.event, LineOf(msg), now + window)
    {
      hide Key, Buffered, WithLine;
      var left := instances.Keys;
      ghost var was := pending;
      ghost var done: set<string> := {};
      BufferNone(pending, level, msg.event, LineOf(msg), now + window);
      while left != {}
        invariant left <= instances.Keys && instances == old(instances)
        invariant done == set n | n in Subscribers(instances, level) && n !in left
        invariant pending == Buffered(was, done, level, msg.event, LineOf(msg), now + window)
      {
        var name :| name in left;
        left := left - {name};
        if level in instances[name] {
          var t := Topic(name, level, msg.event);
          BufferNext(was, done, t, LineOf(msg), now + window);
          pending := pending[Key(t) := WithLine(pending, t, LineOf(msg), now + window)];
          done := done + {name};
        }
      }
      assert done == Subscribers(instances, level);
    }

    /** The locked part of flushExpired; `order` is the order the map happened to be walked in. */
    method TakeExpired(now: int) returns (due: seq<Aggregate>, ghost order: seq<string>)
      modifies this
      ensures instances == old(instances)
      ensures Lists(order, Expired(old(pending), now))
      ensures pending == old(pending) - Expired(old(pending), now)
      ensures due == Taken(old(pending), order)
    {
      due, order := [], [];
      var left := pending.Keys;
      ghost var was := pending;
      while left != {}
        invariant left <= was.Keys && instances == old(instances)
        invariant Lists(order, Expired(was, now) - left)
        invariant pending == was - (Expired(was, now) - left)
        invariant due == Taken(was, order)
      {
        var key :| key in left;
        left := left - {key};
        var a := pending[key];
        if now >= a.deadline {
          due := due + [a];
          pending := pending - {key};
          order := order + [key];
        }
      }
      assert Expired(was, now) - left == Expired(was, now);
    }

    /** The locked part of Flush. */
    method TakeAll() returns (all: seq<Aggregate>, ghost order: seq<string>)
      modifies this
      ensures instances == old(instances)
      ensures Lists(order, old(pending).Keys)
      ensures pending == map[]
      ensures all == Taken(old(pending), order)
    {
      hide Lists, Taken;
      all, order := [], [];
      ghost var was := pending;
      TakenNone(was);
      ghost var gone: set<string> := {};
      var left := pending.Keys;
      while left != {}
        invariant instances == old(instances) && left !! gone && left + gone == was.Keys
        invariant pending.Keys == left && forall k :: k in left ==> pending[k] == was[k]
        invariant Lists(order, gone) && all == Taken(was, order)
        decreases left
      {
        var key :| key in left;
        left := left - {key};
        TakenNext(was, order, gone, key);
        all := all + [pending[key]];
        pending := pending - {key};
        order, gone := order + [key], gone + {key};
      }
      assert gone == was.Keys;
    }
  }

  lemma TakenNone(p: Pending)
    ensures Lists([], {}) && Taken(p, []) == []
  {
  }

  lemma {:induction false} TakenNext(p: Pending, order: seq<string>, keys: set<string>, key: string)
    requires Lists(order, keys) && key !in keys && key in p
    ensures Lists(order + [key], keys + {key})
    ensures Taken(p, order + [key]) == Taken(p, order) + [p[key]]
  {
    assert (order + [key])[..|order|] == order;
  }

  lemma BufferNone(p: Pending, level: Level, event: string, line: string, deadline: int)
    ensures Buffered(p, {}, level, event, line, deadline) == p
  {
  }

  lemma LengthenedNext(p: Pending, done: set<string>, t: Topic, line: string, deadline: int)
    requires t.instance !in done
    ensures var e := Lengthened(p, done, t.level, t.event, line, deadline);
      && Key(t) !in e
      && e[Key(t) := WithLine(p, t, line, deadline)]
         == Lengthened(p, done + {t.instance}, t.level, t.event, line, deadline)
  {
    hide Key, WithLine, NameIn;
    assert t == Topic(t.instance, t.level, t.event);
    NameInKey(t.instance, t.level, t.event);
    forall n | n in done ensures Key(Topic(n, t.level, t.event)) != Key(t) { NameInKey(n, t.level, t.event); }
    assert KeysFor(done + {t.instance}, t.level, t.event) == KeysFor(done, t.level, t.event) + {Key(t)};
  }

  lemma BufferNext(p: Pending, done: set<string>, t: Topic, line: string, deadline: int)
    requires t.instance !in done
    ensures var q := Buffered(p, done, t.level, t.event, line, deadline);
      q[Key(t) := WithLine(q, t, line, deadline)]
      == Buffered(p, done + {t.instance}, t.level, t.event, line, deadline)
  {
    hide Key, Lengthened;
    LengthenedNext(p, done, t, line, deadline);
  }

  function Expired(p: Pending, now: int): set<string> {
    set k | k in p && now >= p[k].deadline
  }

  /** `order` has every key of `keys` exactly once. */
  ghost predicate Lists(order: seq<string>, keys: set<string>) {
    && (forall i :: 0 <= i < |order| ==> order[i] in keys)
    && (forall k :: k in keys ==> k in order)
    && (forall i, j :: 0 <= i < j < |order| ==> order[i] != order[j])
  }

  /** The aggregates under the keys `order`. */
  ghost function Taken(p: Pending, order: seq<string>): seq<Aggregate> {
    if order == [] || order[|order| - 1] !in p then []
    else Taken(p, order[..|order| - 1]) + [p[order[|order| - 1]]]
  }
}
