/** The in-memory delay queue of failed seeds. Times are nanoseconds. */
module RetryQueue {

  const SECOND: int := 1_000_000_000

  const BACKOFFS: seq<int> := [60 * SECOND, 300 * SECOND, 900 * SECOND]

  datatype Item = Item(seed: int, retryNo: int, dueAt: int)

  /** The delay before retry `retryNo`: 60 s, 300 s, then 900 s for every later one. */
  function BackoffFor(retryNo: int): (d: int)
    ensures d == if retryNo <= 1 then 60 * SECOND else if retryNo == 2 then 300 * SECOND else 900 * SECOND
  {
    var n := if retryNo < 1 then 1 else retryNo;
    var i := if n - 1 >= |BACKOFFS| then |BACKOFFS| - 1 else n - 1;
    BACKOFFS[i]
  }

  function Ripe(items: seq<Item>, now: int): seq<Item> {
    if items == [] then []
    else
      var last := items[|items| - 1];
      var init := Ripe(items[..|items| - 1], now);
      if last.dueAt <= now then init + [last] else init
  }

  function Unripe(items: seq<Item>, now: int): seq<Item> {
    if items == [] then []
    else
      var last := items[|items| - 1];
      var init := Unripe(items[..|items| - 1], now);
      if last.dueAt <= now then init else init + [last]
  }

  class RetryQueue {
    var items: seq<Item>

    constructor ()
      ensures items == []
    {
      items := [];
    }

    method Enqueue(seed: int, retryNo: int, now: int)
      modifies this
      ensures items == old(items) + [Item(seed, retryNo, now + BackoffFor(retryNo))]
    {
      items := items + [Item(seed, retryNo, now + BackoffFor(retryNo))];
    }

    method Due(now: int) returns (due: seq<Item>)
      modifies this
      ensures due == Ripe(old(items), now) && items == Unripe(old(items), now)
    {
      due := [];
      var rest: seq<Item> := [];
      for i := 0 to |items|
        invariant items == old(items)
        invariant due == Ripe(items[..i], now) && rest == Unripe(items[..i], now)
      {
        assert items[..i + 1][..i] == items[..i];
        if items[i].dueAt > now {
          rest := rest + [items[i]];
        } else {
          due := due + [items[i]];
        }
      }
      assert items[..|items|] == items;
      items := rest;
    }

    /** Zero for an empty queue or a due item; otherwise exactly the time to the next due item:
        with nothing enqueued, Due finds nothing before then and something at that moment. */
    method NextWait(now: int) returns (wait: int)
      ensures wait >= 0
      ensures wait == 0 <==> items == [] || Ripe(items, now) != []
      ensures wait > 0 ==> Ripe(items, now + wait) != []
      ensures wait > 0 ==> forall t :: t < now + wait ==> Ripe(items, t) == [] && Unripe(items, t) == items
    {
      if items == [] { return 0; }
      var min := items[0].dueAt - now;
      for i := 1 to |items|
        invariant exists k :: 0 <= k < i && items[k].dueAt == now + min
        invariant forall k :: 0 <= k < i ==> items[k].dueAt >= now + min
      {
        if items[i].dueAt - now < min { min := items[i].dueAt - now; }
      }
      SomeRipe(items, now);
      SomeRipe(items, now + min);
      forall t | t < now + min ensures Ripe(items, t) == [] && Unripe(items, t) == items { NoneRipe(items, t); }
      if min < 0 { return 0; }
      return min;
    }
  }

  lemma {:induction false} SomeRipe(items: seq<Item>, now: int)
    ensures Ripe(items, now) != [] <==> exists k :: 0 <= k < |items| && items[k].dueAt <= now
  {
    if items != [] {
      var init := items[..|items| - 1];
      SomeRipe(init, now);
      if k :| 0 <= k < |init| && init[k].dueAt <= now { assert items[k].dueAt <= now; }
    }
  }

  lemma {:induction false} NoneRipe(items: seq<Item>, now: int)
    requires forall k :: 0 <= k < |items| ==> items[k].dueAt > now
    ensures Ripe(items, now) == [] && Unripe(items, now) == items
  {
    if items != [] { NoneRipe(items[..|items| - 1], now); }
  }

  // ------------------------------------------------------------------ runs

  datatype Op = Enqueue(seed: int, retryNo: int, now: int) | Due(now: int)

  function ItemOf(op: Op): Item
    requires op.Enqueue?
  {
    Item(op.seed, op.retryNo, op.now + BackoffFor(op.retryNo))
  }

  function Step(items: seq<Item>, op: Op): seq<Item> {
    if op.Enqueue? then items + [ItemOf(op)] else Unripe(items, op.now)
  }

  /** The queue after a run of operations. */
  function After(ops: seq<Op>): seq<Item> {
    if ops == [] then [] else Step(After(ops[..|ops| - 1]), ops[|ops| - 1])
  }

  /** Operation `d` is a Due at or after the due time of what operation `e` enqueued. */
  predicate Releases(ops: seq<Op>, e: nat, d: nat)
    requires e < |ops| && d < |ops| && ops[e].Enqueue?
  {
    e < d && ops[d].Due? && ItemOf(ops[e]).dueAt <= ops[d].now
  }

  ghost predicate Released(ops: seq<Op>, e: nat, before: nat)
    requires e < |ops| && before <= |ops| && ops[e].Enqueue?
  {
    exists d :: 0 <= d < before && Releases(ops, e, d)
  }

  /** In order, what the first `n` operations enqueued and nothing among `ops` has released. */
  ghost function Held(ops: seq<Op>, n: nat): seq<Item>
    requires n <= |ops|
  {
    if n == 0 then []
    else if ops[n - 1].Enqueue? && !Released(ops, n - 1, |ops|) then Held(ops, n - 1) + [ItemOf(ops[n - 1])]
    else Held(ops, n - 1)
  }

  /** In order, what the first `n` operations enqueued and operation `d` is the first to release. */
  ghost function ReleasedFirstBy(ops: seq<Op>, d: nat, n: nat): seq<Item>
    requires n <= |ops| && d < |ops|
  {
    if n == 0 then []
    else if ops[n - 1].Enqueue? && Releases(ops, n - 1, d) && !Released(ops, n - 1, d) then
      ReleasedFirstBy(ops, d, n - 1) + [ItemOf(ops[n - 1])]
    else ReleasedFirstBy(ops, d, n - 1)
  }

  /** Releasing does not look at later operations. */
  lemma ReleasedPrefix(ops: seq<Op>, op: Op, e: nat)
    requires e < |ops| && ops[e].Enqueue?
    ensures var all := ops + [op];
      && (Released(all, e, |ops|) <==> Released(ops, e, |ops|))
      && (Released(all, e, |all|) <==> Released(ops, e, |ops|) || Releases(all, e, |ops|))
      && (Releases(all, e, |ops|) <==> op.Due? && ItemOf(ops[e]).dueAt <= op.now)
  {
    var all := ops + [op];
    forall d | 0 <= d < |ops| ensures Releases(all, e, d) <==> Releases(ops, e, d) {}
  }

  lemma Append(items: seq<Item>, x: Item, now: int)
    ensures Ripe(items + [x], now) == if x.dueAt <= now then Ripe(items, now) + [x] else Ripe(items, now)
    ensures Unripe(items + [x], now) == if x.dueAt <= now then Unripe(items, now) else Unripe(items, now) + [x]
  {
    assert (items + [x])[..|items|] == items;
  }

  lemma {:induction false} DueSplits(ops: seq<Op>, now: int, n: nat)
    requires n <= |ops|
    ensures var all := ops + [Due(now)];
      && Ripe(Held(ops, n), now) == ReleasedFirstBy(all, |ops|, n)
      && Unripe(Held(ops, n), now) == Held(all, n)
  {
    hide Releases, Released, Ripe, Unripe;
    if n == 0 {
      NoneRipe([], now);
    } else {
      var e := n - 1;
      DueSplits(ops, now, e);
      if ops[e].Enqueue? {
        ReleasedPrefix(ops, Due(now), e);
        Append(Held(ops, e), ItemOf(ops[e]), now);
      }
    }
  }

  lemma {:induction false} EnqueueKeeps(ops: seq<Op>, op: Op, n: nat)
    requires n <= |ops| && op.Enqueue?
    ensures Held(ops + [op], n) == Held(ops, n)
  {
    if n > 0 {
      EnqueueKeeps(ops, op, n - 1);
      if ops[n - 1].Enqueue? { ReleasedPrefix(ops, op, n - 1); }
    }
  }

  /** Over any run: the queue holds exactly what was enqueued and not yet released by a Due
      at or after its due time, in insertion order ... */
  lemma {:induction false} QueueHolds(ops: seq<Op>)
    ensures After(ops) == Held(ops, |ops|)
  {
    if ops != [] {
      var init, op := ops[..|ops| - 1], ops[|ops| - 1];
      assert ops == init + [op];
      QueueHolds(init);
      if op.Due? {
        DueSplits(init, op.now, |init|);
      } else {
        EnqueueKeeps(init, op, |init|);
      }
    }
  }

  /** ... and a Due returns exactly the items it is the first to release, in insertion order:
      every item is returned once, by the first Due at or after its due time, never earlier. */
  lemma {:induction false} DueReturns(ops: seq<Op>, now: int)
    ensures Ripe(After(ops), now) == ReleasedFirstBy(ops + [Due(now)], |ops|, |ops|)
  {
    QueueHolds(ops);
    DueSplits(ops, now, |ops|);
  }

  function Returned(ops: seq<Op>): seq<Item> {
    if ops == [] then []
    else
      var init, op := ops[..|ops| - 1], ops[|ops| - 1];
      Returned(init) + if op.Due? then Ripe(After(init), op.now) else []
  }

  function Enqueued(ops: seq<Op>): seq<Item> {
    if ops == [] then []
    else
      var op := ops[|ops| - 1];
      Enqueued(ops[..|ops| - 1]) + if op.Enqueue? then [ItemOf(op)] else []
  }

  lemma {:induction false} SplitKeeps(items: seq<Item>, now: int)
    ensures multiset(Ripe(items, now)) + multiset(Unripe(items, now)) == multiset(items)
  {
    if items != [] {
      SplitKeeps(items[..|items| - 1], now);
      assert items == items[..|items| - 1] + [items[|items| - 1]];
    }
  }

  /** Nothing is lost or made up: returned and still queued is what was enqueued. */
  lemma {:induction false} Conserved(ops: seq<Op>)
    ensures multiset(Returned(ops)) + multiset(After(ops)) == multiset(Enqueued(ops))
  {
    if ops != [] {
      var init, op := ops[..|ops| - 1], ops[|ops| - 1];
      Conserved(init);
      if op.Due? { SplitKeeps(After(init), op.now); }
    }
  }
}
