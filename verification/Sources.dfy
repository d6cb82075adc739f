/** The failure window of an RSS source: back-off between failed fetches, and a pause with
    a critical notification at the third failure in a row. Times are nanoseconds. */
module Sources {

  const MAX_FAILURES: nat := 3

  const SECOND: int := 1_000_000_000

  /** `nextAllowed` is zero while the source is not backing off. */
  datatype Health = Health(fails: nat, nextAllowed: int)

  const UNSEEN := Health(0, 0)

  datatype Fetch = Fetch(time: int, failed: bool)

  /** 60 s, doubled for each further attempt, and 900 s at most. */
  function Backoff(attempt: int): int {
    if attempt <= 0 then 60 * SECOND
    else
      var d := Backoff(attempt - 1) * 2;
      if d >= 900 * SECOND then 900 * SECOND else d
  }

  predicate MayFetch(h: Health, now: int) { h.nextAllowed <= now }

  /** The health of a source after a fetch. */
  function After(h: Health, x: Fetch): Health {
    if !x.failed || h.fails + 1 >= MAX_FAILURES then UNSEEN
    else Health(h.fails + 1, x.time + Backoff(h.fails))
  }

  function Replay(log: seq<Fetch>): Health {
    if log == [] then UNSEEN else After(Replay(log[..|log| - 1]), log[|log| - 1])
  }

  /** How many failures `log` ends with. */
  function Trailing(log: seq<Fetch>): nat {
    if log == [] || !log[|log| - 1].failed then 0 else 1 + Trailing(log[..|log| - 1])
  }

  class SourcePoller {
    var pollState: map<int, Health>
    var paused: seq<int>

    constructor ()
      ensures pollState == map[] && paused == []
    {
      pollState, paused := map[], [];
    }

    /** pollSource without the ingestion: `failed` is how the fetch ends if it is made. The
        source is paused, with a critical notification, exactly at its third failure. */
    method PollSource(id: int, now: int, failed: bool) returns (fetched: bool)
      requires now >= 0
      modifies this
      ensures fetched <==> MayFetch(HealthOf(old(pollState), id), now)
      ensures HealthOf(pollState, id)
        == if fetched then After(HealthOf(old(pollState), id), Fetch(now, failed)) else HealthOf(old(pollState), id)
      ensures forall i :: i != id ==> HealthOf(pollState, i) == HealthOf(old(pollState), i)
      ensures paused == old(paused)
        + if fetched && failed && HealthOf(old(pollState), id).fails + 1 >= MAX_FAILURES then [id] else []
    {
      if id !in pollState { pollState := pollState[id := UNSEEN]; }
      if pollState[id].nextAllowed > now { return false; }
      if !failed {
        pollState := pollState[id := UNSEEN];
        return true;
      }
      pollState := pollState[id := pollState[id].(fails := pollState[id].fails + 1)];
      var fails := pollState[id].fails;
      if fails >= MAX_FAILURES {
        paused := paused + [id];
        pollState := pollState - {id};
        return true;
      }
      pollState := pollState[id := pollState[id].(nextAllowed := now + Backoff(fails - 1))];
      return true;
    }
  }

  function HealthOf(states: map<int, Health>, id: int): Health {
    if id in states then states[id] else UNSEEN
  }

  /** The counter is the number of failures in a row, modulo three: a failed fetch pauses the
      source exactly when it completes a third, sixth, ... failure without a success between. */
  lemma {:induction false} PausesAtThird(log: seq<Fetch>)
    ensures Replay(log).fails == Trailing(log) % MAX_FAILURES
    ensures log != [] && log[|log| - 1].failed ==>
      (Replay(log[..|log| - 1]).fails + 1 >= MAX_FAILURES <==> Trailing(log) % MAX_FAILURES == 0)
  {
    if log != [] { PausesAtThird(log[..|log| - 1]); }
  }

  /** The source may be fetched again from 60 s after a first failure in a row on, from 120 s
      after a second, and at once after a success or a pause. */
  lemma {:induction false} MayFetchIff(log: seq<Fetch>, now: int)
    requires now >= 0
    ensures var n := Trailing(log) % 3;
      && (n == 0 ==> MayFetch(Replay(log), now))
      && (n == 1 ==> (MayFetch(Replay(log), now) <==> now >= log[|log| - 1].time + 60 * SECOND))
      && (n == 2 ==> (MayFetch(Replay(log), now) <==> now >= log[|log| - 1].time + 120 * SECOND))
  {
    PausesAtThird(log);
    if log != [] { PausesAtThird(log[..|log| - 1]); }
    assert Backoff(0) == 60 * SECOND && Backoff(1) == 120 * SECOND;
  }

  /** Every fetch was made when the source allowed it. */
  ghost predicate Obedient(log: seq<Fetch>) {
    forall i :: 0 <= i < |log| ==> MayFetch(Replay(log[..i]), log[i].time)
  }

  /** After the first failure in a row the next fetch waits at least 60 s, after the second
      at least 120 s; after a third the source is paused and has a clean slate. */
  lemma {:induction false} FetchesSpaced(log: seq<Fetch>, i: nat)
    requires Obedient(log) && i + 1 < |log| && log[i].failed
    ensures var n := Trailing(log[..i + 1]) % MAX_FAILURES;
      && (n == 1 ==> log[i + 1].time >= log[i].time + 60 * SECOND)
      && (n == 2 ==> log[i + 1].time >= log[i].time + 120 * SECOND)
      && (n == 0 ==> Replay(log[..i + 1]) == UNSEEN)
  {
    var upTo := log[..i + 1];
    assert upTo[..|upTo| - 1] == log[..i];
    PausesAtThird(log[..i]);
    PausesAtThird(upTo);
    assert MayFetch(Replay(log[..i + 1]), log[i + 1].time);
    assert Backoff(0) == 60 * SECOND && Backoff(1) == 120 * SECOND;
  }
}
