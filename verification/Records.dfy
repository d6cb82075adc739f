/** The relay_records table: one row per (seed, target), each repository call one
    atomic statement. */
module Records {
  import opened Options

  /** The whitelisted statuses, and any other text. */
  datatype Status =
    | Pending | Uploading | Published | CrossSeeding | Seeding | Failed | Retired | SkippedExisting
    | Other(text: string)

  datatype Role = Publisher | Seeder

  datatype Row = Row(role: Role, status: Status, attempts: nat, lastError: string,
                     publishedAt: int, retiredAt: int, retireReason: string)

  type Key = (int, int)

  /** A row as UpsertRecord writes it: never published or retired at birth. */
  function Claimed(role: Role, status: Status): Row {
    Row(role, status, 0, "", 0, 0, "")
  }

  function Publishing(r: Row, at: int): Row {
    r.(status := Published, lastError := "", publishedAt := if r.publishedAt == 0 then at else r.publishedAt)
  }

  /** One repository call on the table; the writes of a missing row change nothing. */
  datatype Call =
    | Upsert(role: Role, status: Status)
    | SetRole(role: Role)
    | MarkPublished(at: int)
    | UpdateStatus(status: Status, error: string)
    | UpdateAttempt(status: Status, error: string)
    | MarkRetired(at: int, reason: string)

  function Applied(row: Option<Row>, c: Call): Option<Row> {
    match c
    case Upsert(role, status) => if row.None? && !status.Other? then Some(Claimed(role, status)) else row
    case SetRole(role) => if row.Some? then Some(row.value.(role := role)) else row
    case MarkPublished(at) => if row.Some? then Some(Publishing(row.value, at)) else row
    case UpdateStatus(status, error) =>
      if row.Some? && !status.Other? then Some(row.value.(status := status, lastError := error)) else row
    case UpdateAttempt(status, error) =>
      if row.Some? && !status.Other? then
        Some(row.value.(attempts := row.value.attempts + 1, status := status, lastError := error))
      else row
    case MarkRetired(at, reason) =>
      if row.Some? then Some(row.value.(retiredAt := at, retireReason := reason)) else row
  }

  function Lookup(rows: map<Key, Row>, k: Key): Option<Row> {
    if k in rows then Some(rows[k]) else None
  }

  /** The table `rows` with the call `c` applied at `k` and nothing else touched. */
  ghost predicate Changes(rows: map<Key, Row>, k: Key, c: Call, after: map<Key, Row>) {
    && Lookup(after, k) == Applied(Lookup(rows, k), c)
    && forall j :: j != k ==> Lookup(after, j) == Lookup(rows, j)
  }

  class RecordTable {
    var rows: map<Key, Row>

    constructor ()
      ensures rows == map[]
    {
      rows := map[];
    }

    method GetRecord(k: Key) returns (r: Option<Row>)
      ensures r == Lookup(rows, k)
    {
      if k in rows { return Some(rows[k]); }
      return None;
    }

    /** A row put in by another process. */
    method OtherWriter(k: Key, row: Row)
      modifies this
      ensures rows == old(rows)[k := row]
    {
      rows := rows[k := row];
    }

    /** None is an error; otherwise whether this call won the claim. */
    method UpsertRecord(k: Key, role: Role, status: Status) returns (inserted: Option<bool>)
      modifies this
      ensures Changes(old(rows), k, Upsert(role, status), rows)
      ensures inserted == if status.Other? then None else Some(k !in old(rows))
    {
      if status.Other? { return None; }
      if k in rows { return Some(false); }
      rows := rows[k := Claimed(role, status)];
      return Some(true);
    }

    method SetRecordRole(k: Key, role: Role)
      modifies this
      ensures Changes(old(rows), k, SetRole(role), rows)
    {
      if k in rows { rows := rows[k := rows[k].(role := role)]; }
    }

    method MarkPublishedAt(k: Key, at: int)
      modifies this
      ensures Changes(old(rows), k, MarkPublished(at), rows)
    {
      if k in rows { rows := rows[k := Publishing(rows[k], at)]; }
    }

    method UpdateRecordStatus(k: Key, status: Status, error: string) returns (ok: bool)
      modifies this
      ensures Changes(old(rows), k, UpdateStatus(status, error), rows) && ok == !status.Other?
    {
      if status.Other? { return false; }
      if k in rows { rows := rows[k := rows[k].(status := status, lastError := error)]; }
      return true;
    }

    method UpdateRecordAttempt(k: Key, status: Status, error: string) returns (ok: bool)
      modifies this
      ensures Changes(old(rows), k, UpdateAttempt(status, error), rows) && ok == !status.Other?
    {
      if status.Other? { return false; }
      if k in rows {
        rows := rows[k := rows[k].(attempts := rows[k].attempts + 1, status := status, lastError := error)];
      }
      return true;
    }

    method MarkRetiredAt(k: Key, at: int, reason: string)
      modifies this
      ensures Changes(old(rows), k, MarkRetired(at, reason), rows)
    {
      if k in rows { rows := rows[k := rows[k].(retiredAt := at, retireReason := reason)]; }
    }
  }

  // ------------------------------------------------ any sequence of calls

  function AppliedAll(row: Option<Row>, calls: seq<Call>): Option<Row>
    decreases |calls|
  {
    if calls == [] then row else AppliedAll(Applied(row, calls[0]), calls[1..])
  }

  /** How many Upserts of the sequence report that they inserted the row. */
  function Wins(row: Option<Row>, calls: seq<Call>): nat
    decreases |calls|
  {
    if calls == [] then 0
    else
      (if row.None? && calls[0].Upsert? && !calls[0].status.Other? then 1 else 0)
      + Wins(Applied(row, calls[0]), calls[1..])
  }

  lemma {:induction false} AppliedLast(row: Option<Row>, calls: seq<Call>)
    requires calls != []
    ensures AppliedAll(row, calls) == Applied(AppliedAll(row, calls[..|calls| - 1]), calls[|calls| - 1])
    decreases |calls|
  {
    hide Applied;
    if |calls| > 1 {
      AppliedLast(Applied(row, calls[0]), calls[1..]);
      assert calls[1..][..|calls| - 2] == calls[..|calls| - 1][1..];
    }
  }

  /** The statement sets status and error of a row that is there. */
  predicate SetsStatus(c: Call) {
    c.MarkPublished? || ((c.UpdateStatus? || c.UpdateAttempt?) && !c.status.Other?)
  }

  predicate SetsRole(c: Call) { c.SetRole? }

  predicate SetsRetirement(c: Call) { c.MarkRetired? }

  function StatusOf(c: Call): (Status, string)
    requires SetsStatus(c)
  {
    if c.MarkPublished? then (Published, "") else (c.status, c.error)
  }

  function Attempted(calls: seq<Call>): nat {
    if calls == [] then 0 else Attempted(calls[..|calls| - 1]) + if IsAttempt(calls[|calls| - 1]) then 1 else 0
  }

  predicate IsAttempt(c: Call) { c.UpdateAttempt? && !c.status.Other? }

  /** The last of the calls that satisfies `sets`, if any does: its place, or -1. */
  predicate LastAt(calls: seq<Call>, sets: Call -> bool, i: int) {
    -1 <= i < |calls| && (i >= 0 ==> sets(calls[i])) && forall j :: i < j < |calls| ==> !sets(calls[j])
  }

  /** Status and error are those of the last statement that sets them, or what they were. */
  lemma {:induction false} StatusIs(row: Row, calls: seq<Call>, i: int)
    requires LastAt(calls, SetsStatus, i)
    ensures var all := AppliedAll(Some(row), calls);
      && all.Some?
      && (all.value.status, all.value.lastError) == if i < 0 then (row.status, row.lastError) else StatusOf(calls[i])
    decreases |calls|
  {
    if calls != [] {
      AppliedLast(Some(row), calls);
      Dropped(calls, SetsStatus);
      StillThere(row, calls[..|calls| - 1]);
      if !SetsStatus(calls[|calls| - 1]) { StatusIs(row, calls[..|calls| - 1], i); }
    }
  }

  lemma {:induction false} StillThere(row: Row, calls: seq<Call>)
    ensures AppliedAll(Some(row), calls).Some?
    decreases |calls|
  {
    if calls != [] { StillThere(Applied(Some(row), calls[0]).value, calls[1..]); }
  }

  /** The role is that of the last statement that sets it, or what it was; and so is the retirement. */
  lemma {:induction false} RoleIs(row: Row, calls: seq<Call>, i: int)
    requires LastAt(calls, SetsRole, i)
    ensures var all := AppliedAll(Some(row), calls);
      all.Some? && all.value.role == if i < 0 then row.role else calls[i].role
    decreases |calls|
  {
    if calls != [] {
      AppliedLast(Some(row), calls);
      Dropped(calls, SetsRole);
      StillThere(row, calls[..|calls| - 1]);
      if !SetsRole(calls[|calls| - 1]) { RoleIs(row, calls[..|calls| - 1], i); }
    }
  }

  lemma {:induction false} RetirementIs(row: Row, calls: seq<Call>, i: int)
    requires LastAt(calls, SetsRetirement, i)
    ensures var all := AppliedAll(Some(row), calls);
      && all.Some?
      && (all.value.retiredAt, all.value.retireReason)
         == if i < 0 then (row.retiredAt, row.retireReason) else (calls[i].at, calls[i].reason)
    decreases |calls|
  {
    if calls != [] {
      AppliedLast(Some(row), calls);
      Dropped(calls, SetsRetirement);
      StillThere(row, calls[..|calls| - 1]);
      if !SetsRetirement(calls[|calls| - 1]) { RetirementIs(row, calls[..|calls| - 1], i); }
    }
  }

  /** Every failed or retried attempt is counted, and a record not yet published gets the time of
      the first publish that has one. */
  lemma {:induction false} AttemptsAre(row: Row, calls: seq<Call>)
    ensures var all := AppliedAll(Some(row), calls);
      && all.Some? && all.value.attempts == row.attempts + Attempted(calls)
      && all.value.publishedAt == if row.publishedAt != 0 then row.publishedAt else FirstPublish(calls)
    decreases |calls|
  {
    if calls != [] {
      AttemptsAre(row, calls[..|calls| - 1]);
      AppliedLast(Some(row), calls);
      FirstPublishLast(calls);
    }
  }

  /** The time of the first publish that has one, or zero. */
  function FirstPublish(calls: seq<Call>): int {
    if calls == [] then 0
    else if calls[0].MarkPublished? && calls[0].at != 0 then calls[0].at
    else FirstPublish(calls[1..])
  }

  lemma {:induction false} FirstPublishLast(calls: seq<Call>)
    requires calls != []
    ensures var before, c := FirstPublish(calls[..|calls| - 1]), calls[|calls| - 1];
      FirstPublish(calls) == if before != 0 || !c.MarkPublished? then before else c.at
    decreases |calls|
  {
    if |calls| > 1 {
      FirstPublishLast(calls[1..]);
      assert calls[1..][..|calls| - 2] == calls[..|calls| - 1][1..];
    }
  }

  lemma Dropped(calls: seq<Call>, sets: Call -> bool)
    requires calls != []
    ensures forall i :: LastAt(calls, sets, i) ==>
      if sets(calls[|calls| - 1]) then i == |calls| - 1 else i < |calls| - 1 && LastAt(calls[..|calls| - 1], sets, i)
  {
  }

  /** However callers interleave on one (seed, target): exactly one claim wins if any valid
      one is made on a missing row, and none on an existing one; the first publish time
      stays; only MarkRetired writes the retirement columns. */
  lemma {:induction false} CallsKeep(row: Option<Row>, calls: seq<Call>)
    ensures var after := AppliedAll(row, calls);
      && Wins(row, calls) == (if row.None? && after.Some? then 1 else 0)
      && (row.Some? ==> after.Some?)
      && (row.None? ==> (after.Some? <==> exists i :: 0 <= i < |calls| && calls[i].Upsert? && !calls[i].status.Other?))
      && (row.Some? && row.value.publishedAt != 0 ==> after.value.publishedAt == row.value.publishedAt)
      && ((forall i :: 0 <= i < |calls| ==> !calls[i].MarkRetired?) && row.Some? ==>
            after.value.retiredAt == row.value.retiredAt && after.value.retireReason == row.value.retireReason)
    decreases |calls|
  {
    if calls != [] {
      CallsKeep(Applied(row, calls[0]), calls[1..]);
      assert forall i :: 0 < i < |calls| ==> calls[i] == calls[1..][i - 1];
    }
  }
}
