/** The seeds table: one row per (source site, info hash), each repository call one
    atomic statement. */
module Seeds {
  import opened Options

  /** The whitelisted statuses, and any other text. */
  datatype Status =
    | Discovered | Downloading | Downloaded | Processing | Seeding | Retry | Failed | Retired | Skipped
    | Other(text: string)

  datatype Seed = Seed(site: string, hash: string, status: Status, error: string, retryCount: int)

  type Rows = map<int, Seed>

  /** No two rows share site and hash, and ids are never given out again. */
  ghost predicate Sane(rows: Rows, nextId: int) {
    && (forall i :: i in rows ==> i < nextId)
    && (forall i, j :: i in rows && j in rows && rows[i].site == rows[j].site && rows[i].hash == rows[j].hash
          ==> i == j)
  }

  /** What a restart does to a seed caught in mid-flight; a downloaded one stays as it is. */
  function Reclaimed(s: Seed): Seed {
    if s.status == Downloading || s.status == Processing then s.(status := Retry) else s
  }

  predicate Increasing(ids: seq<int>) { forall i, j :: 0 <= i < j < |ids| ==> ids[i] < ids[j] }

  class SeedTable {
    var rows: Rows
    var nextId: int

    ghost predicate Valid()
      reads this
    {
      Sane(rows, nextId)
    }

    constructor ()
      ensures Valid() && rows == map[]
    {
      rows, nextId := map[], 1;
    }

    method FindByHash(site: string, hash: string) returns (id: Option<int>)
      ensures id.Some? ==> id.value in rows && rows[id.value].site == site && rows[id.value].hash == hash
      ensures id.None? ==> forall i :: i in rows ==> rows[i].site != site || rows[i].hash != hash
    {
      if i :| i in rows && rows[i].site == site && rows[i].hash == hash { return Some(i); }
      return None;
    }

    /** The id of the one row of this site and hash, put in unless it was there; a row that
        was there is left as it is. None for a status that is not whitelisted. */
    method CreateSeed(site: string, hash: string, status: Status) returns (id: Option<int>)
      requires Valid()
      modifies this
      ensures Valid()
      ensures id.None? <==> status.Other?
      ensures id.None? ==> rows == old(rows)
      ensures id.Some? ==> id.value in rows && rows[id.value].site == site && rows[id.value].hash == hash
      ensures id.Some? && id.value in old(rows) ==> rows == old(rows)
      ensures id.Some? && id.value !in old(rows)
        ==> rows == old(rows)[id.value := Seed(site, hash, status, "", 0)] && id.value >= old(nextId)
    {
      if status.Other? { return None; }
      id := FindByHash(site, hash);
      if id.None? {
        id := Some(nextId);
        rows := rows[nextId := Seed(site, hash, status, "", 0)];
        nextId := nextId + 1;
      }
    }

    method UpdateSeedStatus(id: int, status: Status, error: string) returns (ok: bool)
      requires Valid()
      modifies this`rows
      ensures Valid() && ok == !status.Other?
      ensures rows == if ok && id in old(rows) then old(rows)[id := old(rows)[id].(status := status, error := error)]
                      else old(rows)
    {
      if status.Other? { return false; }
      if id in rows { rows := rows[id := rows[id].(status := status, error := error)]; }
      return true;
    }

    method BumpRetry(id: int)
      requires Valid()
      modifies this`rows
      ensures Valid()
      ensures rows == if id in old(rows) then old(rows)[id := old(rows)[id].(retryCount := old(rows)[id].retryCount + 1)]
                      else old(rows)
    {
      if id in rows { rows := rows[id := rows[id].(retryCount := rows[id].retryCount + 1)]; }
    }

    /** The bulk statement Start runs over the seeds left in mid-flight. */
    method Reclaim()
      requires Valid()
      modifies this`rows
      ensures Valid() && rows == map i | i in old(rows) :: Reclaimed(old(rows)[i])
    {
      rows := map i | i in rows :: Reclaimed(rows[i]);
    }

    /** The ids of the rows with this status, in ascending order. */
    method ListSeedsByStatus(status: Status) returns (ids: seq<int>)
      ensures Increasing(ids)
      ensures forall i :: i in ids <==> i in rows && rows[i].status == status
    {
      ids := [];
      var todo := set i | i in rows && rows[i].status == status;
      while todo != {}
        invariant Increasing(ids)
        invariant forall i :: i in ids <==> i in rows && rows[i].status == status && i !in todo
        invariant forall i :: i in todo ==> i in rows && rows[i].status == status
        invariant forall k, i :: 0 <= k < |ids| && i in todo ==> ids[k] < i
        decreases |todo|
      {
        var least := Least(todo);
        ids := ids + [least];
        todo := todo - {least};
      }
    }
  }

  method AnyOf<T(==)>(s: set<T>) returns (x: T)
    requires s != {}
    ensures x in s
  {
    x :| x in s;
  }

  method Least(s: set<int>) returns (least: int)
    requires s != {}
    ensures least in s && forall i :: i in s ==> least <= i
  {
    least := AnyOf(s);
    var todo := s;
    while todo != {}
      invariant todo <= s && least in s
      invariant forall i :: i in s ==> i in todo || least <= i
      decreases |todo|
    {
      var i := AnyOf(todo);
      if i < least { least := i; }
      todo := todo - {i};
    }
  }
}
