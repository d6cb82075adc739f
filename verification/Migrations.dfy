/** Versioned schema migrations, each in its own transaction, over startups that may fail
    or be killed at any point. */
module Migrations {
  import opened Octets
  import Sql = SqlSplit

  /** A migration file; the number in front of its name is its version. */
  datatype Migration = Migration(version: nat, name: Bytes, sql: string)

  /** What is committed: user_version, and the statements executed so far. */
  datatype Db = Db(version: int, log: seq<string>)

  function Committed(db: Db, m: Migration): Db { Db(m.version, db.log + Sql.Statements(m.sql)) }

  function Applied(db: Db, ms: seq<Migration>): Db {
    if ms == [] then db else Committed(Applied(db, ms[..|ms| - 1]), ms[|ms| - 1])
  }

  predicate Ordered(ms: seq<Migration>) { forall i, j :: 0 <= i < j < |ms| ==> ms[i].version <= ms[j].version }

  predicate Increasing(ms: seq<Migration>) { forall i, j :: 0 <= i < j < |ms| ==> ms[i].version < ms[j].version }

  /** The migrations a startup at `version` goes through, in order. */
  function Todo(ms: seq<Migration>, version: int): seq<Migration> {
    if ms == [] then []
    else if ms[0].version <= version then Todo(ms[1..], version)
    else [ms[0]] + Todo(ms[1..], ms[0].version)
  }

  class Database {
    var version: int
    var log: seq<string>

    function View(): Db
      reads this
    {
      Db(version, log)
    }

    constructor ()
      ensures View() == Db(0, [])
    {
      version, log := 0, [];
    }

    /** One transaction: its statements, the version and the commit, of which number `broken`
        fails or is never reached. All of it is committed, or nothing. */
    method ApplyMigration(m: Migration, broken: nat) returns (ok: bool)
      modifies this
      ensures ok <==> broken >= |Sql.Statements(m.sql)| + 2
      ensures View() == if ok then Committed(old(View()), m) else old(View())
    {
      hide Sql.Statements;
      var stmts := Sql.SplitStatements(m.sql);
      var tx := log;
      for i := 0 to |stmts|
        invariant tx == log + stmts[..i] && broken >= i && View() == old(View())
      {
        if broken == i { return false; }
        tx := tx + [stmts[i]];
      }
      assert stmts[..|stmts|] == stmts;
      if broken == |stmts| || broken == |stmts| + 1 { return false; }
      version, log := m.version, tx;
      return true;
    }
  }

  lemma Inserted(ms: seq<Migration>, j: nat, x: Migration)
    requires Ordered(ms) && j <= |ms| && (j > 0 ==> ms[j - 1].version <= x.version)
    requires forall k :: j <= k < |ms| ==> ms[k].version > x.version
    ensures Ordered(ms[..j] + [x] + ms[j..])
  {
    var before, after := ms[..j], ms[j..];
    assert forall k :: 0 <= k < j ==> before[k].version <= x.version by {
      forall k | 0 <= k < j ensures ms[k].version <= x.version { assert ms[k].version <= ms[j - 1].version; }
    }
    forall k, l | 0 <= k < l < |after| ensures after[k].version <= after[l].version {
      assert after[k] == ms[j + k] && after[l] == ms[j + l];
    }
    assert forall k, l :: 0 <= k < l < j ==> before[k].version <= before[l].version;
    assert forall l :: 0 <= l < |after| ==> x.version <= after[l].version;
    Joined(before, x, after);
  }

  lemma Joined(before: seq<Migration>, x: Migration, after: seq<Migration>)
    requires Ordered(before) && Ordered(after)
    requires forall k :: 0 <= k < |before| ==> before[k].version <= x.version
    requires forall l :: 0 <= l < |after| ==> x.version <= after[l].version
    ensures Ordered(before + [x] + after)
  {
  }

  /** Sorted by version, as some permutation of the files. */
  method SortByVersion(files: seq<Migration>) returns (ms: seq<Migration>)
    ensures Ordered(ms) && multiset(ms) == multiset(files)
  {
    ms := [];
    assert Ordered(ms);
    hide Ordered;
    for i := 0 to |files|
      invariant Ordered(ms) && multiset(ms) == multiset(files[..i])
    {
      var j := |ms|;
      while j > 0 && ms[j - 1].version > files[i].version
        invariant 0 <= j <= |ms| && forall k :: j <= k < |ms| ==> ms[k].version > files[i].version
      {
        j := j - 1;
      }
      assert files[..i + 1] == files[..i] + [files[i]];
      Inserted(ms, j, files[i]);
      assert ms == ms[..j] + ms[j..];
      ms := ms[..j] + [files[i]] + ms[j..];
    }
    assert files[..|files|] == files;
  }

  /** One startup over the sorted files; `broken` says where the transaction of each file breaks.
      Whatever happens, the first `n` migrations to do are committed, and all of them on success. */
  method MigrateFS(db: Database, files: seq<Migration>, broken: Migration -> nat)
    returns (ok: bool, ghost ms: seq<Migration>, ghost n: nat)
    modifies db
    ensures Ordered(ms) && multiset(ms) == multiset(files)
    ensures n <= |Todo(ms, old(db.version))|
    ensures db.View() == Applied(old(db.View()), Todo(ms, old(db.version))[..n])
    ensures ok <==> n == |Todo(ms, old(db.version))|
  {
    var sorted := SortByVersion(files);
    ms, n := sorted, 0;
    var current := db.version;
    ghost var todo := Todo(ms, current);
    for i := 0 to |sorted|
      invariant n <= |todo| && todo[n..] == Todo(sorted[i..], current) && current == db.version
      invariant db.View() == Applied(old(db.View()), todo[..n])
    {
      var m := sorted[i];
      assert sorted[i..][0] == m && sorted[i..][1..] == sorted[i + 1..];
      if m.version > current {
        assert todo[n..][0] == m && todo[n..][1..] == todo[n + 1..];
        var done := db.ApplyMigration(m, broken(m));
        if !done { return false, ms, n; }
        assert todo[..n + 1][..n] == todo[..n];
        n := n + 1;
        current := m.version;
      }
    }
    return true, ms, n;
  }

  // --------------------------------------------------------------- histories

  lemma {:induction false} TodoIncreases(ms: seq<Migration>, version: int)
    ensures Increasing(Todo(ms, version)) && forall i :: 0 <= i < |Todo(ms, version)| ==> Todo(ms, version)[i].version > version
    ensures forall m :: m in Todo(ms, version) ==> m in ms
  {
    if ms != [] { TodoIncreases(ms[1..], if ms[0].version <= version then version else ms[0].version); }
  }

  /** A startup: its files in sorted order, and how many migrations it commits. */
  datatype Startup = Startup(ms: seq<Migration>, n: nat)

  ghost predicate Possible(db: Db, runs: seq<Startup>)
    decreases |runs|
  {
    runs == [] || (
      && Ordered(runs[0].ms) && runs[0].n <= |Todo(runs[0].ms, db.version)|
      && Possible(Applied(db, Todo(runs[0].ms, db.version)[..runs[0].n]), runs[1..]))
  }

  /** All that is committed by a sequence of startups, in order. */
  ghost function Commits(db: Db, runs: seq<Startup>): seq<Migration>
    requires Possible(db, runs)
    decreases |runs|
  {
    if runs == [] then []
    else
      var done := Todo(runs[0].ms, db.version)[..runs[0].n];
      done + Commits(Applied(db, done), runs[1..])
  }

  lemma {:induction false} AppliedAll(db: Db, a: seq<Migration>, b: seq<Migration>)
    ensures Applied(Applied(db, a), b) == Applied(db, a + b)
  {
    if b == [] {
      assert a + b == a;
    } else {
      var all := a + b;
      assert all[..|all| - 1] == a + b[..|b| - 1];
      AppliedAll(db, a, b[..|b| - 1]);
    }
  }

  /** The version of the database after `ms`. */
  function LastVersion(version: int, ms: seq<Migration>): int {
    if ms == [] then version else ms[|ms| - 1].version
  }

  predicate Ascends(version: int, ms: seq<Migration>) {
    Increasing(ms) && forall i :: 0 <= i < |ms| ==> ms[i].version > version
  }

  lemma AscendsOn(version: int, a: seq<Migration>, b: seq<Migration>)
    requires Ascends(version, a) && Ascends(LastVersion(version, a), b)
    ensures Ascends(version, a + b) && LastVersion(version, a + b) == LastVersion(LastVersion(version, a), b)
  {
    forall i, j | 0 <= i < |a| && 0 <= j < |b| ensures a[i].version < b[j].version {
      assert i < |a| - 1 ==> a[i].version < a[|a| - 1].version;
    }
  }

  /** Over any startups, with whatever files each finds and wherever each breaks off: versions
      are applied at most once and in strictly increasing order, the database holds what was
      applied, and user_version is that of the last. */
  lemma {:induction false} InOrderOnce(db: Db, runs: seq<Startup>)
    requires Possible(db, runs)
    ensures var all := Commits(db, runs);
      && Increasing(all) && (forall i :: 0 <= i < |all| ==> all[i].version > db.version)
      && Applied(db, all).version == if all == [] then db.version else all[|all| - 1].version
    decreases |runs|
  {
    if runs == [] {
    } else {
      hide Increasing, Todo, Applied;
      var todo := Todo(runs[0].ms, db.version);
      var done := todo[..runs[0].n];
      TodoIncreases(runs[0].ms, db.version);
      FirstAscends(db.version, todo, runs[0].n);
      AppliedVersion(db, done);
      InOrderOnce(Applied(db, done), runs[1..]);
      AscendsOn(db.version, done, Commits(Applied(db, done), runs[1..]));
      AppliedVersion(db, Commits(db, runs));
    }
  }

  lemma FirstAscends(version: int, ms: seq<Migration>, n: nat)
    requires Ascends(version, ms) && n <= |ms|
    ensures Ascends(version, ms[..n])
  {
  }

  lemma AppliedVersion(db: Db, ms: seq<Migration>)
    ensures Applied(db, ms).version == LastVersion(db.version, ms)
  {
  }

  /** The database after the startups. */
  ghost function Final(db: Db, runs: seq<Startup>): Db
    requires Possible(db, runs)
    decreases |runs|
  {
    if runs == [] then db else Final(Applied(db, Todo(runs[0].ms, db.version)[..runs[0].n]), runs[1..])
  }

  lemma {:induction false} FinalIs(db: Db, runs: seq<Startup>)
    requires Possible(db, runs)
    ensures Final(db, runs) == Applied(db, Commits(db, runs))
    decreases |runs|
  {
    if runs != [] {
      var done := Todo(runs[0].ms, db.version)[..runs[0].n];
      FinalIs(Applied(db, done), runs[1..]);
      AppliedAll(db, done, Commits(Applied(db, done), runs[1..]));
    }
  }

  /** Where a startup broke off, the next one goes on. */
  lemma {:induction false} Resumes(ms: seq<Migration>, version: int, n: nat)
    requires Ordered(ms) && n <= |Todo(ms, version)|
    ensures var todo := Todo(ms, version);
      Todo(ms, if n == 0 then version else todo[n - 1].version) == todo[n..]
  {
    if ms != [] && n > 0 {
      var todo, rest := Todo(ms, version), ms[1..];
      TodoIncreases(ms, version);
      if ms[0].version <= version {
        Resumes(rest, version, n);
      } else {
        assert todo[1..] == Todo(rest, ms[0].version);
        Resumes(rest, ms[0].version, n - 1);
        assert todo[n - 1].version >= ms[0].version;
        assert todo[1..][n - 1..] == todo[n..];
      }
    }
  }

  lemma {:induction false} SameFiles(db: Db, runs: seq<Startup>, ms: seq<Migration>)
    requires Possible(db, runs) && Ordered(ms) && forall i :: 0 <= i < |runs| ==> runs[i].ms == ms
    ensures Commits(db, runs) <= Todo(ms, db.version)
    ensures Todo(ms, Final(db, runs).version) == Todo(ms, db.version)[|Commits(db, runs)|..]
    decreases |runs|
  {
    if runs != [] {
      var todo := Todo(ms, db.version);
      var done := todo[..runs[0].n];
      var mid := Applied(db, done);
      hide Ordered, Applied, Todo;
      AppliedVersion(db, done);
      Resumes(ms, db.version, runs[0].n);
      assert Todo(ms, mid.version) == todo[runs[0].n..];
      SameFiles(mid, runs[1..], ms);
      assert todo == done + todo[runs[0].n..];
    }
  }

  /** Once one startup completes, the database is what a single uninterrupted startup makes
      of it, however many broke off before. */
  lemma {:induction false} SameAsUninterrupted(db: Db, runs: seq<Startup>, ms: seq<Migration>)
    requires Possible(db, runs) && Ordered(ms) && forall i :: 0 <= i < |runs| ==> runs[i].ms == ms
    requires Todo(ms, Final(db, runs).version) == []
    ensures Final(db, runs) == Applied(db, Todo(ms, db.version))
  {
    SameFiles(db, runs, ms);
    FinalIs(db, runs);
    assert Commits(db, runs) == Todo(ms, db.version);
  }

  // -------------------------------------------------- what was executed

  /** The statements of the files, file by file. */
  function AllStatements(ms: seq<Migration>): seq<string> {
    if ms == [] then [] else Sql.Statements(ms[0].sql) + AllStatements(ms[1..])
  }

  lemma {:induction false} StatementsSnoc(ms: seq<Migration>, m: Migration)
    ensures AllStatements(ms + [m]) == AllStatements(ms) + Sql.Statements(m.sql)
  {
    hide Sql.Statements;
    if ms == [] {
      assert [m][1..] == [];
    } else {
      StatementsSnoc(ms[1..], m);
      assert (ms + [m])[1..] == ms[1..] + [m];
    }
  }

  lemma {:induction false} LogOf(db: Db, ms: seq<Migration>)
    ensures Applied(db, ms).log == db.log + AllStatements(ms)
  {
    hide Sql.Statements;
    if ms != [] {
      var init, m := ms[..|ms| - 1], ms[|ms| - 1];
      LogOf(db, init);
      StatementsSnoc(init, m);
      assert ms == init + [m];
    }
  }

  /** After any startups what was executed is, on top of what was before, the statements of the
      files that were applied, in order. */
  lemma {:induction false} Executed(db: Db, runs: seq<Startup>)
    requires Possible(db, runs)
    ensures Final(db, runs).log == db.log + AllStatements(Commits(db, runs))
  {
    FinalIs(db, runs);
    LogOf(db, Commits(db, runs));
  }

  // --------------------------------------------------- files of one version

  predicate DistinctVersions(ms: seq<Migration>) { forall i, j :: 0 <= i < j < |ms| ==> ms[i].version != ms[j].version }

  lemma {:induction false} DistinctAll(ms: seq<Migration>, version: int)
    requires Ordered(ms) && DistinctVersions(ms) && forall i :: 0 <= i < |ms| ==> ms[i].version > version
    ensures Todo(ms, version) == ms
  {
    if ms != [] {
      var rest := ms[1..];
      TailOrdered(ms);
      forall i | 0 <= i < |rest| ensures rest[i].version > ms[0].version {
        assert rest[i] == ms[i + 1] && ms[0].version <= ms[i + 1].version && ms[0].version != ms[i + 1].version;
      }
      hide Ordered, DistinctVersions;
      DistinctAll(rest, ms[0].version);
      assert ms == [ms[0]] + rest;
    }
  }

  /** Of files that are all above the database's version, all are applied exactly when no
      two of them share a version. */
  lemma {:induction false} AllFilesIff(ms: seq<Migration>, version: int)
    requires Ordered(ms) && forall i :: 0 <= i < |ms| ==> ms[i].version > version
    ensures Todo(ms, version) == ms <==> DistinctVersions(ms)
  {
    hide Todo, Ordered;
    TodoIncreases(ms, version);
    if DistinctVersions(ms) { DistinctAll(ms, version); }
  }

  /** Every version above the database's is applied. */
  lemma {:induction false} VersionIn(ms: seq<Migration>, version: int, i: nat)
    requires Ordered(ms) && i < |ms| && ms[i].version > version
    ensures exists m :: m in Todo(ms, version) && m.version == ms[i].version
  {
    if ms[0].version <= version {
      VersionIn(ms[1..], version, i - 1);
    } else if ms[i].version == ms[0].version {
      assert ms[0] in Todo(ms, version);
    } else {
      VersionIn(ms[1..], ms[0].version, i - 1);
      var m :| m in Todo(ms[1..], ms[0].version) && m.version == ms[i].version;
      assert m in Todo(ms, version);
    }
  }

  lemma SameHead(a: seq<Migration>, b: seq<Migration>)
    requires Ordered(a) && Ordered(b) && a != [] && b != [] && b[0] in a && a[0] in b && DistinctVersions(a)
    ensures a[0] == b[0]
  {
    var i :| 0 <= i < |a| && a[i] == b[0];
    var k :| 0 <= k < |b| && b[k] == a[0];
    assert b[0].version <= b[k].version && a[0].version <= a[i].version;
  }

  /** Without shared versions every sort leaves the files in the same order, so the result of
      a startup does not depend on it. */
  lemma {:induction false} OneOrder(a: seq<Migration>, b: seq<Migration>)
    requires Ordered(a) && Ordered(b) && multiset(a) == multiset(b) && DistinctVersions(a)
    ensures a == b
  {
    hide Ordered, DistinctVersions;
    if a == [] {
      assert |multiset(b)| == 0;
    } else {
      assert a[0] in multiset(b) && |multiset(a)| == |multiset(b)|;
      assert b[0] in multiset(a);
      SameHead(a, b);
      assert a == [a[0]] + a[1..] && b == [b[0]] + b[1..];
      assert multiset(a[1..]) == multiset(a) - multiset{a[0]} == multiset(b[1..]);
      TailOrdered(a);
      TailOrdered(b);
      OneOrder(a[1..], b[1..]);
    }
  }

  lemma TailOrdered(a: seq<Migration>)
    requires Ordered(a) && a != []
    ensures Ordered(a[1..]) && (DistinctVersions(a) ==> DistinctVersions(a[1..]))
  {
  }

  /** With a shared version the order decides which file is applied; the other never is. */
  lemma {:induction false} SharedVersion()
    ensures var a, b := Migration(1, Ascii("00001_a.sql"), "A"), Migration(1, Ascii("00001_b.sql"), "B");
      && a != b && Ordered([a, b]) && Ordered([b, a])
      && Todo([a, b], 0) == [a] && Todo([b, a], 0) == [b]
  {
    var a, b := Migration(1, Ascii("00001_a.sql"), "A"), Migration(1, Ascii("00001_b.sql"), "B");
    assert a.name[6] != b.name[6];
    assert [a, b][1..] == [b] && [b, a][1..] == [a] && [a][1..] == [] && [b][1..] == [];
    assert Todo([b], 1) == Todo([], 1) == Todo([a], 1);
  }
}
