/** Versions in the names of migration files: when the order of the names, in which a
    directory is listed, is the order of the versions. */
module MigrationNames {
  import opened Options
  import opened Octets
  import opened Decimal
  import opened Migrations
  import opened Selections

  const UNDERSCORE: byte := 95

  const SUFFIX := Ascii(".sql")

  /** The number in front of the first underscore; None where parseVersion reports an error. */
  function VersionOf(name: Bytes): Option<nat> {
    var i := IndexFrom(name, 0, UNDERSCORE);
    if i == |name| || i == 0 then None
    else
      var n := ParseInt(name[..i]);
      if n.None? || n.value < 1 then None else Some(n.value)
  }

  /** A directory entry; `sql` is missing where the file cannot be read. */
  datatype Entry = Entry(name: Bytes, isDir: bool, sql: Option<string>)

  predicate IsScript(e: Entry) {
    !e.isDir && |e.name| >= |SUFFIX| && e.name[|e.name| - |SUFFIX|..] == SUFFIX
  }

  /** The scripts of a directory, in its order; None if one has no version or cannot be read. */
  function Loaded(entries: seq<Entry>): Option<seq<Migration>> {
    if entries == [] then Some([])
    else
      var before, e := Loaded(entries[..|entries| - 1]), entries[|entries| - 1];
      if before.None? || !IsScript(e) then before
      else if VersionOf(e.name).None? || e.sql.None? then None
      else Some(before.value + [Migration(VersionOf(e.name).value, e.name, e.sql.value)])
  }

  /** The loop of migrateFS that runs before anything is applied. */
  method LoadMigrations(entries: seq<Entry>) returns (r: Option<seq<Migration>>)
    ensures r == Loaded(entries)
  {
    hide VersionOf, IsScript;
    var migs: seq<Migration> := [];
    for i := 0 to |entries|
      invariant Loaded(entries[..i]) == Some(migs)
    {
      var e := entries[i];
      assert entries[..i + 1][..i] == entries[..i];
      if IsScript(e) {
        var ver := VersionOf(e.name);
        if ver.None? || e.sql.None? {
          LoadedFails(entries, i + 1);
          return None;
        }
        migs := migs + [Migration(ver.value, e.name, e.sql.value)];
      }
    }
    assert entries[..|entries|] == entries;
    return Some(migs);
  }

  /** migrateFS: a script without a version, or one that cannot be read, stops it before
      anything is applied. */
  method Migrate(db: Database, entries: seq<Entry>, broken: Migration -> nat) returns (ok: bool, ghost ms: seq<Migration>, ghost n: nat)
    modifies db
    ensures Loaded(entries).None? ==> !ok && db.View() == old(db.View())
    ensures Loaded(entries).Some? ==>
      && Ordered(ms) && multiset(ms) == multiset(Loaded(entries).value)
      && n <= |Todo(ms, old(db.version))|
      && db.View() == Applied(old(db.View()), Todo(ms, old(db.version))[..n])
      && (ok <==> n == |Todo(ms, old(db.version))|)
  {
    hide Loaded, Todo, Applied, Ordered;
    var files := LoadMigrations(entries);
    if files.None? { return false, [], 0; }
    ok, ms, n := MigrateFS(db, files.value, broken);
  }

  lemma {:induction false} LoadedFails(entries: seq<Entry>, n: nat)
    requires n <= |entries| && Loaded(entries[..n]).None?
    ensures Loaded(entries).None?
    decreases |entries|
  {
    if n < |entries| {
      var init := entries[..|entries| - 1];
      assert init[..n] == entries[..n];
      LoadedFails(init, n);
    } else {
      assert entries[..n] == entries;
    }
  }

  predicate Named(m: Migration) { VersionOf(m.name) == Some(m.version) }

  /** What is loaded has the version of its name, and fails exactly for a script that has
      none or cannot be read. */
  lemma {:induction false} LoadedNamed(entries: seq<Entry>)
    ensures Loaded(entries).None?
      <==> exists i :: 0 <= i < |entries| && IsScript(entries[i]) && (VersionOf(entries[i].name).None? || entries[i].sql.None?)
    ensures Loaded(entries).Some? ==> forall m :: m in Loaded(entries).value ==> Named(m)
  {
    hide VersionOf, IsScript;
    if entries != [] {
      var init := entries[..|entries| - 1];
      LoadedNamed(init);
      assert forall i :: 0 <= i < |init| ==> init[i] == entries[i];
      if Loaded(init).None? {
        var i :| 0 <= i < |init| && IsScript(init[i]) && (VersionOf(init[i].name).None? || init[i].sql.None?);
        assert entries[i] == init[i];
      }
    }
  }

  /** What is loaded is every script of the directory, in its order, each with its name and text. */
  lemma {:induction false} LoadedAll(entries: seq<Entry>) returns (at: seq<nat>)
    requires Loaded(entries).Some?
    ensures var ms := Loaded(entries).value;
      && Selects(entries, IsScript, at) && |ms| == |at|
      && forall i :: 0 <= i < |at| ==>
           at[i] < |entries| && ms[i].name == entries[at[i]].name && Some(ms[i].sql) == entries[at[i]].sql
  {
    hide VersionOf, IsScript, Selects;
    if entries == [] {
      at := [];
      SelectsNone(IsScript);
    } else {
      var init, e := entries[..|entries| - 1], entries[|entries| - 1];
      at := LoadedAll(init);
      assert entries == init + [e];
      SelectsSnoc(init, e, IsScript, at);
      if IsScript(e) { at := at + [|init|]; }
    }
  }

  /** The version is the int64 numeral in front of the first underscore, if it is positive. */
  lemma {:induction false} VersionIff(name: Bytes, version: int64)
    requires version >= 0
    ensures VersionOf(name) == Some(version) <==>
      version >= 1 && exists i :: 0 < i < |name| && name[i] == UNDERSCORE && UNDERSCORE !in name[..i] && Spells(name[..i], version)
  {
    hide ParseInt, Spells;
    var i := IndexFrom(name, 0, UNDERSCORE);
    if 0 < i < |name| { ParseIntIff(name[..i], version); }
    forall k | 0 < k < |name| && name[k] == UNDERSCORE && UNDERSCORE !in name[..k] ensures k == i {
      assert forall j :: 0 <= j < k ==> name[j] == name[..k][j];
      IndexFromIs(name, 0, UNDERSCORE, k);
    }
  }

  // ------------------------------------------------------------- the orders

  /** The name starts with `width` digits and an underscore. */
  predicate Numbered(name: Bytes, width: nat) {
    width < |name| && IndexFrom(name, 0, UNDERSCORE) == width && AllDigits(name[..width])
  }

  lemma {:induction false} LessAfter(p: Bytes, a: Bytes, b: Bytes)
    ensures Less(p + a, p + b) <==> Less(a, b)
  {
    if p == [] {
      assert p + a == a && p + b == b;
    } else {
      LessAfter(p[1..], a, b);
      assert (p + a)[1..] == p[1..] + a && (p + b)[1..] == p[1..] + b;
    }
  }

  /** Digit strings of one length are ordered as their numbers, whatever follows them. */
  lemma {:induction false} DigitOrder(p: Bytes, q: Bytes, a: Bytes, b: Bytes)
    requires |p| == |q| && AllDigits(p) && AllDigits(q)
    ensures Magnitude(p) < Magnitude(q) ==> Less(p + a, q + b)
    ensures Magnitude(p) == Magnitude(q) ==> p == q
  {
    if p != [] {
      var x, y, c, d := p[..|p| - 1], q[..|q| - 1], p[|p| - 1], q[|q| - 1];
      assert p == x + [c] && q == y + [d];
      assert p + a == x + ([c] + a) && q + b == y + ([d] + b);
      assert IsDigit(c) && IsDigit(d);
      DigitOrder(x, y, [c] + a, [d] + b);
      if x == y { LessAfter(x, [c] + a, [d] + b); }
    }
  }

  lemma {:induction false} LessAsymmetric(a: Bytes, b: Bytes)
    requires Less(a, b)
    ensures !Less(b, a)
  {
    if Less(b, a) { LessTransitive(a, b, a); }
    LessIrreflexive(a);
  }

  lemma {:induction false} NumberedVersion(name: Bytes, width: nat)
    requires Numbered(name, width) && VersionOf(name).Some?
    ensures VersionOf(name).value == Magnitude(name[..width]) && name == name[..width] + name[width..]
  {
    assert name[..width][0] == name[0];
  }

  /** With as many digits in both, the names are in the order of the versions. */
  lemma {:induction false} SameWidth(a: Bytes, b: Bytes, width: nat)
    requires Numbered(a, width) && Numbered(b, width) && VersionOf(a).Some? && VersionOf(b).Some?
    requires VersionOf(a).value < VersionOf(b).value
    ensures Less(a, b) && !Less(b, a)
  {
    hide VersionOf, Magnitude, Numbered;
    NumberedVersion(a, width);
    NumberedVersion(b, width);
    assert AllDigits(a[..width]) && AllDigits(b[..width]) && width < |a| && width < |b| by { Widths(a, width); Widths(b, width); }
    DigitOrder(a[..width], b[..width], a[width..], b[width..]);
    LessAsymmetric(a, b);
  }

  lemma Widths(name: Bytes, width: nat)
    requires Numbered(name, width)
    ensures width < |name| && AllDigits(name[..width])
  {
  }

  /** Files whose names all have as many digits are in the order of their versions when they
      are in the order of their names. */
  lemma {:induction false} NameOrderIsVersionOrder(ms: seq<Migration>, width: nat)
    requires forall m :: m in ms ==> Named(m) && Numbered(m.name, width)
    requires forall i, j :: 0 <= i < j < |ms| ==> Less(ms[i].name, ms[j].name)
    ensures Ordered(ms)
  {
    hide VersionOf, Numbered;
    forall i, j | 0 <= i < j < |ms| ensures ms[i].version <= ms[j].version {
      assert Named(ms[i]) && Named(ms[j]);
      if ms[j].version < ms[i].version { SameWidth(ms[j].name, ms[i].name, width); }
    }
  }

  /** The name made of `width` - 1 zeros, a last digit and an underscore. */
  function Padded(width: nat, digit: byte): Bytes
    requires width > 0
  {
    Zeros(width - 1) + [digit, UNDERSCORE]
  }

  function Zeros(n: nat): Bytes { if n == 0 then [] else Zeros(n - 1) + [ZERO] }

  lemma {:induction false} ZerosAre(n: nat)
    ensures |Zeros(n)| == n && (forall i :: 0 <= i < n ==> Zeros(n)[i] == ZERO) && Magnitude(Zeros(n)) == 0
  {
    if n > 0 { ZerosAre(n - 1); }
  }

  lemma {:induction false} PaddedIs(width: nat, digit: byte)
    requires width > 0 && ZERO < digit && IsDigit(digit)
    ensures Numbered(Padded(width, digit), width) && VersionOf(Padded(width, digit)) == Some(digit - 48)
  {
    var name, zeros := Padded(width, digit), Zeros(width - 1);
    ZerosAre(width - 1);
    IndexFromIs(name, 0, UNDERSCORE, width);
    assert name[..width] == zeros + [digit];
    assert (zeros + [digit])[..width - 1] == zeros;
    assert name[0] != MINUS && name[0] != PLUS;
  }

  /** Of two padded names the wider one comes first. */
  lemma {:induction false} WiderFirst(m: nat, n: nat, c: byte, d: byte)
    requires 0 < m < n && ZERO < c && ZERO < d
    ensures Less(Padded(n, d), Padded(m, c)) && !Less(Padded(m, c), Padded(n, d))
  {
    var narrow, wide, zeros := Padded(m, c), Padded(n, d), Zeros(m - 1);
    ZerosAre(m - 1);
    ZerosAre(n - 1);
    hide Zeros;
    assert wide[..m - 1] == zeros;
    assert wide == zeros + wide[m - 1..] && wide[m - 1..][0] == ZERO;
    LessAfter(zeros, wide[m - 1..], [c, UNDERSCORE]);
    LessAsymmetric(wide, narrow);
  }

  ghost predicate OrdersAgree(m: nat, n: nat) {
    forall a, b ::
      (Numbered(a, m) && Numbered(b, n) && VersionOf(a).Some? && VersionOf(b).Some? && VersionOf(a) != VersionOf(b))
      ==> (Less(a, b) <==> VersionOf(a).value < VersionOf(b).value)
  }

  /** Names with m digits and names with n digits are always in the order of their versions
      exactly when m is n. */
  lemma {:induction false} OrdersAgreeIff(m: nat, n: nat)
    requires m > 0 && n > 0
    ensures OrdersAgree(m, n) <==> m == n
  {
    hide VersionOf, Numbered, Padded;
    if m == n {
      forall a, b | Numbered(a, m) && Numbered(b, n) && VersionOf(a).Some? && VersionOf(b).Some? && VersionOf(a) != VersionOf(b)
        ensures Less(a, b) <==> VersionOf(a).value < VersionOf(b).value
      {
        if VersionOf(a).value < VersionOf(b).value { SameWidth(a, b, m); } else { SameWidth(b, a, m); }
      }
    } else {
      var c, d := if m < n then 50 else 51, if m < n then 51 else 50;
      PaddedIs(m, c);
      PaddedIs(n, d);
      if m < n { WiderFirst(m, n, c, d); } else { WiderFirst(n, m, d, c); }
    }
  }

  /** Version 10 comes after version 2, its file before. */
  lemma {:induction false} TenBeforeTwo()
    ensures VersionOf(Ascii("10_a.sql")) == Some(10) && VersionOf(Ascii("2_b.sql")) == Some(2)
    ensures Less(Ascii("10_a.sql"), Ascii("2_b.sql"))
  {
    var ten, two := Ascii("10_a.sql"), Ascii("2_b.sql");
    IndexFromIs(ten, 0, UNDERSCORE, 2);
    IndexFromIs(two, 0, UNDERSCORE, 1);
    assert ten[..2] == [49, 48] && two[..1] == [50];
    assert [49, 48][..1] == [49] && [49][..0] == [] && [50][..0] == [];
    assert Magnitude([]) == 0;
    assert Magnitude([49]) == 1 && Magnitude([50]) == 2;
  }
}
