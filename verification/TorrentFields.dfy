/** What the fields of a torrent are, said about its dict and not about the functions that
    read them: those of a parsed torrent, and the creation date of a cleaned one. */
module TorrentFields {
  import opened Options
  import opened Octets
  import opened Decimal
  import opened Bencode
  import opened RoundTrip
  import opened Canonical
  import opened Selections
  import opened Torrents

  // -------------------------------------------------------------- numbers

  /** `v` is the number `n`, in any integer type or as a numeral. */
  ghost predicate NumberIs(v: Value, n: int64) {
    v == Int64(n) || v == GoInt(n) || v == Int32(n) || (v.Str? && Spells(v.s, n))
  }

  lemma {:induction false} NumberIff(v: Value, n: int64)
    ensures AsInt64(v) == Some(n) <==> NumberIs(v, n)
  {
    hide ParseInt, Spells;
    if v.Str? { ParseIntIff(v.s, n); }
  }

  ghost predicate HasNumber(m: Fields, key: GoString, n: int64) { key in m && NumberIs(m[key], n) }

  /** The number under `key`, or `other` if there is none. */
  ghost predicate NumberAt(m: Fields, key: GoString, other: int64, n: int64) {
    (forall k: int64 :: HasNumber(m, key, k) ==> n == k) && ((forall k: int64 :: !HasNumber(m, key, k)) ==> n == other)
  }

  lemma {:induction false} NumberField(m: Fields, key: GoString, other: int64)
    ensures NumberAt(m, key, other, if key in m && AsInt64(m[key]).Some? then AsInt64(m[key]).value else other)
    ensures forall n: int64 :: HasNumber(m, key, n) <==> key in m && AsInt64(m[key]) == Some(n)
  {
    hide AsInt64, NumberIs;
    forall n: int64 ensures HasNumber(m, key, n) <==> key in m && AsInt64(m[key]) == Some(n) {
      if key in m { NumberIff(m[key], n); }
    }
  }

  // -------------------------------------------------------- creation date

  /** The cleaned date is the old one, or the present where the torrent has none, moved on by
      the jitter: 600 to 1200 seconds. Beyond int64 it wraps around. */
  lemma {:induction false} CleanDate(env: Env, p: Torrent, announce: GoString, source: GoString, now: int64, jitter: int)
    requires 600 <= jitter <= 1200 && Clean(env, p, announce, source, now, jitter).Success?
    ensures var c := Clean(env, p, announce, source, now, jitter).value;
      && CREATION_DATE in c.raw && c.raw[CREATION_DATE] == Int64(c.creationDate)
      && (forall n: int64 :: HasNumber(p.raw, CREATION_DATE, n) ==> MovedOn(n, jitter, c.creationDate))
      && ((forall n: int64 :: !HasNumber(p.raw, CREATION_DATE, n)) ==> MovedOn(now, jitter, c.creationDate))
  {
    hide Enc, InfoHash, AsInt64, HasNumber, MovedOn;
    NumberField(p.raw, CREATION_DATE, now);
    var before := OldDate(p.raw, now);
    DateMoved(before, jitter);
    CleanChanges(p.raw, announce, source, Wrap64(before + jitter));
  }

  predicate MovedOn(from: int64, jitter: int, date: int64) {
    && (date - (from + jitter)) % 0x1_0000_0000_0000_0000 == 0
    && (from + jitter <= MAX_INT64 ==> date == from + jitter && from + 600 <= date <= from + 1200)
  }

  lemma DateMoved(from: int64, jitter: int)
    requires 600 <= jitter <= 1200
    ensures MovedOn(from, jitter, Wrap64(from + jitter))
  {
    WrapIs(from + jitter);
  }

  lemma WrapIs(n: int)
    ensures (Wrap64(n) - n) % 0x1_0000_0000_0000_0000 == 0
  {
    var q := (n + 0x8000_0000_0000_0000) / 0x1_0000_0000_0000_0000;
    assert Wrap64(n) - n == -q * 0x1_0000_0000_0000_0000;
  }

  // ----------------------------------------------------------------- text

  /** `v` as text: a string as it is, anything else as fmt renders it. */
  ghost predicate TextIs(env: Env, v: Value, s: Bytes) {
    && (v.Str? || v.ByteSlice? ==> s == v.s)
    && (!v.Str? && !v.ByteSlice? ==> s == env.show(v))
  }

  ghost predicate TextAt(env: Env, m: Fields, key: GoString, s: Bytes) {
    if key in m then TextIs(env, m[key], s) else s == []
  }

  const SLASH: byte := 47

  /** The parts stand in `path` one after the other, from `starts` on, with a slash between
      each and the next and nothing else. */
  ghost predicate Laid(path: Bytes, parts: seq<Bytes>, starts: seq<nat>) {
    && |starts| == |parts| && (parts == [] ==> path == []) && (parts != [] ==> starts[0] == 0)
    && forall i :: 0 <= i < |parts| ==> PartAt(path, parts, starts, i)
  }

  predicate PartAt(path: Bytes, parts: seq<Bytes>, starts: seq<nat>, i: nat)
    requires i < |parts| == |starts|
  {
    var end := starts[i] + |parts[i]|;
    && end <= |path| && path[starts[i]..end] == parts[i]
    && if i == |parts| - 1 then end == |path| else end < |path| && path[end] == SLASH && starts[i + 1] == end + 1
  }

  lemma {:induction false} JoinLays(parts: seq<Bytes>) returns (starts: seq<nat>)
    ensures Laid(Join(parts), parts, starts)
  {
    if |parts| <= 1 {
      starts := if parts == [] then [] else [0];
    } else {
      hide Laid;
      var p, tail := parts[0], parts[1..];
      var rest := JoinLays(tail);
      assert parts == [p] + tail;
      assert Join(parts) == p + [SLASH] + Join(tail);
      starts := Behind(p, tail, Join(tail), rest);
    }
  }

  function Moved(rest: seq<nat>, n: nat): seq<nat> { seq(|rest|, i requires 0 <= i < |rest| => rest[i] + n) }

  lemma {:induction false} Behind(p: Bytes, tail: seq<Bytes>, path: Bytes, rest: seq<nat>) returns (starts: seq<nat>)
    requires tail != [] && Laid(path, tail, rest)
    ensures Laid(p + [SLASH] + path, [p] + tail, starts)
  {
    hide PartAt;
    starts := [0] + Moved(rest, |p| + 1);
    forall i | 0 <= i < |tail| + 1 ensures PartAt(p + [SLASH] + path, [p] + tail, starts, i) {
      if i == 0 { FirstPart(p, tail, path, rest); } else { LaterPart(p, tail, path, rest, i - 1); }
    }
  }

  lemma FirstPart(p: Bytes, tail: seq<Bytes>, path: Bytes, rest: seq<nat>)
    requires tail != [] && |rest| == |tail| && rest[0] == 0
    ensures PartAt(p + [SLASH] + path, [p] + tail, [0] + Moved(rest, |p| + 1), 0)
  {
  }

  lemma LaterPart(p: Bytes, tail: seq<Bytes>, path: Bytes, rest: seq<nat>, i: nat)
    requires i < |tail| == |rest| && PartAt(path, tail, rest, i)
    ensures PartAt(p + [SLASH] + path, [p] + tail, [0] + Moved(rest, |p| + 1), i + 1)
  {
    var all, end := p + [SLASH] + path, rest[i] + |tail[i]|;
    assert all[rest[i] + |p| + 1..end + |p| + 1] == path[rest[i]..end];
  }

  // ---------------------------------------------------------------- files

  /** The path of a file entry: its parts as text, with slashes between them. */
  ghost predicate PathIs(env: Env, m: Fields, path: Bytes) {
    if PATH in m && m[PATH].List? then exists parts :: PartsAre(env, m[PATH].items, parts) && exists starts :: Laid(path, parts, starts)
    else path == []
  }

  ghost predicate PartsAre(env: Env, items: seq<Value>, parts: seq<Bytes>) {
    |parts| == |items| && forall i :: 0 <= i < |items| ==> TextIs(env, items[i], parts[i])
  }

  ghost predicate FileIs(env: Env, f: FileInfo, m: Fields) {
    PathIs(env, m, f.path) && NumberAt(m, LENGTH, 0, f.size)
  }

  lemma {:induction false} PathMeans(env: Env, m: Fields)
    ensures PathIs(env, m, PathOf(env, m))
  {
    hide Laid, Join;
    if PATH in m && m[PATH].List? {
      var items := m[PATH].items;
      var parts := seq(|items|, i requires 0 <= i < |items| => Torrents.Text(env, items[i]));
      assert PartsAre(env, items, parts);
      var starts := JoinLays(parts);
    }
  }

  /** Which of the entries of info.files are files: `at`, the places of the dicts. */
  ghost predicate FilesFrom(env: Env, files: seq<FileInfo>, entries: seq<Value>, at: seq<nat>) {
    && Selects(entries, (v: Value) => v.Dict?, at) && |files| == |at|
    && forall i :: 0 <= i < |at| ==> at[i] < |entries| && entries[at[i]].Dict? && FileIs(env, files[i], entries[at[i]].m)
  }

  ghost predicate FilesAre(env: Env, files: seq<FileInfo>, info: Fields) {
    if FILES !in info then |files| == 1 && TextAt(env, info, NAME, files[0].path) && NumberAt(info, LENGTH, 0, files[0].size)
    else if info[FILES].List? then exists at :: FilesFrom(env, files, info[FILES].items, at)
    else files == []
  }

  lemma {:induction false} ListMeans(env: Env, entries: seq<Value>) returns (at: seq<nat>)
    ensures FilesFrom(env, FileList(env, entries), entries, at)
  {
    hide Selects, FileIs, PathOf, AsInt64;
    if entries == [] {
      at := [];
      SelectsNone((v: Value) => v.Dict?);
    } else {
      var init, e := entries[..|entries| - 1], entries[|entries| - 1];
      at := ListMeans(env, init);
      assert entries == init + [e];
      SelectsSnoc(init, e, (v: Value) => v.Dict?, at);
      if e.Dict? {
        FileMeans(env, e.m);
        at := at + [|init|];
      }
    }
  }

  lemma FileMeans(env: Env, m: Fields)
    ensures FileIs(env, FileInfo(PathOf(env, m), IntField(m, LENGTH)), m)
  {
    hide PathIs, PathOf, NumberAt, AsInt64;
    PathMeans(env, m);
    NumberField(m, LENGTH, 0);
  }

  lemma {:induction false} FilesMean(env: Env, info: Fields)
    ensures FilesAre(env, FilesOf(env, info), info)
  {
    hide FileList, NumberAt, AsInt64, FilesFrom;
    if FILES !in info {
      NumberField(info, LENGTH, 0);
    } else if info[FILES].List? {
      var at := ListMeans(env, info[FILES].items);
    }
  }

  function SizeSum(files: seq<FileInfo>): int {
    if files == [] then 0 else files[0].size + SizeSum(files[1..])
  }

  lemma {:induction false} SizeSumSnoc(files: seq<FileInfo>, f: FileInfo)
    ensures SizeSum(files + [f]) == SizeSum(files) + f.size
  {
    if files == [] {
      assert [f][1..] == [];
    } else {
      SizeSumSnoc(files[1..], f);
      assert (files + [f])[1..] == files[1..] + [f];
    }
  }

  /** The total is the sum of the sizes, but for overflow. */
  ghost predicate TotalIs(files: seq<FileInfo>, total: int64) {
    && (total - SizeSum(files)) % 0x1_0000_0000_0000_0000 == 0
    && (MIN_INT64 <= SizeSum(files) <= MAX_INT64 ==> total == SizeSum(files))
  }

  lemma {:induction false} TotalMeans(files: seq<FileInfo>)
    ensures TotalIs(files, TotalSize(files))
  {
    TotalMod(files);
    Near(TotalSize(files), SizeSum(files));
  }

  lemma {:induction false} TotalMod(files: seq<FileInfo>)
    ensures (TotalSize(files) - SizeSum(files)) % 0x1_0000_0000_0000_0000 == 0
  {
    if files != [] {
      var init, f := files[..|files| - 1], files[|files| - 1];
      TotalMod(init);
      SizeSumSnoc(init, f);
      assert files == init + [f];
      WrapIs(TotalSize(init) + f.size);
      SumMod(Wrap64(TotalSize(init) + f.size) - (TotalSize(init) + f.size), TotalSize(init) - SizeSum(init));
    }
  }

  lemma SumMod(a: int, b: int)
    requires a % 0x1_0000_0000_0000_0000 == 0 && b % 0x1_0000_0000_0000_0000 == 0
    ensures (a + b) % 0x1_0000_0000_0000_0000 == 0
  {
  }

  lemma Near(a: int, b: int)
    requires (a - b) % 0x1_0000_0000_0000_0000 == 0 && MIN_INT64 <= a <= MAX_INT64
    ensures MIN_INT64 <= b <= MAX_INT64 ==> a == b
  {
  }

  // -------------------------------------------------------------- summary

  /** The torrent `p` is what the dict `top` says. */
  ghost predicate Describes(env: Env, p: Torrent, top: Fields)
    requires INFO in top && top[INFO].Dict?
  {
    var info := top[INFO].m;
    && TextAt(env, info, NAME, p.name) && TextAt(env, top, ANNOUNCE, p.announce) && TextAt(env, info, SOURCE, p.source)
    && (p.isPrivate <==> exists n: int64 :: n != 0 && HasNumber(info, PRIVATE, n))
    && FilesAre(env, p.files, info) && p.fileCount == |p.files| && TotalIs(p.files, p.totalSize)
    && NumberAt(top, CREATION_DATE, 0, p.creationDate)
    && p.infoHash == env.hash(Enc(top[INFO])) && p.raw == top
  }

  /** What a torrent must not be: of the second version, in any of three ways. */
  ghost predicate FirstVersion(top: Fields)
    requires INFO in top && top[INFO].Dict?
  {
    !HasNumber(top[INFO].m, META_VERSION, 2) && PIECE_LAYERS !in top && FILES_TREE !in top[INFO].m
  }

  /** A dict has a summary exactly if it has an info dict that can be encoded, and is no
      version 2 torrent; the summary says what the dict says. */
  lemma {:induction false} SummaryIff(env: Env, top: Fields)
    ensures Summarize(env, top).Success?
      <==> INFO in top && top[INFO].Dict? && Encodable(top[INFO]) && FirstVersion(top)
    ensures Summarize(env, top).Success? ==> Describes(env, Summarize(env, top).value, top)
  {
    hide Enc, Encodable, AsInt64, FilesOf, TotalSize, NumberAt, FilesAre, TotalIs, HasNumber;
    if INFO in top && top[INFO].Dict? {
      var info := top[INFO].m;
      NumberField(info, META_VERSION, 0);
      NumberField(info, PRIVATE, 0);
      NumberField(top, CREATION_DATE, 0);
      FilesMean(env, info);
      TotalMeans(FilesOf(env, info));
    }
  }

  /** Bytes are a torrent exactly if they decode to such a dict. */
  lemma {:induction false} ParseIff(env: Env, data: Bytes)
    ensures ParseTorrent(env, data).Success?
      <==> Decode(data).Good? && Decode(data).value.Dict?
           && var top := Decode(data).value.m; INFO in top && top[INFO].Dict? && FirstVersion(top)
    ensures ParseTorrent(env, data).Success? ==>
      var top := Decode(data).value.m; Describes(env, ParseTorrent(env, data).value, top)
  {
    hide Summarize, ParseAt, FirstVersion, Describes, Encodable, Plain, NestsWithin, Decode;
    if Decode(data).Good? && Decode(data).value.Dict? {
      var top := Decode(data).value.m;
      SummaryIff(env, top);
      DecodedEncodable(data);
    }
  }

  lemma DecodedEncodable(data: Bytes)
    requires Decode(data).Good? && Decode(data).value.Dict?
    ensures var top := Decode(data).value.m; INFO in top ==> Encodable(top[INFO])
  {
    hide ParseAt, Enc, NestsWithin, StrictAt, Encodable, Plain;
    ReEncodeAt(data, 0, 0);
    PlainEntries(Decode(data).value.m);
  }
}
