/** Reading a .torrent's summary, and the two rewrites of it: cleaning for a target
    (a new swarm) and re-announcing (the same swarm). Here on decoded values; the
    module TorrentObjects has the program's methods over mutable maps. */
module Torrents {
  import opened Options
  import opened Octets
  import opened Decimal
  import opened Bencode
  import opened RoundTrip
  import opened Canonical

  /** What the program calls out to: `hash` is the hex SHA-1 digest, `show` is
      fmt's default rendering of a value that is not a string. */
  datatype Env = Env(hash: Bytes -> Bytes, show: Value -> Bytes)

  type Fields = map<GoString, Value>

  datatype FileInfo = FileInfo(path: Bytes, size: int64)

  datatype Torrent = Torrent(
    name: Bytes, announce: Bytes, isPrivate: bool, source: Bytes, infoHash: Bytes,
    files: seq<FileInfo>, totalSize: int64, fileCount: nat, creationDate: int64, raw: Fields)

  datatype Failure =
    | NotBencode(error: Error) | NotADict | MissingInfo | InfoNotADict
    | MetaVersion2 | PieceLayers | FilesTree | CannotEncode

  datatype Result<T> = Success(value: T) | Fail(reason: Failure)

  // Keys. Their spellings are what BEP 3, BEP 12, BEP 17, BEP 19, BEP 27 and BEP 52 fix.
  const INFO := Ascii("info")
  const ANNOUNCE := Ascii("announce")
  const ANNOUNCE_LIST := Ascii("announce-list")
  const NODES := Ascii("nodes")
  const URL_LIST := Ascii("url-list")
  const HTTPSEEDS := Ascii("httpseeds")
  const COMMENT := Ascii("comment")
  const CREATION_DATE := Ascii("creation date")
  const PIECE_LAYERS := Ascii("piece layers")
  const PRIVATE := Ascii("private")
  const SOURCE := Ascii("source")
  const NAME := Ascii("name")
  const FILES := Ascii("files")
  const FILES_TREE := Ascii("files tree")
  const META_VERSION := Ascii("meta version")
  const LENGTH := Ascii("length")
  const PATH := Ascii("path")

  const DROPPED := {ANNOUNCE_LIST, NODES, URL_LIST, HTTPSEEDS, COMMENT}

  lemma TopKeysDiffer()
    ensures INFO !in DROPPED && ANNOUNCE !in DROPPED && CREATION_DATE !in DROPPED && PIECE_LAYERS !in DROPPED
    ensures INFO != ANNOUNCE && INFO != CREATION_DATE && INFO != PIECE_LAYERS
    ensures ANNOUNCE != CREATION_DATE && ANNOUNCE != PIECE_LAYERS && CREATION_DATE != PIECE_LAYERS
  {
    assert ANNOUNCE[0] != URL_LIST[0];
    assert CREATION_DATE[0] != ANNOUNCE_LIST[0];
  }

  lemma InfoKeysDiffer()
    ensures PRIVATE != SOURCE
    ensures PRIVATE !in {NAME, FILES, FILES_TREE, META_VERSION, LENGTH}
    ensures SOURCE !in {NAME, FILES, FILES_TREE, META_VERSION, LENGTH}
  {
    assert SOURCE[0] != LENGTH[0];
  }

  // ------------------------------------------------------ scalar readings

  /** A field read as text; absent reads as empty. */
  function BStr(env: Env, m: Fields, key: GoString): Bytes {
    if key !in m then [] else Text(env, m[key])
  }

  function Text(env: Env, v: Value): Bytes {
    match v
    case Str(s) => s
    case ByteSlice(s) => s
    case _ => env.show(v)
  }

  function AsInt64(v: Value): Option<int64> {
    match v
    case Int64(n) => Some(n)
    case GoInt(n) => Some(n)
    case Int32(n) => Some(n)
    case Str(s) => ParseInt(s)
    case _ => None
  }

  function IntField(m: Fields, key: GoString): int64 {
    if key in m && AsInt64(m[key]).Some? then AsInt64(m[key]).value else 0
  }

  function Join(parts: seq<Bytes>): Bytes {
    if parts == [] then []
    else if |parts| == 1 then parts[0]
    else parts[0] + [47] + Join(parts[1..])
  }

  // -------------------------------------------------------------- summary

  function PathOf(env: Env, f: Fields): Bytes {
    if PATH in f && f[PATH].List? then
      var parts := f[PATH].items;
      Join(seq(|parts|, i requires 0 <= i < |parts| => Text(env, parts[i])))
    else []
  }

  /** The entries of info.files; those that are not dicts are passed over. */
  function FileList(env: Env, entries: seq<Value>): seq<FileInfo> {
    if entries == [] then []
    else
      var e := entries[|entries| - 1];
      FileList(env, entries[..|entries| - 1])
      + if e.Dict? then [FileInfo(PathOf(env, e.m), IntField(e.m, LENGTH))] else []
  }

  function FilesOf(env: Env, info: Fields): seq<FileInfo> {
    if FILES !in info then [FileInfo(BStr(env, info, NAME), IntField(info, LENGTH))]
    else if info[FILES].List? then FileList(env, info[FILES].items)
    else []
  }

  /** The sum of the sizes in int64 arithmetic. */
  function TotalSize(files: seq<FileInfo>): int64 {
    if files == [] then 0
    else Wrap64(TotalSize(files[..|files| - 1]) + files[|files| - 1].size)
  }

  function IsPrivate(info: Fields): bool {
    PRIVATE in info && AsInt64(info[PRIVATE]).Some? && AsInt64(info[PRIVATE]).value != 0
  }

  ghost function InfoHash(env: Env, top: Fields): Result<Bytes> {
    if INFO !in top then Fail(MissingInfo)
    else if !top[INFO].Dict? then Fail(InfoNotADict)
    else if !Encodable(top[INFO]) then Fail(CannotEncode)
    else Success(env.hash(Enc(top[INFO])))
  }

  /** The summary of a decoded top-level dict. */
  ghost function Summarize(env: Env, top: Fields): Result<Torrent> {
    if INFO !in top then Fail(MissingInfo)
    else if !top[INFO].Dict? then Fail(InfoNotADict)
    else
      var info := top[INFO].m;
      if META_VERSION in info && AsInt64(info[META_VERSION]) == Some(2) then Fail(MetaVersion2)
      else if PIECE_LAYERS in top then Fail(PieceLayers)
      else if FILES_TREE in info then Fail(FilesTree)
      else
        var h := InfoHash(env, top);
        if h.Fail? then Fail(h.reason)
        else
          var files := FilesOf(env, info);
          Success(Torrent(
            BStr(env, info, NAME), BStr(env, top, ANNOUNCE), IsPrivate(info), BStr(env, info, SOURCE), h.value,
            files, TotalSize(files), |files|, IntField(top, CREATION_DATE), top))
  }

  ghost function ParseTorrent(env: Env, data: Bytes): Result<Torrent> {
    var d := Decode(data);
    if d.Bad? then Fail(NotBencode(d.error))
    else if !d.value.Dict? then Fail(NotADict)
    else Summarize(env, d.value.m)
  }

  // ------------------------------------------------------------- rewrites

  /** The keys a rewrite drops, and the new announce. */
  function Repointed(top: Fields, announce: GoString): Fields {
    top[ANNOUNCE := Str(announce)] - DROPPED
  }

  function CleanInfo(info: Fields, source: GoString): Fields {
    info[PRIVATE := GoInt(1)][SOURCE := Str(source)]
  }

  /** The old creation date, or `now` when there is none that reads as a number. */
  function OldDate(top: Fields, now: int64): int64 {
    if CREATION_DATE in top && AsInt64(top[CREATION_DATE]).Some? then AsInt64(top[CREATION_DATE]).value else now
  }

  function CleanFields(top: Fields, announce: GoString, source: GoString, creation: int64): Fields
    requires INFO in top && top[INFO].Dict?
  {
    Repointed(top, announce)[INFO := Dict(CleanInfo(top[INFO].m, source))][CREATION_DATE := Int64(creation)]
  }

  /** `jitter` is the random 600..1200 seconds. */
  ghost function Clean(env: Env, p: Torrent, announce: GoString, source: GoString, now: int64, jitter: int): Result<Torrent> {
    if INFO !in p.raw || !p.raw[INFO].Dict? then Fail(MissingInfo)
    else
      var creation := Wrap64(OldDate(p.raw, now) + jitter);
      var top := CleanFields(p.raw, announce, source, creation);
      var h := InfoHash(env, top);
      if h.Fail? then Fail(h.reason)
      else Success(Torrent(
        BStr(env, top[INFO].m, NAME), announce, true, source, h.value,
        p.files, p.totalSize, |p.files|, creation, top))
  }

  ghost function Reannounce(env: Env, p: Torrent, announce: GoString): Result<Torrent> {
    if INFO !in p.raw || !p.raw[INFO].Dict? then Fail(MissingInfo)
    else
      TopKeysDiffer();
      var top := Repointed(p.raw, announce);
      var h := InfoHash(env, top);
      if h.Fail? then Fail(h.reason)
      else Success(p.(
        name := BStr(env, top[INFO].m, NAME), announce := announce, infoHash := h.value,
        fileCount := |p.files|, raw := top))
  }

  // ------------------------------------------- what a parsed torrent keeps

  /** The fields of `p` are the ones its dict gives. */
  ghost predicate Consistent(env: Env, p: Torrent) {
    Summarize(env, p.raw) == Success(p)
  }

  ghost predicate FromDecoder(top: Fields) {
    Plain(Dict(top)) && NestsWithin(Dict(top), MAX_DEPTH)
  }

  lemma {:induction false} ParsedIsConsistent(env: Env, data: Bytes)
    requires ParseTorrent(env, data).Success?
    ensures var p := ParseTorrent(env, data).value;
      Consistent(env, p) && FromDecoder(p.raw)
  {
    hide ParseAt, Enc, InfoHash, StrictAt;
    ReEncodeAt(data, 0, 0);
  }

  // ------------------------------------------------------------- cleaning

  /** Both have `k` with one value, or neither has it. */
  ghost predicate SameAt(a: Fields, b: Fields, k: GoString) {
    (k in a <==> k in b) && (k in a ==> a[k] == b[k])
  }

  /** The rewritten info dict differs from the previous one in `private` and `source` only,
      the top level only in the announce, the dropped keys, the date and that info. */
  lemma {:induction false} CleanChanges(top: Fields, announce: GoString, source: GoString, creation: int64)
    requires INFO in top && top[INFO].Dict?
    ensures var made := CleanFields(top, announce, source, creation);
      && INFO in made && made[INFO] == Dict(CleanInfo(top[INFO].m, source))
      && ANNOUNCE in made && made[ANNOUNCE] == Str(announce)
      && CREATION_DATE in made && made[CREATION_DATE] == Int64(creation)
      && (forall k :: k in DROPPED ==> k !in made)
      && (forall k :: k !in DROPPED && k !in {INFO, ANNOUNCE, CREATION_DATE} ==>
            SameAt(made, top, k))
    ensures var info, made := top[INFO].m, CleanInfo(top[INFO].m, source);
      forall k :: k !in {PRIVATE, SOURCE} ==> SameAt(made, info, k)
  {
    TopKeysDiffer();
    InfoKeysDiffer();
  }

  lemma SameFiles(env: Env, info: Fields, other: Fields)
    requires SameAt(other, info, NAME) && SameAt(other, info, FILES) && SameAt(other, info, LENGTH)
    ensures FilesOf(env, other) == FilesOf(env, info)
    ensures BStr(env, other, NAME) == BStr(env, info, NAME)
  {
  }

  /** An info dict with `private` set to one in any integer type. */
  ghost predicate ForcedPrivate(info: Fields, prior: Fields, source: GoString) {
    && (forall k :: k !in {PRIVATE, SOURCE} ==> SameAt(info, prior, k))
    && PRIVATE in info && AsInt64(info[PRIVATE]) == Some(1)
    && SOURCE in info && info[SOURCE] == Str(source)
  }

  lemma SummarizeForced(env: Env, p: Torrent, top: Fields, announce: GoString, source: GoString, creation: int64)
    requires Consistent(env, p)
    requires INFO in top && top[INFO].Dict? && Encodable(top[INFO])
    requires ForcedPrivate(top[INFO].m, p.raw[INFO].m, source)
    requires ANNOUNCE in top && top[ANNOUNCE] == Str(announce)
    requires CREATION_DATE in top && top[CREATION_DATE] == Int64(creation)
    requires PIECE_LAYERS in top ==> PIECE_LAYERS in p.raw
    ensures Summarize(env, top) == Success(Torrent(
      p.name, announce, true, source, env.hash(Enc(top[INFO])), p.files, p.totalSize, |p.files|, creation, top))
  {
    hide Enc, FilesOf, TotalSize, Encodable;
    InfoKeysDiffer();
    var info, prior := top[INFO].m, p.raw[INFO].m;
    assert SameAt(info, prior, NAME) && SameAt(info, prior, FILES) && SameAt(info, prior, LENGTH);
    assert SameAt(info, prior, META_VERSION) && SameAt(info, prior, FILES_TREE);
    SameFiles(env, prior, info);
  }

  lemma CleanInfoEncodable(info: Fields, source: GoString, h: int)
    requires Plain(Dict(info)) && h > 0 && NestsWithin(Dict(info), h)
    ensures var made := Dict(CleanInfo(info, source));
      && Encodable(made) && NestsWithin(made, h)
      && Normal(made) == Dict(made.m[PRIVATE := Int64(1)])
  {
    hide Plain;
    InfoKeysDiffer();
    PlainIsNormal(Dict(info));
    PlainEntries(info);
    var made := CleanInfo(info, source);
    assert (map k | k in made :: Normal(made[k])) == made[PRIVATE := Int64(1)];
  }

  lemma PlainEntries(m: Fields)
    requires Plain(Dict(m))
    ensures forall k :: k in m ==> Plain(m[k]) && Encodable(m[k]) && Normal(m[k]) == m[k]
  {
    forall k | k in m ensures Plain(m[k]) && Encodable(m[k]) && Normal(m[k]) == m[k] { PlainIsNormal(m[k]); }
  }

  /** Each entry of a cleaned torrent can be encoded, and reads back as itself but for the info dict. */
  lemma {:induction false} CleanEntry(top: Fields, announce: GoString, source: GoString, creation: int64, k: GoString)
    requires FromDecoder(top) && INFO in top && top[INFO].Dict? && k in CleanFields(top, announce, source, creation)
    ensures var made := CleanFields(top, announce, source, creation);
      && Encodable(made[k]) && NestsWithin(made[k], MAX_DEPTH - 1)
      && Normal(made[k]) == if k == INFO then Dict(CleanInfo(top[INFO].m, source)[PRIVATE := Int64(1)]) else made[k]
  {
    var made := CleanFields(top, announce, source, creation);
    CleanChanges(top, announce, source, creation);
    hide Plain, CleanFields, CleanInfo;
    PlainEntries(top);
    CleanInfoEncodable(top[INFO].m, source, MAX_DEPTH - 1);
    if k !in {INFO, ANNOUNCE, CREATION_DATE} { assert SameAt(made, top, k); }
  }

  /** A cleaned torrent can be encoded and read again; its `private` comes back as an int64. */
  lemma {:induction false} CleanEncodable(top: Fields, announce: GoString, source: GoString, creation: int64)
    requires FromDecoder(top) && INFO in top && top[INFO].Dict?
    ensures var made := Dict(CleanFields(top, announce, source, creation));
      && Encodable(made) && NestsWithin(made, MAX_DEPTH)
      && Normal(made) == Dict(made.m[INFO := Dict(made.m[INFO].m[PRIVATE := Int64(1)])])
  {
    var made := CleanFields(top, announce, source, creation);
    CleanChanges(top, announce, source, creation);
    var back := made[INFO := Dict(made[INFO].m[PRIVATE := Int64(1)])];
    forall k | k in made ensures Encodable(made[k]) && NestsWithin(made[k], MAX_DEPTH - 1) && Normal(made[k]) == back[k] {
      hide Encodable, NestsWithin, Normal, CleanFields, FromDecoder;
      CleanEntry(top, announce, source, creation, k);
    }
    hide CleanFields;
    assert (map k | k in made :: Normal(made[k])) == back;
  }

  lemma {:induction false} EncOfNormal(v: Value)
    ensures Enc(Normal(v)) == Enc(v)
    decreases v, 1, 0
  {
    hide EncInt, EncStr, EncItems, EncEntries;
    match v
    case List(items) => ItemsOfNormal(v, 0);
    case Dict(m) =>
      assert Normal(v).m.Keys == m.Keys;
      EntriesOfNormal(v, SortedKeys(m.Keys));
    case _ =>
  }

  lemma {:induction false} ItemsOfNormal(v: Value, from: nat)
    requires v.List? && from <= |v.items|
    ensures EncItems(Normal(v), from) == EncItems(v, from)
    decreases v, 0, |v.items| - from
  {
    hide Enc;
    if from < |v.items| {
      EncOfNormal(v.items[from]);
      ItemsOfNormal(v, from + 1);
    }
  }

  lemma {:induction false} EntriesOfNormal(v: Value, ks: seq<GoString>)
    requires v.Dict? && forall k :: k in ks ==> k in v.m
    ensures EncEntries(Normal(v), ks) == EncEntries(v, ks)
    decreases v, 0, |ks|
  {
    hide Enc, EncStr;
    if ks != [] {
      EncOfNormal(v.m[ks[0]]);
      EntriesOfNormal(v, ks[1..]);
    }
  }

  lemma {:induction false} NormalIsPlain(v: Value)
    requires Encodable(v)
    ensures Plain(Normal(v))
  {
    match v
    case List(items) =>
      forall i | 0 <= i < |items| ensures Plain(Normal(items[i])) { NormalIsPlain(items[i]); }
    case Dict(m) =>
      forall k | k in m ensures Plain(Normal(m[k])) { NormalIsPlain(m[k]); }
    case _ =>
  }

  /** One entry of an encodable dict, before and after it went through its encoding. */
  lemma EntryAgain(m: Fields, k: GoString)
    requires Encodable(Dict(m)) && k in m
    ensures Encodable(m[k])
    ensures var back := Normal(Dict(m)).m; k in back && Encodable(back[k]) && Enc(back[k]) == Enc(m[k])
  {
    hide Enc, Plain;
    NormalIsPlain(m[k]);
    PlainIsNormal(Normal(m[k]));
    EncOfNormal(m[k]);
  }

  lemma ConsistentInfo(env: Env, p: Torrent)
    requires Consistent(env, p)
    ensures INFO in p.raw && p.raw[INFO].Dict? && PIECE_LAYERS !in p.raw
    ensures p.infoHash == env.hash(Enc(p.raw[INFO])) && Encodable(p.raw[INFO])
    ensures p.name == BStr(env, p.raw[INFO].m, NAME) && p.fileCount == |p.files|
  {
    hide Enc, FilesOf, TotalSize, Encodable;
  }

  /** Cleaning a parsed torrent succeeds, the summary it returns is the summary of the
      dict it returns, and encoding that dict and parsing the bytes gives every field back. */
  lemma {:induction false} CleanReparses(env: Env, p: Torrent, announce: GoString, source: GoString, now: int64, jitter: int)
    requires Consistent(env, p) && FromDecoder(p.raw)
    ensures var c := Clean(env, p, announce, source, now, jitter);
      && c.Success?
      && Consistent(env, c.value)
      && ParseTorrent(env, Enc(Dict(c.value.raw))) == Success(c.value.(raw := Normal(Dict(c.value.raw)).m))
  {
    hide Enc, Encodable, NestsWithin, Normal, Plain, Decode, Summarize;
    var creation := Wrap64(OldDate(p.raw, now) + jitter);
    ConsistentInfo(env, p);
    var top := CleanFields(p.raw, announce, source, creation);
    CleanChanges(p.raw, announce, source, creation);
    CleanEncodable(p.raw, announce, source, creation);
    InfoKeysDiffer();
    EntryAgain(top, INFO);
    SummarizeForced(env, p, top, announce, source, creation);
    DecodeOfEncode(Dict(top));
    var back := Normal(Dict(top)).m;
    SummarizeForced(env, p, back, announce, source, creation);
  }

  /** The hash after cleaning is a matter of the old info dict and the source only:
      neither announce, clock nor jitter, nor an earlier cleaning, has a part in it. */
  lemma {:induction false} CleanHash(env: Env, p: Torrent, q: Torrent, source: GoString,
                  announce1: GoString, now1: int64, jitter1: int, announce2: GoString, now2: int64, jitter2: int)
    requires INFO in p.raw && p.raw[INFO].Dict? && INFO in q.raw && q.raw[INFO].Dict?
    requires forall k :: k !in {PRIVATE, SOURCE} ==> SameAt(p.raw[INFO].m, q.raw[INFO].m, k)
    ensures var c, d := Clean(env, p, announce1, source, now1, jitter1), Clean(env, q, announce2, source, now2, jitter2);
      && (c.Success? <==> d.Success?)
      && (c.Success? ==> c.value.infoHash == d.value.infoHash)
  {
    hide Enc, Encodable;
    var c1, c2 := Wrap64(OldDate(p.raw, now1) + jitter1), Wrap64(OldDate(q.raw, now2) + jitter2);
    CleanChanges(p.raw, announce1, source, c1);
    CleanChanges(q.raw, announce2, source, c2);
    CleanInfoAgrees(p.raw[INFO].m, q.raw[INFO].m, source);
  }

  lemma CleanInfoAgrees(a: Fields, b: Fields, source: GoString)
    requires forall k :: k !in {PRIVATE, SOURCE} ==> SameAt(a, b, k)
    ensures CleanInfo(a, source) == CleanInfo(b, source)
  {
    var x, y := CleanInfo(a, source), CleanInfo(b, source);
    forall k ensures SameAt(x, y, k) {
      assert k !in {PRIVATE, SOURCE} ==> SameAt(a, b, k);
    }
    forall k ensures k in x <==> k in y { assert SameAt(x, y, k); }
    forall k | k in x ensures x[k] == y[k] { assert SameAt(x, y, k); }
  }

  /** Cleaning what is already clean, with the same source, keeps the hash. */
  lemma {:induction false} CleanAgain(env: Env, p: Torrent, source: GoString,
                   announce1: GoString, now1: int64, jitter1: int, announce2: GoString, now2: int64, jitter2: int)
    requires Clean(env, p, announce1, source, now1, jitter1).Success?
    ensures var c := Clean(env, p, announce1, source, now1, jitter1).value;
      var d := Clean(env, c, announce2, source, now2, jitter2);
      d.Success? && d.value.infoHash == c.infoHash
  {
    hide Enc, Encodable;
    var c := Clean(env, p, announce1, source, now1, jitter1).value;
    CleanChanges(p.raw, announce1, source, c.creationDate);
    var info := p.raw[INFO].m;
    forall k | k !in {PRIVATE, SOURCE} ensures SameAt(info, CleanInfo(info, source), k) {}
    CleanHash(env, p, c, source, announce1, now1, jitter1, announce2, now2, jitter2);
  }

  /** Cleaning leaves the swarm (the hashed bytes) as it was exactly when the torrent was
      already private, with the integer 1, and already carried this source. */
  lemma {:induction false} CleanKeepsInfoIff(p: Torrent, source: GoString)
    requires FromDecoder(p.raw) && INFO in p.raw && p.raw[INFO].Dict?
    ensures var info := p.raw[INFO].m;
      Enc(Dict(CleanInfo(info, source))) == Enc(p.raw[INFO])
      <==> PRIVATE in info && info[PRIVATE] == Int64(1) && SOURCE in info && info[SOURCE] == Str(source)
  {
    hide Enc, Plain;
    var info := p.raw[INFO].m;
    InfoKeysDiffer();
    PlainEntries(p.raw);
    CleanInfoEncodable(info, source, MAX_DEPTH - 1);
    NestsMore(p.raw[INFO], MAX_DEPTH - 1, MAX_DEPTH);
    var made := Dict(CleanInfo(info, source));
    var back := made.m[PRIVATE := Int64(1)];
    if Enc(made) == Enc(p.raw[INFO]) {
      EncInjective(p.raw[INFO], made);
      assert info == back;
    }
    if PRIVATE in info && info[PRIVATE] == Int64(1) && SOURCE in info && info[SOURCE] == Str(source) {
      assert back == info;
      EncOfNormal(made);
    }
  }

  lemma {:induction false} NestsMore(v: Value, h: int, g: int)
    requires NestsWithin(v, h) && h <= g
    ensures NestsWithin(v, g)
  {
    match v
    case List(items) => forall i | 0 <= i < |items| ensures NestsWithin(items[i], g - 1) { NestsMore(items[i], h - 1, g - 1); }
    case Dict(m) => forall k | k in m ensures NestsWithin(m[k], g - 1) { NestsMore(m[k], h - 1, g - 1); }
    case _ =>
  }

  // -------------------------------------------------------- re-announcing

  /** Re-announcing keeps the info dict, so its bytes and its hash; only the announce and
      the dropped keys differ, and the result parses back from its own encoding. */
  lemma {:induction false} ReannounceKeeps(env: Env, p: Torrent, announce: GoString)
    requires Consistent(env, p)
    ensures var r := Reannounce(env, p, announce);
      && r.Success?
      && Consistent(env, r.value)
      && INFO in r.value.raw && r.value.raw[INFO] == p.raw[INFO]
      && r.value == p.(announce := announce, raw := r.value.raw)
      && (forall k :: k !in DROPPED && k != ANNOUNCE ==> SameAt(r.value.raw, p.raw, k))
      && (forall k :: k in DROPPED ==> k !in r.value.raw)
      && (FromDecoder(p.raw) ==> ParseTorrent(env, Enc(Dict(r.value.raw))) == Success(r.value))
  {
    hide Enc, FilesOf, TotalSize, Encodable, NestsWithin, Normal, Plain, Decode;
    TopKeysDiffer();
    ConsistentInfo(env, p);
    var top := Repointed(p.raw, announce);
    if FromDecoder(p.raw) {
      RepointedPlain(p.raw, announce);
      PlainIsNormal(Dict(top));
      DecodeOfEncode(Dict(top));
    }
  }

  lemma RepointedPlain(top: Fields, announce: GoString)
    requires FromDecoder(top)
    ensures FromDecoder(Repointed(top, announce))
  {
    PlainEntries(top);
  }

  /** The guard before a cross-seed: a downloaded torrent that passed the check against
      the seed's hash passes it again re-announced, whatever comparison is used. */
  lemma {:induction false} CrossSeedGuard(env: Env, data: Bytes, announce: GoString, seedHash: Bytes, equalFold: (Bytes, Bytes) -> bool)
    requires ParseTorrent(env, data).Success?
    requires equalFold(ParseTorrent(env, data).value.infoHash, seedHash)
    ensures var r := Reannounce(env, ParseTorrent(env, data).value, announce);
      r.Success? && equalFold(r.value.infoHash, seedHash)
  {
    hide ParseTorrent, Reannounce, FromDecoder;
    ParsedIsConsistent(env, data);
    ReannounceKeeps(env, ParseTorrent(env, data).value, announce);
  }

  // ------------------------------------------------------------- the hash

  /** The file is a canonical top-level dict with the entries at the keys `a`, then the entry
      `info` with its value at i..j, then the entries at the keys `b`. */
  ghost predicate InfoAt(data: Bytes, top: Fields, a: seq<GoString>, b: seq<GoString>, i: nat, j: nat) {
    && INFO in top && i <= j <= |data|
    && SortedKeys(top.Keys) == a + [INFO] + b && (forall k :: k in a + b ==> k in top)
    && i == |[TAG_DICT] + EncEntries(Dict(top), a)| + 6
    && data == [TAG_DICT] + EncEntries(Dict(top), a) + Ascii("4:info") + data[i..j] + (EncEntries(Dict(top), b) + [TAG_END])
  }

  /** For a canonical file the hash is that of the very bytes of the info dict in it: of the
      value of the top-level key `info`, between the entries of the lesser and greater keys. */
  lemma {:induction false} HashOfSlice(env: Env, data: Bytes)
    returns (a: seq<GoString>, b: seq<GoString>, i: nat, j: nat)
    requires ParseTorrent(env, data).Success? && CanonicalText(data)
    ensures var p := ParseTorrent(env, data).value;
      && InfoAt(data, p.raw, a, b, i, j)
      && ParseAt(data, i, 1) == Ok(p.raw[INFO], j)
      && p.infoHash == env.hash(data[i..j])
  {
    hide Enc, EncEntries, ParseAt, CanonicalText, Encodable, NestsWithin, Normal, Plain, InfoAt;
    ParsedIsConsistent(env, data);
    var p := ParseTorrent(env, data).value;
    ConsistentInfo(env, p);
    ReEncode(data);
    a, b, i, j := InfoPlace(p.raw, data);
  }

  /** What stands before the key `info` in an encoding, and after its value. */
  lemma {:induction false} InfoCut(top: Fields) returns (a: seq<GoString>, b: seq<GoString>)
    requires Encodable(Dict(top)) && INFO in top
    ensures SortedKeys(top.Keys) == a + [INFO] + b && (forall k :: k in a + b ==> k in top)
    ensures Enc(Dict(top)) == [TAG_DICT] + EncEntries(Dict(top), a) + EncStr(INFO) + Enc(top[INFO])
                              + (EncEntries(Dict(top), b) + [TAG_END])
  {
    hide Encodable, EncStr, EncEntries, Enc, SortedKeys, Sorted;
    var v := Dict(top);
    a, b := CutAt(SortedKeys(top.Keys), INFO);
    EntriesAround(v, a, INFO, b);
    EncOfDict(top);
    Regroup(EncEntries(v, a), EncStr(INFO), Enc(top[INFO]), EncEntries(v, b));
  }

  lemma CutAt(ks: seq<GoString>, k: GoString) returns (a: seq<GoString>, b: seq<GoString>)
    requires k in ks
    ensures ks == a + [k] + b
  {
    var at :| 0 <= at < |ks| && ks[at] == k;
    a, b := ks[..at], ks[at + 1..];
  }

  lemma EncOfDict(top: Fields)
    requires Encodable(Dict(top))
    ensures Enc(Dict(top)) == [TAG_DICT] + EncEntries(Dict(top), SortedKeys(top.Keys)) + [TAG_END]
  {
  }

  lemma Regroup(a: Bytes, key: Bytes, info: Bytes, b: Bytes)
    ensures [TAG_DICT] + (a + (key + info) + b) + [TAG_END] == [TAG_DICT] + a + key + info + (b + [TAG_END])
  {
  }

  lemma {:induction false} InfoPlace(top: Fields, data: Bytes) returns (a: seq<GoString>, b: seq<GoString>, i: nat, j: nat)
    requires FromDecoder(top) && INFO in top && Enc(Dict(top)) == data
    ensures InfoAt(data, top, a, b, i, j)
    ensures ParseAt(data, i, 1) == Ok(top[INFO], j) && data[i..j] == Enc(top[INFO])
  {
    hide ParseAt, Normal, Plain, EncEntries, EncStr, Enc, Encodable, SortedKeys;
    PlainIsNormal(Dict(top));
    PlainEntries(top);
    a, b := InfoCut(top);
    var before, after := [TAG_DICT] + EncEntries(Dict(top), a), EncEntries(Dict(top), b) + [TAG_END];
    var key, info := EncStr(INFO), Enc(top[INFO]);
    InfoKey();
    SelfDelimiting(top[INFO], before + key, after, 1);
    i, j := |before + key|, |before + key + info|;
    assert data == before + key + info + after;
    Layout(before, key, info, after);
  }

  lemma Layout(before: Bytes, key: Bytes, info: Bytes, after: Bytes)
    ensures var data := before + key + info + after;
      var i, j := |before + key|, |before + key + info|;
      data[i - |key|..i] == key && data[i..j] == info
  {
  }

  lemma InfoKey()
    ensures EncStr(INFO) == Ascii("4:info")
  {
    assert Digits(4) == [52];
  }
}
