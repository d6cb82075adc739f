/** The program's methods on .torrent files, over the mutable maps of GoValues. None of
    them has a `modifies` clause: the torrent they are given is left as it was, and the
    one they return is made of new objects only. */
module TorrentObjects {
  import opened Options
  import opened Octets
  import opened Bencode
  import opened GoValues
  import opened Torrents

  datatype TorrentObject = TorrentObject(
    name: Bytes, announce: Bytes, isPrivate: bool, source: Bytes, infoHash: Bytes,
    files: seq<FileInfo>, totalSize: int64, fileCount: nat, creationDate: int64, raw: MapNode)

  datatype Outcome = Made(torrent: TorrentObject) | Failed(reason: Failure)

  /** `o` has the fields of `p`, its map standing for that of `p`. */
  ghost predicate Stands(o: TorrentObject, p: Torrent, foot: set<object>)
    reads foot
  {
    && o.name == p.name && o.announce == p.announce && o.isPrivate == p.isPrivate && o.source == p.source
    && o.infoHash == p.infoHash && o.files == p.files && o.totalSize == p.totalSize
    && o.fileCount == p.fileCount && o.creationDate == p.creationDate
    && Holds(Map(o.raw), Dict(p.raw), foot)
  }

  ghost predicate Delivers(o: Outcome, r: Result<Torrent>, foot: set<object>)
    reads foot
  {
    match r
    case Fail(reason) => o == Failed(reason)
    case Success(p) => o.Made? && Stands(o.torrent, p, foot)
  }

  // ------------------------------------------------------ scalar readings

  /** What fmt walks over when it renders a value. */
  method Walk(a: Any, ghost v: Value, ghost foot: set<object>) returns (w: Value)
    requires Holds(a, v, foot)
    ensures w == v
    decreases v
  {
    match a
    case Scalar(x) => return x;
    case Slice(s) =>
      var items: seq<Value> := [];
      for i := 0 to |s.items|
        invariant items == v.items[..i]
      {
        var x := Walk(s.items[i], v.items[i], foot - {s});
        items := items + [x];
      }
      assert items == v.items;
      return List(items);
    case Map(d) =>
      var m: map<GoString, Value> := map[];
      var left := d.m.Keys;
      while left != {}
        invariant left <= d.m.Keys
        invariant m == map k | k in v.m && k !in left :: v.m[k]
      {
        var k :| k in left;
        var x := Walk(d.m[k], v.m[k], foot - {d});
        m, left := m[k := x], left - {k};
      }
      assert m == v.m;
      return Dict(m);
  }

  method ReadText(env: Env, a: Any, ghost v: Value, ghost foot: set<object>) returns (r: Bytes)
    requires Holds(a, v, foot)
    ensures r == Text(env, v)
  {
    if a.Scalar? && (a.v.Str? || a.v.ByteSlice?) { return a.v.s; }
    var w := Walk(a, v, foot);
    return env.show(w);
  }

  method ReadField(env: Env, m: map<GoString, Any>, key: GoString, ghost v: Value, ghost foot: set<object>) returns (r: Bytes)
    requires v.Dict? && HoldsEntries(m, v, foot)
    ensures r == BStr(env, v.m, key)
  {
    if key !in m { return []; }
    r := ReadText(env, m[key], v.m[key], foot);
  }

  function NumberOf(a: Any): Option<int64> {
    if a.Scalar? then AsInt64(a.v) else None
  }

  function NumberAt(m: map<GoString, Any>, key: GoString): int64 {
    if key in m && NumberOf(m[key]).Some? then NumberOf(m[key]).value else 0
  }

  lemma NumberHeld(a: Any, v: Value, foot: set<object>)
    requires Holds(a, v, foot)
    ensures NumberOf(a) == AsInt64(v)
  {
  }

  lemma NumberAtHeld(m: map<GoString, Any>, key: GoString, v: Value, foot: set<object>)
    requires v.Dict? && HoldsEntries(m, v, foot)
    ensures NumberAt(m, key) == IntField(v.m, key)
  {
    if key in m { NumberHeld(m[key], v.m[key], foot); }
  }

  // -------------------------------------------------------------- parsing

  method ReadPath(env: Env, m: map<GoString, Any>, ghost v: Value, ghost foot: set<object>) returns (r: Bytes)
    requires v.Dict? && HoldsEntries(m, v, foot)
    ensures r == PathOf(env, v.m)
  {
    if PATH in m {
      assert Holds(m[PATH], v.m[PATH], foot);
      if m[PATH].Slice? {
        var list := m[PATH].s;
        var parts := ReadParts(env, list.items, v.m[PATH], foot - {list});
        return Join(parts);
      }
    }
    return [];
  }

  method ReadParts(env: Env, items: seq<Any>, ghost v: Value, ghost foot: set<object>) returns (parts: seq<Bytes>)
    requires v.List? && HoldsItems(items, v, foot)
    ensures parts == seq(|v.items|, i requires 0 <= i < |v.items| => Text(env, v.items[i]))
  {
    parts := [];
    for i := 0 to |items|
      invariant |parts| == i && forall j :: 0 <= j < i ==> parts[j] == Text(env, v.items[j])
    {
      var t := ReadText(env, items[i], v.items[i], foot);
      parts := parts + [t];
    }
  }

  method ReadFiles(env: Env, entries: seq<Any>, ghost vals: seq<Value>, ghost foot: set<object>)
    returns (files: seq<FileInfo>, total: int64)
    requires HoldsItems(entries, List(vals), foot)
    ensures files == FileList(env, vals) && total == TotalSize(files)
  {
    files, total := [], 0;
    for i := 0 to |entries|
      invariant files == FileList(env, vals[..i]) && total == TotalSize(files)
    {
      assert vals[..i + 1][..i] == vals[..i];
      if entries[i].Map? {
        var d := entries[i].d;
        ghost var v := vals[i];
        MapEntries(d, v, foot);
        NumberAtHeld(d.m, LENGTH, v, foot - {d});
        var length := NumberAt(d.m, LENGTH);
        var path := ReadPath(env, d.m, v, foot - {d});
        var file := FileInfo(path, length);
        assert (files + [file])[..|files|] == files;
        files := files + [file];
        total := Wrap64(total + length);
      }
    }
    assert vals[..|entries|] == vals;
  }

  method HashInfo(env: Env, m: map<GoString, Any>, ghost v: Value, ghost foot: set<object>) returns (r: Result<Bytes>)
    requires v.Dict? && HoldsEntries(m, v, foot)
    ensures r == InfoHash(env, v.m)
  {
    if INFO !in m { return Fail(MissingInfo); }
    if !m[INFO].Map? { return Fail(InfoNotADict); }
    var bytes := Encode(m[INFO], v.m[INFO], foot);
    if bytes.None? { return Fail(CannotEncode); }
    return Success(env.hash(bytes.value));
  }

  method ParseTorrent(env: Env, data: Bytes) returns (r: Outcome, ghost foot: set<object>)
    ensures Delivers(r, Torrents.ParseTorrent(env, data), foot) && fresh(foot)
  {
    hide Bencode.Decode;
    var decoded;
    decoded, foot := GoValues.Decode(data);
    if decoded.Refused? { return Failed(NotBencode(decoded.error)), {}; }
    if !decoded.value.Map? { return Failed(NotADict), {}; }
    var d := decoded.value.d;
    r := SummarizeObject(env, d, Bencode.Decode(data).value, foot);
  }

  method SummarizeObject(env: Env, d: MapNode, ghost v: Value, ghost foot: set<object>) returns (r: Outcome)
    requires v.Dict? && Holds(Map(d), v, foot)
    ensures Delivers(r, Summarize(env, v.m), foot)
  {
    hide InfoHash, FilesOf, BStr, TotalSize;
    ghost var inner := foot - {d};
    if INFO !in d.m { return Failed(MissingInfo); }
    assert Holds(d.m[INFO], v.m[INFO], inner);
    if !d.m[INFO].Map? { return Failed(InfoNotADict); }
    var info := d.m[INFO].d;
    ghost var iv := v.m[INFO];
    MapEntries(info, iv, inner);
    ghost var deep := inner - {info};
    if META_VERSION in info.m {
      NumberHeld(info.m[META_VERSION], iv.m[META_VERSION], deep);
      if NumberOf(info.m[META_VERSION]) == Some(2) { return Failed(MetaVersion2); }
    }
    if PIECE_LAYERS in d.m { return Failed(PieceLayers); }
    if FILES_TREE in info.m { return Failed(FilesTree); }
    var name := ReadField(env, info.m, NAME, iv, deep);
    var announce := ReadField(env, d.m, ANNOUNCE, v, inner);
    var isPrivate := false;
    if PRIVATE in info.m {
      NumberHeld(info.m[PRIVATE], iv.m[PRIVATE], deep);
      var n := NumberOf(info.m[PRIVATE]);
      if n.Some? && n.value != 0 { isPrivate := true; }
    }
    var source := ReadField(env, info.m, SOURCE, iv, deep);
    var files, total := InfoFiles(env, info.m, name, iv, deep);
    var h := HashInfo(env, d.m, v, inner);
    if h.Fail? { return Failed(h.reason); }
    NumberAtHeld(d.m, CREATION_DATE, v, inner);
    return Made(TorrentObject(
      name, announce, isPrivate, source, h.value, files, total, |files|, NumberAt(d.m, CREATION_DATE), d));
  }

  method InfoFiles(env: Env, m: map<GoString, Any>, name: Bytes, ghost v: Value, ghost foot: set<object>)
    returns (files: seq<FileInfo>, total: int64)
    requires v.Dict? && HoldsEntries(m, v, foot) && name == BStr(env, v.m, NAME)
    ensures files == FilesOf(env, v.m) && total == TotalSize(files)
  {
    if FILES in m {
      if m[FILES].Slice? {
        var list := m[FILES].s;
        files, total := ReadFiles(env, list.items, v.m[FILES].items, foot - {list});
      } else {
        files, total := [], 0;
      }
    } else {
      NumberAtHeld(m, LENGTH, v, foot);
      var length := NumberAt(m, LENGTH);
      files, total := [FileInfo(name, length)], length;
    }
  }

  // ------------------------------------------------------------- rewrites

  /** The new top-level dict with the announce replaced and five keys dropped. */
  method Repoint(t: MapNode, announce: GoString)
    modifies t
    ensures t.m == old(t.m)[ANNOUNCE := Scalar(Str(announce))] - DROPPED
  {
    t.m := t.m[ANNOUNCE := Scalar(Str(announce))];
    t.m := t.m - {ANNOUNCE_LIST};
    t.m := t.m - {NODES};
    t.m := t.m - {URL_LIST};
    t.m := t.m - {HTTPSEEDS};
    t.m := t.m - {COMMENT};
  }

  /** The copy after its announce was replaced still stands, key by key, for the rewritten dict. */
  lemma RepointHolds(m: map<GoString, Any>, vals: Fields, feet: map<GoString, set<object>>, announce: GoString)
    requires HoldsApart(m, vals, feet)
    ensures var m', vals' := m[ANNOUNCE := Scalar(Str(announce))] - DROPPED, Repointed(vals, announce);
      && m'.Keys == vals'.Keys
      && (forall k :: k in m' && k != ANNOUNCE ==> k in feet && Holds(m'[k], vals'[k], feet[k]))
      && ANNOUNCE in m' && m'[ANNOUNCE] == Scalar(vals'[ANNOUNCE]) && vals'[ANNOUNCE] == Str(announce)
  {
    hide Holds;
    TopKeysDiffer();
  }

  method ReannounceTorrent(env: Env, o: TorrentObject, announce: GoString, ghost p: Torrent, ghost foot: set<object>)
    returns (r: Outcome, ghost made: set<object>)
    requires Stands(o, p, foot)
    ensures Delivers(r, Reannounce(env, p, announce), made) && fresh(made)
  {
    hide InfoHash, FilesOf, BStr, HoldsApart;
    ghost var v := Dict(p.raw);
    var t, feet := DeepCopyMap(o.raw, v, foot);
    made := {t} + AllFeet(feet);
    if INFO !in t.m || !t.m[INFO].Map? { CopiedInfo(t, p.raw, feet); return Failed(MissingInfo), made; }
    var info := t.m[INFO].d;
    CopiedInfo(t, p.raw, feet);
    TopKeysDiffer();
    RepointHolds(t.m, p.raw, feet, announce);
    Repoint(t, announce);
    ghost var w := Dict(Repointed(p.raw, announce));
    RepointedStands(t, w, feet);
    var h := HashInfo(env, t.m, w, AllFeet(feet));
    if h.Fail? { return Failed(h.reason), made; }
    var name := ReadField(env, info.m, NAME, w.m[INFO], AllFeet(feet) - {info});
    r := Made(TorrentObject(name, announce, o.isPrivate, o.source, h.value,
                            o.files, o.totalSize, |o.files|, o.creationDate, t));
  }

  lemma CopiedInfo(t: MapNode, vals: Fields, feet: map<GoString, set<object>>)
    requires HoldsApart(t.m, vals, feet)
    ensures INFO in t.m <==> INFO in vals
    ensures INFO in t.m ==> (t.m[INFO].Map? <==> vals[INFO].Dict?)
    ensures INFO in t.m && t.m[INFO].Map? ==> INFO in feet && t.m[INFO].d in feet[INFO]
  {
    if INFO in t.m { assert Holds(t.m[INFO], vals[INFO], feet[INFO]); }
  }

  lemma RepointedStands(t: MapNode, w: Value, feet: map<GoString, set<object>>)
    requires w.Dict? && t !in AllFeet(feet) && t.m.Keys == w.m.Keys
    requires forall k :: k in t.m ==> (t.m[k] == Scalar(w.m[k]) && IsScalar(w.m[k])) || (k in feet && Holds(t.m[k], w.m[k], feet[k]))
    ensures HoldsEntries(t.m, w, AllFeet(feet)) && Holds(Map(t), w, {t} + AllFeet(feet))
  {
    var foot := AllFeet(feet);
    forall k | k in t.m ensures Holds(t.m[k], w.m[k], foot) {
      if k in feet && Holds(t.m[k], w.m[k], feet[k]) {
        forall x | x in feet[k] ensures x in foot {}
        HoldsMore(t.m[k], w.m[k], feet[k], foot);
      }
    }
    assert {t} + foot - {t} == foot;
  }

  /** `now` and `jitter` stand for the clock and the random number. */
  method CleanTorrentForTarget(env: Env, o: TorrentObject, announce: GoString, source: GoString, now: int64, jitter: int,
                               ghost p: Torrent, ghost foot: set<object>)
    returns (r: Outcome, ghost made: set<object>)
    requires Stands(o, p, foot) && 600 <= jitter <= 1200
    ensures Delivers(r, Clean(env, p, announce, source, now, jitter), made) && fresh(made)
  {
    hide InfoHash, Holds, FilesOf, HoldsApart, BStr, OldDate;
    ghost var v := Dict(p.raw);
    var t, feet := DeepCopyMap(o.raw, v, foot);
    made := {t} + AllFeet(feet);
    CopiedInfo(t, p.raw, feet);
    if INFO !in t.m || !t.m[INFO].Map? { return Failed(MissingInfo), made; }
    var info := t.m[INFO].d;
    FeetApart(t.m, p.raw, feet, t, info);
    var creation := RewriteCopy(t, info, announce, source, now, jitter, p.raw, feet);
    ghost var w := Dict(CleanFields(p.raw, announce, source, creation));
    var h := HashInfo(env, t.m, w, AllFeet(feet));
    if h.Fail? { return Failed(h.reason), made; }
    var name := ReadInfoName(env, info, w, t, AllFeet(feet));
    r := Made(TorrentObject(name, announce, true, source, h.value,
                            o.files, o.totalSize, |o.files|, creation, t));
  }

  lemma FootIn(feet: map<GoString, set<object>>, k: GoString, x: object)
    requires k in feet && x in feet[k]
    ensures x in AllFeet(feet)
  {
  }

  method ReadInfoName(env: Env, info: MapNode, ghost w: Value, t: MapNode, ghost foot: set<object>) returns (name: Bytes)
    requires w.Dict? && HoldsEntries(t.m, w, foot) && INFO in t.m && t.m[INFO] == Map(info)
    ensures INFO in w.m && w.m[INFO].Dict? && name == BStr(env, w.m[INFO].m, NAME)
  {
    MapEntries(info, w.m[INFO], foot);
    name := ReadField(env, info.m, NAME, w.m[INFO], foot - {info});
  }

  function DateOf(m: map<GoString, Any>, now: int64): int64 {
    if CREATION_DATE in m && NumberOf(m[CREATION_DATE]).Some? then NumberOf(m[CREATION_DATE]).value else now
  }

  lemma DateHeld(m: map<GoString, Any>, vals: Fields, feet: map<GoString, set<object>>, now: int64)
    requires HoldsApart(m, vals, feet)
    ensures DateOf(m, now) == OldDate(vals, now)
  {
    if CREATION_DATE in m { NumberHeld(m[CREATION_DATE], vals[CREATION_DATE], feet[CREATION_DATE]); }
  }

  lemma FeetApart(m: map<GoString, Any>, vals: Fields, feet: map<GoString, set<object>>, t: object, info: object)
    requires HoldsApart(m, vals, feet) && t !in AllFeet(feet) && INFO in feet && info in feet[INFO]
    ensures forall k :: k in feet ==> t !in feet[k]
    ensures forall k :: k in feet && k != INFO ==> info !in feet[k]
    ensures t != info && info in AllFeet(feet)
  {
    forall k | k in feet ensures t !in feet[k] { if t in feet[k] { FootIn(feet, k, t); } }
    FootIn(feet, INFO, info);
  }

  /** The rewritten copy, put together: the info dict from its old entries and the two new
      ones, every other key from the object it had. */
  lemma CleanHolds(t: MapNode, info: MapNode, m: map<GoString, Any>, i: map<GoString, Any>, announce: GoString,
                   source: GoString, creation: int64, vals: Fields, feet: map<GoString, set<object>>)
    requires m.Keys == vals.Keys == feet.Keys && INFO in m && vals[INFO].Dict? && m[INFO] == Map(info)
    requires info in feet[INFO] && t !in AllFeet(feet)
    requires HoldsEntries(i, vals[INFO], feet[INFO] - {info})
    requires forall k :: k in m && k != INFO ==> Holds(m[k], vals[k], feet[k])
    requires t.m == (m[ANNOUNCE := Scalar(Str(announce))] - DROPPED)[CREATION_DATE := Scalar(Int64(creation))]
    requires info.m == i[PRIVATE := Scalar(GoInt(1))][SOURCE := Scalar(Str(source))]
    ensures var w := Dict(CleanFields(vals, announce, source, creation));
      && HoldsEntries(t.m, w, AllFeet(feet)) && Holds(Map(t), w, {t} + AllFeet(feet))
      && INFO in t.m && t.m[INFO] == Map(info)
  {
    TopKeysDiffer();
    var w := Dict(CleanFields(vals, announce, source, creation));
    InfoHolds(info, i, source, vals[INFO].m, feet[INFO]);
    forall k | k in t.m
      ensures (t.m[k] == Scalar(w.m[k]) && IsScalar(w.m[k])) || (k in feet && Holds(t.m[k], w.m[k], feet[k]))
    {
      hide Holds, HoldsEntries;
    }
    RepointedStands(t, w, feet);
  }

  lemma InfoHolds(info: MapNode, i: map<GoString, Any>, source: GoString, vals: Fields, foot: set<object>)
    requires info in foot && HoldsEntries(i, Dict(vals), foot - {info})
    requires info.m == i[PRIVATE := Scalar(GoInt(1))][SOURCE := Scalar(Str(source))]
    ensures Holds(Map(info), Dict(CleanInfo(vals, source)), foot)
  {
    InfoKeysDiffer();
  }

  /** The assignments of the cleaning, on a copy whose info dict is `info`. */
  method RewriteCopy(t: MapNode, info: MapNode, announce: GoString, source: GoString, now: int64, jitter: int,
                     ghost vals: Fields, ghost feet: map<GoString, set<object>>) returns (creation: int64)
    requires HoldsApart(t.m, vals, feet) && t !in AllFeet(feet)
    requires INFO in t.m && t.m[INFO] == Map(info) && info in feet[INFO]
    modifies t, info
    ensures INFO in vals && vals[INFO].Dict? && creation == Wrap64(OldDate(vals, now) + jitter)
    ensures var w := Dict(CleanFields(vals, announce, source, creation));
      && HoldsEntries(t.m, w, AllFeet(feet)) && Holds(Map(t), w, {t} + AllFeet(feet))
      && INFO in t.m && t.m[INFO] == Map(info)
  {
    hide Holds, AllFeet, CleanFields, HoldsEntries;
    ghost var m, i := t.m, info.m;
    assert Holds(t.m[INFO], vals[INFO], feet[INFO]);
    MapEntries(info, vals[INFO], feet[INFO]);
    FeetApart(m, vals, feet, t, info);
    DateHeld(m, vals, feet, now);
    TopKeysDiffer();
    Repoint(t, announce);
    info.m := info.m[PRIVATE := Scalar(GoInt(1))];
    info.m := info.m[SOURCE := Scalar(Str(source))];
    creation := Wrap64(DateOf(t.m, now) + jitter);
    t.m := t.m[CREATION_DATE := Scalar(Int64(creation))];
    CleanHolds(t, info, m, i, announce, source, creation, vals, feet);
  }
}
