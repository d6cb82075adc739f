/** Decoding what was encoded. Every encoding marks its own end, so the parser stops
    exactly there whatever follows, and gives the value back unless it nests too deep. */
module RoundTrip {
  import opened Octets
  import opened Decimal
  import opened Bencode

  /** The value a decoder gives back: one integer type, one string type. */
  ghost function Normal(v: Value): Value {
    match v
    case GoInt(n) => Int64(n)
    case Int32(n) => Int64(n)
    case ByteSlice(s) => Str(s)
    case List(items) => List(NormalItems(items))
    case Dict(m) => Dict(map k | k in m :: Normal(m[k]))
    case _ => v
  }

  ghost function NormalItems(items: seq<Value>): (r: seq<Value>)
    ensures |r| == |items| && forall i :: 0 <= i < |items| ==> r[i] == Normal(items[i])
  {
    seq(|items|, i requires 0 <= i < |items| => Normal(items[i]))
  }

  /** Nesting height at most `h`; scalars and empty containers have height 0. */
  ghost predicate NestsWithin(v: Value, h: int) {
    match v
    case List(items) => h >= 0 && forall i :: 0 <= i < |items| ==> NestsWithin(items[i], h - 1)
    case Dict(m) => h >= 0 && forall k :: k in m ==> NestsWithin(m[k], h - 1)
    case _ => h >= 0
  }

  /** `e` stands in `data` at `idx`. */
  ghost predicate At(data: Bytes, idx: nat, e: Bytes) {
    idx + |e| <= |data| && data[idx..idx + |e|] == e
  }

  lemma AtParts(data: Bytes, idx: nat, a: Bytes, b: Bytes)
    requires At(data, idx, a + b)
    ensures At(data, idx, a) && At(data, idx + |a|, b)
  {
    assert data[idx..idx + |a|] == data[idx..idx + |a + b|][..|a|];
    assert data[idx + |a|..idx + |a| + |b|] == data[idx..idx + |a + b|][|a|..];
  }

  lemma AtByte(data: Bytes, idx: nat, e: Bytes, i: nat)
    requires At(data, idx, e) && i < |e|
    ensures idx + i < |data| && data[idx + i] == e[i]
  {
    assert data[idx..idx + |e|][i] == e[i];
  }

  lemma EncHead(v: Value)
    requires Encodable(v)
    ensures Enc(v) != [] && Enc(v)[0] != TAG_END
  {
  }

  // ---------------------------------------------------------------- scalars

  lemma ReadEncInt(n: int64, data: Bytes, start: nat)
    requires At(data, start, FormatInt(n) + [TAG_END])
    ensures ReadInt(data, start) == Ok(Int64(n), start + |FormatInt(n)| + 1)
  {
    hide At, ParseInt, IndexFrom, FormatInt, ShortestInt;
    var text := FormatInt(n);
    var end := start + |text|;
    ParseOfFormat(n);
    AtParts(data, start, text, [TAG_END]);
    AtByte(data, end, [TAG_END], 0);
    forall i | start <= i < end ensures data[i] != TAG_END { AtByte(data, start, text, i - start); }
    IndexFromIs(data, start, TAG_END, end);
  }

  lemma ReadEncStr(s: GoString, data: Bytes, start: nat)
    requires At(data, start, EncStr(s))
    ensures start < |data| && IsDigit(data[start])
    ensures ReadStr(data, start) == Ok(Str(s), start + |EncStr(s)|)
  {
    hide At, ParseInt, IndexFrom, Digits, Magnitude;
    var text := Digits(|s|);
    var colon := start + |text|;
    ParseOfFormat(|s|);
    assert EncStr(s) == text + ([COLON] + s);
    AtParts(data, start, text, [COLON] + s);
    AtParts(data, colon, [COLON], s);
    AtByte(data, colon, [COLON], 0);
    AtByte(data, start, text, 0);
    forall i | start <= i < colon ensures data[i] != COLON { AtByte(data, start, text, i - start); }
    IndexFromIs(data, start, COLON, colon);
  }

  lemma ParseEncInt(n: int64, data: Bytes, idx: nat, depth: int)
    requires At(data, idx, EncInt(n)) && depth <= MAX_DEPTH
    ensures ParseAt(data, idx, depth) == Ok(Int64(n), idx + |EncInt(n)|)
  {
    hide At, FormatInt, ReadInt, ReadStr, ParseItems, ParsePairs;
    assert EncInt(n) == [TAG_INT] + (FormatInt(n) + [TAG_END]);
    AtParts(data, idx, [TAG_INT], FormatInt(n) + [TAG_END]);
    AtByte(data, idx, [TAG_INT], 0);
    ReadEncInt(n, data, idx + 1);
  }

  lemma ParseEncStr(s: GoString, data: Bytes, idx: nat, depth: int)
    requires At(data, idx, EncStr(s))
    ensures idx < |data| && IsDigit(data[idx])
    ensures ParseAt(data, idx, depth)
         == if depth <= MAX_DEPTH then Ok(Str(s), idx + |EncStr(s)|) else Err(TooDeep)
  {
    ReadEncStr(s, data, idx);
  }

  // ------------------------------------------------------------- containers

  lemma {:induction false} ParseEnc(v: Value, data: Bytes, idx: nat, depth: int)
    requires Encodable(v) && At(data, idx, Enc(v))
    ensures ParseAt(data, idx, depth)
         == if NestsWithin(v, MAX_DEPTH - depth) then Ok(Normal(v), idx + |Enc(v)|) else Err(TooDeep)
    decreases v, 2, 0
  {
    hide At, ReadInt, ParseItems, ParsePairs, EncItems, EncEntries, IsDigit, EncStr, EncInt, Encodable;
    if depth <= MAX_DEPTH {
      match v
      case Int64(n) => ParseEncInt(n, data, idx, depth);
      case GoInt(n) => ParseEncInt(n, data, idx, depth);
      case Int32(n) => ParseEncInt(n, data, idx, depth);
      case Str(s) => ParseEncStr(s, data, idx, depth);
      case ByteSlice(s) => ParseEncStr(s, data, idx, depth);
      case List(items) => ParseEncList(v, data, idx, depth);
      case Dict(m) => ParseEncDict(v, data, idx, depth);
      case Unsupported => NotEncodable();
    }
  }

  lemma NotEncodable()
    ensures !Encodable(Unsupported)
  {
  }

  lemma {:induction false} ParseEncList(v: Value, data: Bytes, idx: nat, depth: int)
    requires v.List? && Encodable(v) && At(data, idx, Enc(v)) && depth <= MAX_DEPTH
    ensures ParseAt(data, idx, depth)
         == if NestsWithin(v, MAX_DEPTH - depth) then Ok(Normal(v), idx + |Enc(v)|) else Err(TooDeep)
    decreases v, 1, 0
  {
    hide At, ReadInt, ReadStr, ParseItems, ParsePairs, EncItems, EncEntries, IsDigit, Encodable, Normal;
    AtByte(data, idx, Enc(v), 0);
    assert Enc(v) == [TAG_LIST] + (EncItems(v, 0) + [TAG_END]);
    AtParts(data, idx, [TAG_LIST], EncItems(v, 0) + [TAG_END]);
    ParseEncItems(v, 0, data, idx + 1, depth);
    assert NormalItems(v.items)[..0] == [];
  }

  lemma {:induction false} ParseEncDict(v: Value, data: Bytes, idx: nat, depth: int)
    requires v.Dict? && Encodable(v) && At(data, idx, Enc(v)) && depth <= MAX_DEPTH
    ensures ParseAt(data, idx, depth)
         == if NestsWithin(v, MAX_DEPTH - depth) then Ok(Normal(v), idx + |Enc(v)|) else Err(TooDeep)
    decreases v, 1, 0
  {
    hide At, ReadInt, ReadStr, ParseItems, ParsePairs, EncItems, EncEntries, IsDigit, Encodable;
    var ks := SortedKeys(v.m.Keys);
    AtByte(data, idx, Enc(v), 0);
    assert Enc(v) == [TAG_DICT] + (EncEntries(v, ks) + [TAG_END]);
    AtParts(data, idx, [TAG_DICT], EncEntries(v, ks) + [TAG_END]);
    ParseEncEntries(v, [], ks, data, idx + 1, depth);
    assert NormalOn(v, []) == map[];
    assert NormalOn(v, [] + ks) == Normal(v).m;
  }

  lemma {:induction false} ParseEncItems(v: Value, from: nat, data: Bytes, pos: nat, depth: int)
    requires v.List? && Encodable(v) && from <= |v.items| && depth <= MAX_DEPTH
    requires At(data, pos, EncItems(v, from) + [TAG_END])
    ensures ParseItems(data, pos, depth, NormalItems(v.items)[..from])
         == if forall i :: from <= i < |v.items| ==> NestsWithin(v.items[i], MAX_DEPTH - depth - 1)
            then Ok(Normal(v), pos + |EncItems(v, from)| + 1)
            else Err(TooDeep)
    decreases v, 0, |v.items| - from
  {
    hide At, ParseAt, ParsePairs, Enc, NestsWithin, EncItems, NormalItems;
    var normal := NormalItems(v.items);
    if from == |v.items| {
      assert normal[..from] == normal;
      EncItemsEnd(v);
      AtByte(data, pos, [TAG_END], 0);
    } else {
      var x := v.items[from];
      EncHead(x);
      ItemsAt(v, from, data, pos);
      AtByte(data, pos, Enc(x), 0);
      ParseEnc(x, data, pos, depth + 1);
      if NestsWithin(x, MAX_DEPTH - depth - 1) {
        assert normal[..from] + [Normal(x)] == normal[..from + 1];
        ParseEncItems(v, from + 1, data, pos + |Enc(x)|, depth);
      }
    }
  }

  lemma EncItemsEnd(v: Value)
    requires v.List?
    ensures EncItems(v, |v.items|) + [TAG_END] == [TAG_END]
  {
  }

  lemma {:induction false} ItemsAt(v: Value, from: nat, data: Bytes, pos: nat)
    requires v.List? && from < |v.items| && At(data, pos, EncItems(v, from) + [TAG_END])
    ensures var x := Enc(v.items[from]);
      && |EncItems(v, from)| == |x| + |EncItems(v, from + 1)|
      && At(data, pos, x) && At(data, pos + |x|, EncItems(v, from + 1) + [TAG_END])
  {
    hide At, Enc;
    var x, rest := Enc(v.items[from]), EncItems(v, from + 1) + [TAG_END];
    assert EncItems(v, from) + [TAG_END] == x + rest;
    AtParts(data, pos, x, rest);
  }

  /** The decoded entries of dict `v` at the keys `ks`. */
  ghost function NormalOn(v: Value, ks: seq<GoString>): map<GoString, Value>
    requires v.Dict? && forall k :: k in ks ==> k in v.m
  {
    map k | k in ks :: Normal(v.m[k])
  }

  lemma NormalOnNext(v: Value, done: seq<GoString>, k: GoString)
    requires v.Dict? && forall x :: x in done + [k] ==> x in v.m
    ensures NormalOn(v, done)[k := Normal(v.m[k])] == NormalOn(v, done + [k])
  {
  }

  lemma EntriesAt(v: Value, ks: seq<GoString>, data: Bytes, pos: nat)
    requires v.Dict? && ks != [] && forall k :: k in ks ==> k in v.m
    requires At(data, pos, EncEntries(v, ks) + [TAG_END])
    ensures var key, val := EncStr(ks[0]), Enc(v.m[ks[0]]);
      && |EncEntries(v, ks)| == |key| + |val| + |EncEntries(v, ks[1..])|
      && At(data, pos, key)
      && At(data, pos + |key|, val)
      && At(data, pos + |key| + |val|, EncEntries(v, ks[1..]) + [TAG_END])
  {
    hide At, Enc, EncStr;
    var key, val, rest := EncStr(ks[0]), Enc(v.m[ks[0]]), EncEntries(v, ks[1..]) + [TAG_END];
    assert EncEntries(v, ks) + [TAG_END] == key + (val + rest);
    AtParts(data, pos, key, val + rest);
    AtParts(data, pos + |key|, val, rest);
  }

  lemma EncEntriesEnd(v: Value)
    requires v.Dict?
    ensures EncEntries(v, []) == []
  {
  }

  lemma {:induction false} ParseEncEntries(v: Value, done: seq<GoString>, ks: seq<GoString>,
                                           data: Bytes, pos: nat, depth: int)
    requires v.Dict? && Encodable(v) && depth <= MAX_DEPTH
    requires forall k :: k in done + ks ==> k in v.m
    requires At(data, pos, EncEntries(v, ks) + [TAG_END])
    ensures ParsePairs(data, pos, depth, NormalOn(v, done))
         == if forall k :: k in ks ==> NestsWithin(v.m[k], MAX_DEPTH - depth - 1)
            then Ok(Dict(NormalOn(v, done + ks)), pos + |EncEntries(v, ks)| + 1)
            else Err(TooDeep)
    decreases v, 0, |ks|
  {
    hide At, ParseAt, ParseItems, Enc, Normal, NormalOn, EncStr, EncEntries;
    if ks == [] {
      EncEntriesEnd(v);
      AtByte(data, pos, EncEntries(v, ks) + [TAG_END], 0);
      assert done + ks == done;
    } else {
      var k, tail := ks[0], ks[1..];
      var x := v.m[k];
      assert forall y :: y in ks <==> y == k || y in tail;
      EntriesAt(v, ks, data, pos);
      ParseEncStr(k, data, pos, depth + 1);
      var mid := pos + |EncStr(k)|;
      if depth < MAX_DEPTH { ParseEnc(x, data, mid, depth + 1); }
      if NestsWithin(x, MAX_DEPTH - depth - 1) {
        NormalOnNext(v, done, k);
        assert done + [k] + tail == done + ks;
        ParseEncEntries(v, done + [k], tail, data, mid + |Enc(x)|, depth);
      }
    }
  }

  // ------------------------------------------------------------ main result

  /** Decode after Encode: the value itself (in decoded form) when it nests at most
      256 deep, and the nesting error otherwise. */
  lemma {:induction false} DecodeOfEncode(v: Value)
    requires Encodable(v)
    ensures Decode(Enc(v)) == if NestsWithin(v, MAX_DEPTH) then Good(Normal(v)) else Bad(TooDeep)
  {
    hide ParseAt, Enc, NestsWithin, Normal, Encodable;
    var data := Enc(v);
    assert data[0..0 + |data|] == data;
    ParseEnc(v, data, 0, 0);
  }

  /** Parsing an encoding inside a longer text stops exactly where it ends. */
  lemma {:induction false} SelfDelimiting(v: Value, before: Bytes, after: Bytes, depth: int)
    requires Encodable(v) && NestsWithin(v, MAX_DEPTH - depth)
    ensures ParseAt(before + Enc(v) + after, |before|, depth) == Ok(Normal(v), |before| + |Enc(v)|)
  {
    var data := before + Enc(v) + after;
    assert data[|before|..|before| + |Enc(v)|] == Enc(v);
    ParseEnc(v, data, |before|, depth);
  }

  /** Two values have the same encoding only if they decode alike. */
  lemma {:induction false} EncInjective(v: Value, w: Value)
    requires Encodable(v) && Encodable(w) && Enc(v) == Enc(w) && NestsWithin(v, MAX_DEPTH)
    ensures Normal(v) == Normal(w)
  {
    DecodeOfEncode(v);
    DecodeOfEncode(w);
  }
}
