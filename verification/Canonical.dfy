/** Encoding what was decoded. The decoder takes more than BEP 3 allows (signs, leading
    zeros, unsorted and repeated keys); encoding the result again gives the one
    canonical text of that value, never longer, and unchanged only if it was canonical. */
module Canonical {
  import opened Options
  import opened Octets
  import opened Decimal
  import opened Bencode
  import opened RoundTrip

  // -------------------------------------------------- the strict grammar

  predicate StrictInt(data: Bytes, start: nat)
    requires start <= |data|
  {
    ReadInt(data, start).Ok? && ShortestInt(data[start..IndexFrom(data, start, TAG_END)])
  }

  predicate StrictStr(data: Bytes, start: nat)
    requires start <= |data|
  {
    ReadStr(data, start).Ok? && ShortestNat(data[start..IndexFrom(data, start, COLON)])
  }

  /** The end of the canonical value starting at `idx`, if one does: shortest numbers,
      and in every dict strictly increasing keys. */
  function StrictAt(data: Bytes, idx: nat): (r: Option<nat>)
    requires idx <= |data|
    ensures r.Some? ==> idx < r.value <= |data|
    decreases |data| - idx, 0
  {
    if idx == |data| then None
    else if data[idx] == TAG_INT then
      if StrictInt(data, idx + 1) then Some(ReadInt(data, idx + 1).next) else None
    else if data[idx] == TAG_LIST then StrictItems(data, idx + 1)
    else if data[idx] == TAG_DICT then StrictPairs(data, idx + 1, None)
    else if StrictStr(data, idx) then Some(ReadStr(data, idx).next)
    else None
  }

  function StrictItems(data: Bytes, pos: nat): (r: Option<nat>)
    requires pos <= |data|
    ensures r.Some? ==> pos < r.value <= |data|
    decreases |data| - pos, 1
  {
    if pos == |data| then None
    else if data[pos] == TAG_END then Some(pos + 1)
    else
      var v := StrictAt(data, pos);
      if v.None? then None else StrictItems(data, v.value)
  }

  /** `last` is the key of the entry before `pos`, if there is one. */
  function StrictPairs(data: Bytes, pos: nat, last: Option<GoString>): (r: Option<nat>)
    requires pos <= |data|
    ensures r.Some? ==> pos < r.value <= |data|
    decreases |data| - pos, 1
  {
    if pos == |data| then None
    else if data[pos] == TAG_END then Some(pos + 1)
    else if !StrictStr(data, pos) then None
    else
      var k := ReadStr(data, pos);
      if last.Some? && !Less(last.value, k.value.s) then None
      else
        var v := StrictAt(data, k.next);
        if v.None? then None else StrictPairs(data, v.value, Some(k.value.s))
  }

  /** The whole of `data` is one value in canonical form. */
  predicate CanonicalText(data: Bytes) {
    StrictAt(data, 0) == Some(|data|)
  }

  // ---------------------------------------- every encoding is canonical

  lemma StrictOfEncInt(n: int64, data: Bytes, idx: nat)
    requires At(data, idx, EncInt(n))
    ensures StrictAt(data, idx) == Some(idx + |EncInt(n)|)
  {
    hide ReadStr, ReadInt, StrictItems, StrictPairs, FormatInt, At, IndexFrom, ShortestInt;
    assert EncInt(n) == [TAG_INT] + (FormatInt(n) + [TAG_END]);
    AtParts(data, idx, [TAG_INT], FormatInt(n) + [TAG_END]);
    AtByte(data, idx, [TAG_INT], 0);
    ReadEncInt(n, data, idx + 1);
    IntText(n, data, idx + 1);
    ParseOfFormat(n);
  }

  lemma IntText(n: int64, data: Bytes, start: nat)
    requires At(data, start, FormatInt(n) + [TAG_END])
    ensures start <= |data| && data[start..IndexFrom(data, start, TAG_END)] == FormatInt(n)
  {
    hide FormatInt, IndexFrom;
    var text := FormatInt(n);
    var end := start + |text|;
    ParseOfFormat(n);
    AtParts(data, start, text, [TAG_END]);
    AtByte(data, end, [TAG_END], 0);
    forall i | start <= i < end ensures data[i] != TAG_END { AtByte(data, start, text, i - start); }
    IndexFromIs(data, start, TAG_END, end);
  }

  lemma LengthPrefix(s: GoString, data: Bytes, start: nat)
    requires At(data, start, EncStr(s))
    ensures start <= |data| && data[start..IndexFrom(data, start, COLON)] == Digits(|s|)
  {
    hide Digits, IndexFrom;
    var text := Digits(|s|);
    var colon := start + |text|;
    assert EncStr(s) == text + ([COLON] + s);
    AtParts(data, start, text, [COLON] + s);
    AtParts(data, colon, [COLON], s);
    AtByte(data, colon, [COLON], 0);
    forall i | start <= i < colon ensures data[i] != COLON { AtByte(data, start, text, i - start); }
    IndexFromIs(data, start, COLON, colon);
  }

  lemma StrictOfEncStr(s: GoString, data: Bytes, start: nat)
    requires At(data, start, EncStr(s))
    ensures start < |data| && IsDigit(data[start])
    ensures StrictStr(data, start)
  {
    hide At, Digits, IndexFrom, EncStr, ReadStr, ShortestNat;
    ReadEncStr(s, data, start);
    LengthPrefix(s, data, start);
    DigitsShortest(|s|);
  }

  lemma {:induction false} StrictOfEnc(v: Value, data: Bytes, idx: nat)
    requires Encodable(v) && At(data, idx, Enc(v))
    ensures StrictAt(data, idx) == Some(idx + |Enc(v)|)
    decreases v, 1, 0
  {
    hide At, ReadInt, StrictItems, StrictPairs, EncItems, EncEntries, EncStr, EncInt;
    match v
    case Int64(n) => StrictOfEncInt(n, data, idx);
    case GoInt(n) => StrictOfEncInt(n, data, idx);
    case Int32(n) => StrictOfEncInt(n, data, idx);
    case Str(s) => StrictOfEncStr(s, data, idx); ReadEncStr(s, data, idx);
    case ByteSlice(s) => StrictOfEncStr(s, data, idx); ReadEncStr(s, data, idx);
    case List(items) =>
      AtByte(data, idx, Enc(v), 0);
      assert Enc(v) == [TAG_LIST] + (EncItems(v, 0) + [TAG_END]);
      AtParts(data, idx, [TAG_LIST], EncItems(v, 0) + [TAG_END]);
      StrictOfItems(v, 0, data, idx + 1);
    case Dict(m) =>
      var ks := SortedKeys(m.Keys);
      AtByte(data, idx, Enc(v), 0);
      assert Enc(v) == [TAG_DICT] + (EncEntries(v, ks) + [TAG_END]);
      AtParts(data, idx, [TAG_DICT], EncEntries(v, ks) + [TAG_END]);
      StrictOfEntries(v, None, ks, data, idx + 1);
  }

  lemma {:induction false} StrictOfItems(v: Value, from: nat, data: Bytes, pos: nat)
    requires v.List? && Encodable(v) && from <= |v.items|
    requires At(data, pos, EncItems(v, from) + [TAG_END])
    ensures pos <= |data| && StrictItems(data, pos) == Some(pos + |EncItems(v, from)| + 1)
    decreases v, 0, |v.items| - from
  {
    hide At, StrictAt, StrictPairs, Enc;
    if from == |v.items| {
      assert EncItems(v, from) + [TAG_END] == [TAG_END];
      AtByte(data, pos, [TAG_END], 0);
    } else {
      var x := v.items[from];
      var rest := EncItems(v, from + 1) + [TAG_END];
      EncHead(x);
      assert EncItems(v, from) + [TAG_END] == Enc(x) + rest;
      AtParts(data, pos, Enc(x), rest);
      AtByte(data, pos, Enc(x), 0);
      StrictOfEnc(x, data, pos);
      StrictOfItems(v, from + 1, data, pos + |Enc(x)|);
    }
  }

  lemma {:induction false} StrictOfEntries(v: Value, last: Option<GoString>, ks: seq<GoString>, data: Bytes, pos: nat)
    requires v.Dict? && Encodable(v) && Sorted(ks)
    requires forall k :: k in ks ==> k in v.m
    requires last.Some? && ks != [] ==> Less(last.value, ks[0])
    requires At(data, pos, EncEntries(v, ks) + [TAG_END])
    ensures pos <= |data| && StrictPairs(data, pos, last) == Some(pos + |EncEntries(v, ks)| + 1)
    decreases v, 0, |ks|
  {
    hide At, StrictAt, StrictStr, StrictItems, Enc, EncStr, EncEntries, Less, ReadStr;
    if ks == [] {
      EntriesNil(v);
      AtByte(data, pos, EncEntries(v, ks) + [TAG_END], 0);
    } else {
      EntriesAt(v, ks, data, pos);
      StrictOfEncStr(ks[0], data, pos);
      ReadEncStr(ks[0], data, pos);
      var mid := pos + |EncStr(ks[0])|;
      var x := v.m[ks[0]];
      StrictOfEnc(x, data, mid);
      StrictOfEntries(v, Some(ks[0]), ks[1..], data, mid + |Enc(x)|);
    }
  }

  // -------------------------------------- re-encoding what was accepted

  /** A value as the decoder builds it. */
  ghost predicate Plain(v: Value) {
    match v
    case Int64(_) => true
    case Str(_) => true
    case List(items) => forall i :: 0 <= i < |items| ==> Plain(items[i])
    case Dict(m) => forall k :: k in m ==> Plain(m[k])
    case _ => false
  }

  lemma {:induction false} PlainIsNormal(v: Value)
    requires Plain(v)
    ensures Encodable(v) && Normal(v) == v
  {
    match v
    case List(items) =>
      forall i | 0 <= i < |items| ensures Encodable(items[i]) && Normal(items[i]) == items[i] { PlainIsNormal(items[i]); }
      assert NormalItems(items) == items;
    case Dict(m) =>
      forall k | k in m ensures Encodable(m[k]) && Normal(m[k]) == m[k] { PlainIsNormal(m[k]); }
      assert (map k | k in m :: Normal(m[k])) == m;
    case _ =>
  }

  /** The entries of a map in key order. */
  ghost function EncMap(d: map<GoString, Value>): Bytes {
    EncEntries(Dict(d), SortedKeys(d.Keys))
  }

  lemma {:induction false} EntriesConcat(v: Value, a: seq<GoString>, b: seq<GoString>)
    requires v.Dict? && (forall k :: k in a + b ==> k in v.m)
    ensures EncEntries(v, a + b) == EncEntries(v, a) + EncEntries(v, b)
  {
    hide Enc, EncStr;
    if a == [] {
      assert a + b == b;
    } else {
      assert (a + b)[1..] == a[1..] + b;
      EntriesConcat(v, a[1..], b);
    }
  }

  lemma {:induction false} EntriesAgree(v: Value, w: Value, ks: seq<GoString>)
    requires v.Dict? && w.Dict?
    requires forall k :: k in ks ==> k in v.m && k in w.m && v.m[k] == w.m[k]
    ensures EncEntries(v, ks) == EncEntries(w, ks)
  {
    hide Enc, EncStr;
    if ks != [] { EntriesAgree(v, w, ks[1..]); }
  }

  lemma EntryOne(v: Value, k: GoString)
    requires v.Dict? && k in v.m
    ensures EncEntries(v, [k]) == EncStr(k) + Enc(v.m[k])
  {
    hide Enc, EncStr;
    assert EncEntries(v, [k][1..]) == [];
  }

  /** Around the place of key `k` the entries of a map split in three. */
  lemma EntriesAround(v: Value, a: seq<GoString>, k: GoString, b: seq<GoString>)
    requires v.Dict? && (forall x :: x in a + [k] + b ==> x in v.m)
    ensures EncEntries(v, a + [k] + b) == EncEntries(v, a) + (EncStr(k) + Enc(v.m[k])) + EncEntries(v, b)
  {
    hide Enc, EncStr, EncEntries;
    EntriesConcat(v, a + [k], b);
    EntriesConcat(v, a, [k]);
    EntryOne(v, k);
  }

  lemma {:induction false} EncMapAdd(d: map<GoString, Value>, k: GoString, x: Value)
    requires k !in d
    ensures |EncMap(d[k := x])| == |EncMap(d)| + |EncStr(k)| + |Enc(x)|
    ensures (forall y :: y in d ==> Less(y, k)) ==> EncMap(d[k := x]) == EncMap(d) + (EncStr(k) + Enc(x))
  {
    hide Enc, EncStr, EncEntries, SortedKeys, Sorted, Less;
    var ks := SortedKeys(d.Keys);
    var v, w := Dict(d), Dict(d[k := x]);
    var at := SortedInsert(d.Keys, k);
    var a, b := ks[..at], ks[at..];
    assert ks == a + b;
    assert w.m.Keys == d.Keys + {k};
    EntriesConcat(v, a, b);
    EntriesAround(w, a, k, b);
    EntriesAgree(v, w, a);
    EntriesAgree(v, w, b);
    if forall y :: y in d ==> Less(y, k) {
      assert b == [] && a == ks;
      EntriesNil(w);
    }
  }

  lemma EntriesNil(v: Value)
    requires v.Dict?
    ensures EncEntries(v, []) == []
  {
  }

  lemma {:induction false} EncMapReplace(d: map<GoString, Value>, k: GoString, x: Value)
    requires k in d
    ensures |EncMap(d[k := x])| == |EncMap(d)| - |Enc(d[k])| + |Enc(x)|
  {
    hide Enc, EncStr, EncEntries;
    var ks := SortedKeys(d.Keys);
    var v, w := Dict(d), Dict(d[k := x]);
    assert w.m.Keys == d.Keys;
    var at :| 0 <= at < |ks| && ks[at] == k;
    var a, b := ks[..at], ks[at + 1..];
    assert ks == a + [k] + b;
    SortedDistinct(ks);
    EntriesAround(v, a, k, b);
    EntriesAround(w, a, k, b);
    EntriesAgree(v, w, a);
    EntriesAgree(v, w, b);
  }

  lemma ReadIntAgain(data: Bytes, start: nat)
    requires 0 < start <= |data| && data[start - 1] == TAG_INT && ReadInt(data, start).Ok?
    ensures var r := ReadInt(data, start);
      && r.value.Int64?
      && |EncInt(r.value.n)| <= r.next - (start - 1)
      && (StrictInt(data, start) ==> EncInt(r.value.n) == data[start - 1..r.next])
  {
    hide FormatInt, ParseInt, IndexFrom, ShortestInt;
    var end := IndexFrom(data, start, TAG_END);
    FormatOfParse(data[start..end]);
    assert data[start - 1..end + 1] == [TAG_INT] + data[start..end] + [TAG_END];
  }

  lemma ReadStrAgain(data: Bytes, start: nat)
    requires start <= |data| && start < |data| && IsDigit(data[start]) && ReadStr(data, start).Ok?
    ensures var r := ReadStr(data, start);
      && |EncStr(r.value.s)| <= r.next - start
      && (StrictStr(data, start) ==> EncStr(r.value.s) == data[start..r.next])
  {
    hide Digits, IndexFrom, ShortestNat, FormatInt, ParseInt;
    var colon := IndexFrom(data, start, COLON);
    var text := data[start..colon];
    var s := ReadStr(data, start).value.s;
    FormatOfParse(text);
    LengthText(text, |s|);
    assert data[start..colon + 1 + |s|] == text + [COLON] + s;
  }

  lemma LengthText(text: Bytes, n: nat)
    requires text != [] && ParseInt(text) == Some(n) && IsDigit(text[0])
    ensures |Digits(n)| <= |text| && (ShortestNat(text) ==> Digits(n) == text)
  {
    hide Digits;
    DigitsOfMagnitude(text);
  }

  /** What the parser accepted between `idx` and `next` is a decoder-made value, not
      nested too deep, whose encoding is no longer; and a canonical text is that encoding. */
  ghost predicate Reencodes(data: Bytes, idx: nat, depth: int, v: Value, next: nat)
    requires idx <= next <= |data|
  {
    && Plain(v) && NestsWithin(v, MAX_DEPTH - depth)
    && |Enc(v)| <= next - idx
    && (StrictAt(data, idx).Some? ==> StrictAt(data, idx) == Some(next) && Enc(v) == data[idx..next])
  }

  lemma {:induction false} ReEncodeAt(data: Bytes, idx: nat, depth: int)
    requires idx <= |data| && ParseAt(data, idx, depth).Ok?
    ensures Reencodes(data, idx, depth, ParseAt(data, idx, depth).value, ParseAt(data, idx, depth).next)
    decreases |data| - idx, 0
  {
    hide ReadStr, ReadInt, StrictStr, StrictInt, EncInt, EncStr, EncItems, EncEntries, ParseItems, ParsePairs, StrictItems, StrictPairs;
    var r := ParseAt(data, idx, depth);
    if data[idx] == TAG_INT {
      ReadIntAgain(data, idx + 1);
    } else if data[idx] == TAG_LIST {
      hide Reencodes, ReencodesItems, Enc;
      ReEncodeItems(data, idx + 1, depth, []);
      ListAgain(data, idx, depth, r.value, r.next);
    } else if data[idx] == TAG_DICT {
      hide Reencodes, ReencodesPairs, Enc;
      ReEncodePairs(data, idx + 1, depth, map[], None);
      DictAgain(data, idx, depth, r.value, r.next);
    } else {
      ReadStrAgain(data, idx);
    }
  }

  lemma {:induction false} ListAgain(data: Bytes, idx: nat, depth: int, v: Value, next: nat)
    requires idx < next <= |data| && data[idx] == TAG_LIST && depth <= MAX_DEPTH
    requires ReencodesItems(data, idx + 1, depth, 0, v, next)
    ensures Reencodes(data, idx, depth, v, next)
  {
    hide StrictItems, EncItems;
    assert Enc(v) == [TAG_LIST] + (EncItems(v, 0) + [TAG_END]);
    assert data[idx..next] == [TAG_LIST] + data[idx + 1..next];
  }

  lemma {:induction false} DictAgain(data: Bytes, idx: nat, depth: int, v: Value, next: nat)
    requires idx < next <= |data| && data[idx] == TAG_DICT && depth <= MAX_DEPTH
    requires v.Dict? && ReencodesPairs(data, idx + 1, depth, map[], None, v.m, next)
    ensures Reencodes(data, idx, depth, v, next)
  {
    hide StrictPairs, EncEntries;
    EncMapEmpty();
    assert Enc(v) == [TAG_DICT] + (EncMap(v.m) + [TAG_END]);
    assert data[idx..next] == [TAG_DICT] + data[idx + 1..next];
  }

  lemma EncMapEmpty()
    ensures EncMap(map[]) == []
  {
    var none: map<GoString, Value> := map[];
    SortedUnique(SortedKeys(none.Keys), []);
  }

  /** As above for the items after `items`, of a list that is complete at its end. */
  ghost predicate ReencodesItems(data: Bytes, pos: nat, depth: int, from: nat, v: Value, next: nat)
    requires pos <= next <= |data|
  {
    && v.List? && from <= |v.items|
    && (forall i :: from <= i < |v.items| ==> Plain(v.items[i]) && NestsWithin(v.items[i], MAX_DEPTH - depth - 1))
    && |EncItems(v, from)| + 1 <= next - pos
    && (StrictItems(data, pos).Some? ==>
          StrictItems(data, pos) == Some(next) && EncItems(v, from) + [TAG_END] == data[pos..next])
  }

  lemma {:induction false} ReEncodeItems(data: Bytes, pos: nat, depth: int, items: seq<Value>)
    requires pos <= |data| && ParseItems(data, pos, depth, items).Ok? && depth <= MAX_DEPTH
    ensures var r := ParseItems(data, pos, depth, items);
      && ReencodesItems(data, pos, depth, |items|, r.value, r.next)
      && r.value.items[..|items|] == items
    decreases |data| - pos, 1
  {
    hide ParseAt, StrictAt, Enc, ParsePairs, StrictPairs;
    var r := ParseItems(data, pos, depth, items);
    if data[pos] == TAG_END {
      assert EncItems(r.value, |items|) == [];
      assert data[pos..pos + 1] == [TAG_END];
    } else {
      var x := ParseAt(data, pos, depth + 1);
      ReEncodeAt(data, pos, depth + 1);
      ReEncodeItems(data, x.next, depth, items + [x.value]);
      var all := r.value.items;
      assert all[..|items|] == all[..|items| + 1][..|items|];
      assert all[|items|] == all[..|items| + 1][|items|];
      ItemsStep(data, pos, depth, |items|, r.value, x.next, r.next);
    }
  }

  lemma ItemsStep(data: Bytes, pos: nat, depth: int, from: nat, v: Value, mid: nat, next: nat)
    requires pos < mid <= next <= |data| && data[pos] != TAG_END
    requires v.List? && from < |v.items|
    requires Reencodes(data, pos, depth + 1, v.items[from], mid)
    requires ReencodesItems(data, mid, depth, from + 1, v, next)
    ensures ReencodesItems(data, pos, depth, from, v, next)
  {
    hide Enc, StrictAt;
    var x := v.items[from];
    assert EncItems(v, from) == Enc(x) + EncItems(v, from + 1);
    assert data[pos..next] == data[pos..mid] + data[mid..next];
  }

  /** `last` is the greatest key collected so far. */
  ghost predicate Greatest(d: map<GoString, Value>, last: Option<GoString>) {
    if last.None? then d == map[]
    else last.value in d && forall k :: k in d ==> k == last.value || Less(k, last.value)
  }

  /** As above for the entries read after `d` was collected, giving `m` at the end. */
  ghost predicate ReencodesPairs(data: Bytes, pos: nat, depth: int, d: map<GoString, Value>, last: Option<GoString>,
                                 m: map<GoString, Value>, next: nat)
    requires pos <= next <= |data|
  {
    && (forall k :: k in m ==> Plain(m[k]) && NestsWithin(m[k], MAX_DEPTH - depth - 1))
    && |EncMap(m)| + 1 <= |EncMap(d)| + (next - pos)
    && (Greatest(d, last) && StrictPairs(data, pos, last).Some? ==>
          StrictPairs(data, pos, last) == Some(next) && EncMap(m) + [TAG_END] == EncMap(d) + data[pos..next])
  }

  lemma {:induction false} ReEncodePairs(data: Bytes, pos: nat, depth: int, d: map<GoString, Value>, last: Option<GoString>)
    requires pos <= |data| && ParsePairs(data, pos, depth, d).Ok? && depth <= MAX_DEPTH
    requires forall k :: k in d ==> Plain(d[k]) && NestsWithin(d[k], MAX_DEPTH - depth - 1)
    ensures var r := ParsePairs(data, pos, depth, d);
      && r.value.Dict?
      && ReencodesPairs(data, pos, depth, d, last, r.value.m, r.next)
    decreases |data| - pos, 1
  {
    hide ParseAt, StrictAt, Enc, ParseItems, StrictItems, EncMap, ReadStr, StrictStr;
    var r := ParsePairs(data, pos, depth, d);
    if data[pos] == TAG_END {
      assert data[pos..pos + 1] == [TAG_END];
    } else {
      var k := ParseAt(data, pos, depth + 1);
      KeyAt(data, pos, depth + 1);
      var x := ParseAt(data, k.next, depth + 1);
      ReEncodeAt(data, k.next, depth + 1);
      var key := k.value.s;
      var d' := d[key := x.value];
      ReEncodePairs(data, x.next, depth, d', Some(key));
      PairsStep(data, pos, depth, d, last, key, k.next, x.value, x.next, r.value.m, r.next);
    }
  }

  /** A dict key is read as a string. */
  lemma KeyAt(data: Bytes, pos: nat, depth: int)
    requires pos <= |data| && ParseAt(data, pos, depth).Ok? && ParseAt(data, pos, depth).value.Str?
    ensures pos < |data| && IsDigit(data[pos]) && ReadStr(data, pos) == ParseAt(data, pos, depth)
    ensures depth <= MAX_DEPTH
  {
    hide ReadStr, ReadInt;
    if data[pos] == TAG_LIST { ItemsGiveList(data, pos + 1, depth, []); }
    if data[pos] == TAG_DICT { PairsGiveDict(data, pos + 1, depth, map[]); }
    if data[pos] == TAG_INT { IntGivesInt(data, pos + 1); }
  }

  lemma IntGivesInt(data: Bytes, start: nat)
    requires start <= |data| && ReadInt(data, start).Ok?
    ensures ReadInt(data, start).value.Int64?
  {
  }

  lemma {:induction false} ItemsGiveList(data: Bytes, pos: nat, depth: int, items: seq<Value>)
    requires pos <= |data| && ParseItems(data, pos, depth, items).Ok?
    ensures ParseItems(data, pos, depth, items).value.List?
    decreases |data| - pos
  {
    hide ParseAt, ParsePairs;
    if data[pos] != TAG_END {
      var x := ParseAt(data, pos, depth + 1);
      ItemsGiveList(data, x.next, depth, items + [x.value]);
    }
  }

  lemma {:induction false} PairsGiveDict(data: Bytes, pos: nat, depth: int, d: map<GoString, Value>)
    requires pos <= |data| && ParsePairs(data, pos, depth, d).Ok?
    ensures ParsePairs(data, pos, depth, d).value.Dict?
    decreases |data| - pos
  {
    hide ParseAt, ParseItems;
    if data[pos] != TAG_END {
      var k := ParseAt(data, pos, depth + 1);
      var x := ParseAt(data, k.next, depth + 1);
      PairsGiveDict(data, x.next, depth, d[k.value.s := x.value]);
    }
  }

  lemma GreatestNext(d: map<GoString, Value>, last: Option<GoString>, key: GoString, x: Value)
    requires Greatest(d, last) && (last.Some? ==> Less(last.value, key))
    ensures Greatest(d[key := x], Some(key))
    ensures key !in d && forall k :: k in d ==> Less(k, key)
  {
    forall k | k in d ensures Less(k, key) {
      if k != last.value { LessTransitive(k, last.value, key); }
    }
    LessIrreflexive(key);
  }

  lemma PairsStep(data: Bytes, pos: nat, depth: int, d: map<GoString, Value>, last: Option<GoString>,
                  key: GoString, mid: nat, x: Value, end: nat, m: map<GoString, Value>, next: nat)
    requires pos < mid < end <= next <= |data| && IsDigit(data[pos])
    requires ReadStr(data, pos) == Ok(Str(key), mid)
    requires Reencodes(data, mid, depth + 1, x, end)
    requires ReencodesPairs(data, end, depth, d[key := x], Some(key), m, next)
    ensures ReencodesPairs(data, pos, depth, d, last, m, next)
  {
    hide Enc, EncStr, EncMap, StrictAt, StrictStr, ReadStr;
    ReadStrAgain(data, pos);
    if key in d { EncMapReplace(d, key, x); } else { EncMapAdd(d, key, x); }
    if Greatest(d, last) && StrictPairs(data, pos, last).Some? {
      GreatestNext(d, last, key, x);
      EncMapAdd(d, key, x);
      assert data[pos..next] == data[pos..mid] + data[mid..end] + data[end..next];
    }
  }

  // ------------------------------------------------------------ main results

  /** For every accepted text, however written: encoding the decoded value gives a
      canonical text, never longer, that decodes to the same value; and it is the text
      itself exactly when that text was canonical. */
  lemma {:induction false} ReEncode(data: Bytes)
    requires Decode(data).Good?
    ensures var v := Decode(data).value;
      && Encodable(v)
      && Decode(Enc(v)) == Good(v)
      && CanonicalText(Enc(v))
      && |Enc(v)| <= |data|
      && (Enc(v) == data <==> CanonicalText(data))
  {
    hide ParseAt, StrictAt, Enc;
    var v := Decode(data).value;
    ReEncodeAt(data, 0, 0);
    PlainIsNormal(v);
    DecodeOfEncode(v);
    EncIsCanonical(v);
    assert data[0..|data|] == data;
  }

  lemma {:induction false} EncIsCanonical(v: Value)
    requires Encodable(v)
    ensures CanonicalText(Enc(v))
  {
    hide StrictAt, Enc;
    var e := Enc(v);
    assert e[0..0 + |e|] == e;
    StrictOfEnc(v, e, 0);
  }

  /** Canonical texts name values one to one. */
  lemma {:induction false} CanonicalUnique(a: Bytes, b: Bytes)
    requires Decode(a).Good? && Decode(a) == Decode(b)
    requires CanonicalText(a) && CanonicalText(b)
    ensures a == b
  {
    ReEncode(a);
    ReEncode(b);
  }
}
