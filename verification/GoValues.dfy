/** Decoded values as the program holds them: maps and slices are mutable objects that
    values point to. `Holds` ties such a structure to the value it stands for and to the
    set of objects it is made of. */
module GoValues {
  import opened Options
  import opened Octets
  import opened Decimal
  import opened Bencode

  class MapNode {
    var m: map<GoString, Any>

    constructor (m: map<GoString, Any>)
      ensures this.m == m
    {
      this.m := m;
    }
  }

  class SliceNode {
    var items: seq<Any>

    constructor (items: seq<Any>)
      ensures this.items == items
    {
      this.items := items;
    }
  }

  /** Go's `any`. */
  datatype Any =
    | Scalar(v: Value)
    | Slice(s: SliceNode)
    | Map(d: MapNode)

  predicate IsScalar(v: Value) { !v.List? && !v.Dict? }

  /** `a` stands for `v`, and every map and slice it reaches is among `foot`;
      no map or slice reaches itself. */
  ghost predicate Holds(a: Any, v: Value, foot: set<object>)
    reads foot
    decreases v
  {
    match a
    case Scalar(w) => v == w && IsScalar(w)
    case Slice(s) => s in foot && v.List? && HoldsItems(s.items, v, foot - {s})
    case Map(d) => d in foot && v.Dict? && HoldsEntries(d.m, v, foot - {d})
  }

  ghost predicate HoldsItems(items: seq<Any>, v: Value, foot: set<object>)
    requires v.List?
    reads foot
    decreases v, 0
  {
    |items| == |v.items| && forall i :: 0 <= i < |items| ==> Holds(items[i], v.items[i], foot)
  }

  ghost predicate HoldsEntries(m: map<GoString, Any>, v: Value, foot: set<object>)
    requires v.Dict?
    reads foot
    decreases v, 0
  {
    m.Keys == v.m.Keys && forall k :: k in m ==> Holds(m[k], v.m[k], foot)
  }

  lemma {:induction false} HoldsMore(a: Any, v: Value, foot: set<object>, more: set<object>)
    requires Holds(a, v, foot) && foot <= more
    ensures Holds(a, v, more)
    decreases v
  {
    match a
    case Scalar(_) =>
    case Slice(s) =>
      forall i | 0 <= i < |s.items| ensures Holds(s.items[i], v.items[i], more - {s}) {
        HoldsMore(s.items[i], v.items[i], foot - {s}, more - {s});
      }
    case Map(d) =>
      forall k | k in d.m ensures Holds(d.m[k], v.m[k], more - {d}) {
        HoldsMore(d.m[k], v.m[k], foot - {d}, more - {d});
      }
  }

  datatype Read = Got(value: Any, next: nat) | Refused(error: Error)

  ghost predicate Reads(r: Read, p: Parsed, foot: set<object>)
    reads foot
  {
    match p
    case Err(e) => r == Refused(e)
    case Ok(v, next) => r.Got? && r.next == next && Holds(r.value, v, foot)
  }

  method Parse(data: Bytes, idx: nat, depth: int) returns (r: Read, ghost foot: set<object>)
    requires idx <= |data|
    ensures Reads(r, ParseAt(data, idx, depth), foot) && fresh(foot)
    decreases |data| - idx, 0
  {
    foot := {};
    if depth > MAX_DEPTH { r := Refused(TooDeep); return; }
    if idx >= |data| { r := Refused(UnexpectedEnd); return; }
    var c := data[idx];
    if c == TAG_INT {
      var p := ReadInt(data, idx + 1);
      r := if p.Err? then Refused(p.error) else Got(Scalar(p.value), p.next);
    } else if c == TAG_LIST {
      r, foot := ParseSlice(data, idx + 1, depth);
    } else if c == TAG_DICT {
      r, foot := ParseMap(data, idx + 1, depth);
    } else if IsDigit(c) {
      var p := ReadStr(data, idx);
      r := if p.Err? then Refused(p.error) else Got(Scalar(p.value), p.next);
    } else {
      r := Refused(UnknownMarker);
    }
  }

  method ParseSlice(data: Bytes, start: nat, depth: int) returns (r: Read, ghost foot: set<object>)
    requires start <= |data|
    ensures Reads(r, ParseItems(data, start, depth, []), foot) && fresh(foot)
    decreases |data| - start, 1
  {
    hide ParseAt, ParsePairs;
    foot := {};
    var items: seq<Any> := [];
    ghost var vals: seq<Value> := [];
    var pos := start;
    while pos < |data| && data[pos] != TAG_END
      invariant start <= pos <= |data| && fresh(foot)
      invariant ParseItems(data, start, depth, []) == ParseItems(data, pos, depth, vals)
      invariant HoldsItems(items, List(vals), foot)
    {
      var x, sub := Parse(data, pos, depth + 1);
      if x.Refused? { return x, foot; }
      ghost var v := ParseAt(data, pos, depth + 1).value;
      HoldsMore(x.value, v, sub, foot + sub);
      HoldsAllMore(items, vals, foot, foot + sub);
      items, vals, foot, pos := items + [x.value], vals + [v], foot + sub, x.next;
    }
    if pos >= |data| { return Refused(UnterminatedList), foot; }
    var s := new SliceNode(items);
    assert foot + {s} - {s} == foot;
    return Got(Slice(s), pos + 1), foot + {s};
  }

  lemma HoldsAllMore(items: seq<Any>, vals: seq<Value>, foot: set<object>, more: set<object>)
    requires HoldsItems(items, List(vals), foot) && foot <= more
    ensures HoldsItems(items, List(vals), more)
  {
    forall i | 0 <= i < |items| ensures Holds(items[i], vals[i], more) { HoldsMore(items[i], vals[i], foot, more); }
  }

  lemma HoldsEachMore(m: map<GoString, Any>, vals: map<GoString, Value>, foot: set<object>, more: set<object>)
    requires HoldsEntries(m, Dict(vals), foot) && foot <= more
    ensures HoldsEntries(m, Dict(vals), more)
  {
    forall k | k in m ensures Holds(m[k], vals[k], more) { HoldsMore(m[k], vals[k], foot, more); }
  }

  method ParseMap(data: Bytes, start: nat, depth: int) returns (r: Read, ghost foot: set<object>)
    requires start <= |data|
    ensures Reads(r, ParsePairs(data, start, depth, map[]), foot) && fresh(foot)
    decreases |data| - start, 1
  {
    hide ParseAt, ParseItems;
    foot := {};
    var d := new MapNode(map[]);
    ghost var vals: map<GoString, Value> := map[];
    var pos := start;
    while pos < |data| && data[pos] != TAG_END
      invariant start <= pos <= |data| && fresh(foot) && fresh(d) && d !in foot
      invariant ParsePairs(data, start, depth, map[]) == ParsePairs(data, pos, depth, vals)
      invariant HoldsEntries(d.m, Dict(vals), foot)
    {
      var k, keyFoot := Parse(data, pos, depth + 1);
      if k.Refused? { return k, foot; }
      if !(k.value.Scalar? && k.value.v.Str?) { return Refused(KeyNotBytes), foot; }
      var x, sub := Parse(data, k.next, depth + 1);
      if x.Refused? { return x, foot; }
      ghost var v := ParseAt(data, k.next, depth + 1).value;
      HoldsMore(x.value, v, sub, foot + sub);
      HoldsEachMore(d.m, vals, foot, foot + sub);
      vals, foot := vals[k.value.v.s := v], foot + sub;
      d.m := d.m[k.value.v.s := x.value];
      pos := x.next;
    }
    if pos >= |data| { return Refused(UnterminatedDict), foot; }
    assert foot + {d} - {d} == foot;
    return Got(Map(d), pos + 1), foot + {d};
  }

  method Decode(data: Bytes) returns (r: Read, ghost foot: set<object>)
    ensures match Bencode.Decode(data)
      case Bad(e) => r == Refused(e)
      case Good(v) => r.Got? && Holds(r.value, v, foot) && fresh(foot)
  {
    hide ParseAt;
    r, foot := Parse(data, 0, 0);
    if r.Got? && r.next != |data| { r := Refused(TrailingData); }
  }

  // ------------------------------------------------------------- encoding

  /** sort.Strings on the distinct keys of a map. */
  method SortStrings(keys: seq<GoString>) returns (r: seq<GoString>)
    requires forall i, j :: 0 <= i < j < |keys| ==> keys[i] != keys[j]
    ensures r == SortedKeys(set k | k in keys)
  {
    r := [];
    for n := 0 to |keys|
      invariant Sorted(r)
      invariant forall k :: k in r <==> k in keys[..n]
    {
      var k := keys[n];
      var at := 0;
      while at < |r| && Less(r[at], k)
        invariant at <= |r| && forall i :: 0 <= i < at ==> Less(r[i], k)
      {
        at := at + 1;
      }
      InsertKeepsSorted(r, k, at);
      r := r[..at] + [k] + r[at..];
    }
    SortedUnique(r, SortedKeys(set k | k in keys));
  }

  /** `for k := range m`: every key once, in an order nothing is known about. */
  method ListKeys(m: map<GoString, Any>) returns (keys: seq<GoString>)
    ensures forall i, j :: 0 <= i < j < |keys| ==> keys[i] != keys[j]
    ensures forall k :: k in keys <==> k in m
  {
    keys := [];
    var left := m.Keys;
    while left != {}
      invariant left <= m.Keys
      invariant forall i, j :: 0 <= i < j < |keys| ==> keys[i] != keys[j]
      invariant forall k :: k in keys <==> k in m && k !in left
    {
      var k :| k in left;
      keys, left := keys + [k], left - {k};
    }
  }

  /** Whatever order a map is walked in, the bytes are the same. */
  method Encode(a: Any, ghost v: Value, ghost foot: set<object>) returns (r: Option<Bytes>)
    requires Holds(a, v, foot)
    ensures r == EncodeResult(v)
    decreases v, 1, 0
  {
    match a
    case Scalar(w) =>
      match w {
        case Int64(n) => return Some(EncInt(n));
        case GoInt(n) => return Some(EncInt(n));
        case Int32(n) => return Some(EncInt(n));
        case Str(s) => return Some(EncStr(s));
        case ByteSlice(s) => return Some(EncStr(s));
        case _ => return None;
      }
    case Slice(s) => r := EncodeSlice(s.items, v, foot - {s});
    case Map(d) => r := EncodeMap(d.m, v, foot - {d});
  }

  method EncodeSlice(items: seq<Any>, ghost v: Value, ghost foot: set<object>) returns (r: Option<Bytes>)
    requires v.List? && HoldsItems(items, v, foot)
    ensures r == EncodeResult(v)
    decreases v, 0, 1
  {
    var buf: Bytes := [TAG_LIST];
    for i := 0 to |items|
      invariant forall j :: 0 <= j < i ==> Encodable(v.items[j])
      invariant [TAG_LIST] + EncItems(v, 0) == buf + EncItems(v, i)
    {
      var b := Encode(items[i], v.items[i], foot);
      if b.None? { return None; }
      buf := buf + b.value;
    }
    assert buf == [TAG_LIST] + EncItems(v, 0);
    return Some(buf + [TAG_END]);
  }

  method EncodeMap(m: map<GoString, Any>, ghost v: Value, ghost foot: set<object>) returns (r: Option<Bytes>)
    requires v.Dict? && HoldsEntries(m, v, foot)
    ensures r == EncodeResult(v)
    decreases v, 0, 1
  {
    var unsorted := ListKeys(m);
    assert (set k | k in unsorted) == v.m.Keys;
    var keys := SortStrings(unsorted);
    var buf := EncodeSorted(m, keys, v, foot);
    if buf.None? { return None; }
    return Some([TAG_DICT] + buf.value + [TAG_END]);
  }

  method EncodeSorted(m: map<GoString, Any>, keys: seq<GoString>, ghost v: Value, ghost foot: set<object>)
    returns (r: Option<Bytes>)
    requires v.Dict? && HoldsEntries(m, v, foot) && forall k :: k in keys <==> k in m
    ensures r == if Encodable(v) then Some(EncEntries(v, keys)) else None
    decreases v, 0, 0
  {
    hide Enc, EncStr, EncEntries, Encodable, Holds;
    var buf: Bytes := [];
    for i := 0 to |keys|
      invariant forall j :: 0 <= j < i ==> Encodable(v.m[keys[j]])
      invariant EncEntries(v, keys) == buf + EncEntries(v, keys[i..])
    {
      var b := Encode(m[keys[i]], v.m[keys[i]], foot);
      if b.None? {
        EntriesEncodable(v, keys);
        return None;
      }
      EntriesStep(v, keys, i);
      buf := buf + (EncStr(keys[i]) + b.value);
    }
    EntriesEncodable(v, keys);
    EntriesDone(v, keys);
    assert buf + [] == buf;
    return Some(buf);
  }

  lemma EntriesEncodable(v: Value, ks: seq<GoString>)
    requires v.Dict? && forall k :: k in ks <==> k in v.m
    ensures Encodable(v) <==> forall i :: 0 <= i < |ks| ==> Encodable(v.m[ks[i]])
  {
    if forall i :: 0 <= i < |ks| ==> Encodable(v.m[ks[i]]) {
      forall k | k in v.m ensures Encodable(v.m[k]) { assert k in ks; }
    }
  }

  lemma EntriesDone(v: Value, ks: seq<GoString>)
    requires v.Dict?
    ensures EncEntries(v, ks[|ks|..]) == []
  {
  }

  lemma EntriesStep(v: Value, ks: seq<GoString>, i: nat)
    requires v.Dict? && (forall k :: k in ks ==> k in v.m) && i < |ks|
    ensures EncEntries(v, ks[i..]) == EncStr(ks[i]) + Enc(v.m[ks[i]]) + EncEntries(v, ks[i + 1..])
  {
    assert ks[i..][1..] == ks[i + 1..];
  }

  // -------------------------------------------------------------- copying

  /** A copy that stands for the same value and is made of new objects only. */
  method DeepCopy(a: Any, ghost v: Value, ghost foot: set<object>) returns (r: Any, ghost made: set<object>)
    requires Holds(a, v, foot)
    ensures Holds(r, v, made) && fresh(made)
    decreases v, 1
  {
    match a
    case Scalar(_) =>
      r, made := a, {};
    case Slice(s) =>
      var items: seq<Any> := [];
      made := {};
      ghost var part := List([]);
      for i := 0 to |s.items|
        invariant fresh(made)
        invariant HoldsItems(items, List(v.items[..i]), made)
      {
        var x, sub := DeepCopy(s.items[i], v.items[i], foot - {s});
        HoldsMore(x, v.items[i], sub, made + sub);
        HoldsAllMore(items, v.items[..i], made, made + sub);
        items, made := items + [x], made + sub;
      }
      assert v.items[..|v.items|] == v.items;
      var t := new SliceNode(items);
      assert made + {t} - {t} == made;
      r, made := Slice(t), made + {t};
    case Map(d) =>
      var t, feet := DeepCopyMap(d, v, foot);
      made := {t} + AllFeet(feet);
      r := Map(t);
      ApartHolds(t, v, feet);
  }

  ghost function AllFeet(feet: map<GoString, set<object>>): set<object> {
    set k, o | k in feet && o in feet[k] :: o
  }

  /** The entries `m` stand for those of `vals`, each key with objects of its own. */
  ghost predicate HoldsApart(m: map<GoString, Any>, vals: map<GoString, Value>, feet: map<GoString, set<object>>)
    reads AllFeet(feet)
  {
    && m.Keys == vals.Keys == feet.Keys
    && (forall j, k :: j in feet && k in feet && j != k ==> feet[j] !! feet[k])
    && (forall k :: k in m ==> Holds(m[k], vals[k], feet[k]))
  }

  lemma AllFeetMore(feet: map<GoString, set<object>>, k: GoString, sub: set<object>)
    requires k !in feet
    ensures AllFeet(feet[k := sub]) == AllFeet(feet) + sub
  {
    var next := feet[k := sub];
    forall o | o in AllFeet(feet) + sub ensures o in AllFeet(next) {
      if o in sub {
        assert o in next[k];
      } else {
        var j :| j in feet && o in feet[j];
        assert o in next[j];
      }
    }
  }

  lemma FootOf(feet: map<GoString, set<object>>, j: GoString)
    requires j in feet
    ensures feet[j] <= AllFeet(feet)
  {
  }

  lemma ApartNext(m: map<GoString, Any>, vals: map<GoString, Value>, feet: map<GoString, set<object>>,
                  k: GoString, x: Any, v: Value, sub: set<object>)
    requires HoldsApart(m, vals, feet) && k !in m
    requires Holds(x, v, sub) && sub !! AllFeet(feet)
    ensures HoldsApart(m[k := x], vals[k := v], feet[k := sub])
    ensures AllFeet(feet[k := sub]) == AllFeet(feet) + sub
  {
    hide Holds, AllFeet;
    AllFeetMore(feet, k, sub);
    forall j | j in feet ensures feet[j] !! sub { FootOf(feet, j); }
  }

  lemma ApartHolds(t: MapNode, v: Value, feet: map<GoString, set<object>>)
    requires v.Dict? && HoldsApart(t.m, v.m, feet) && t !in AllFeet(feet)
    ensures Holds(Map(t), v, {t} + AllFeet(feet))
  {
    var foot := {t} + AllFeet(feet);
    forall k | k in t.m ensures Holds(t.m[k], v.m[k], foot - {t}) {
      forall o | o in feet[k] ensures o in foot - {t} { assert o in AllFeet(feet); }
      HoldsMore(t.m[k], v.m[k], feet[k], foot - {t});
    }
  }

  lemma ApartNone()
    ensures HoldsApart(map[], map[], map[]) && AllFeet(map[]) == {}
  {
  }

  method DeepCopyMap(d: MapNode, ghost v: Value, ghost foot: set<object>)
    returns (t: MapNode, ghost feet: map<GoString, set<object>>)
    requires Holds(Map(d), v, foot)
    ensures HoldsApart(t.m, v.m, feet) && t !in AllFeet(feet)
    ensures fresh(t) && fresh(AllFeet(feet))
    decreases v, 0
  {
    hide Holds, HoldsApart, AllFeet;
    assert HoldsEntries(d.m, v, foot - {d}) && d in foot by { MapEntries(d, v, foot); }
    t := new MapNode(map[]);
    feet := map[];
    ApartNone();
    ghost var made: set<object> := {};
    ghost var vals: map<GoString, Value> := map[];
    var left := d.m.Keys;
    while left != {}
      invariant left <= d.m.Keys && fresh(t) && fresh(made) && t !in made && made == AllFeet(feet)
      invariant t.m.Keys !! left && vals == map k | k in v.m && k !in left :: v.m[k]
      invariant HoldsApart(t.m, vals, feet)
    {
      var k :| k in left;
      var x, sub := DeepCopy(d.m[k], v.m[k], foot - {d});
      ApartNext(t.m, vals, feet, k, x, v.m[k], sub);
      t.m := t.m[k := x];
      feet, made, vals, left := feet[k := sub], made + sub, vals[k := v.m[k]], left - {k};
    }
    assert vals == v.m;
  }

  lemma MapEntries(d: MapNode, v: Value, foot: set<object>)
    requires Holds(Map(d), v, foot)
    ensures d in foot && v.Dict? && HoldsEntries(d.m, v, foot - {d})
  {
  }
}
