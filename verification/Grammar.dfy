/** What the decoder accepts, said without it: the texts of a grammar, and what each means.
    Numbers may have signs and leading zeros, and the keys of a dict may come in any order
    and more than once; the last value of a key is the one that stays. */
module Grammar {
  import opened Options
  import opened Octets
  import opened Decimal
  import opened Bencode
  import opened RoundTrip

  datatype Text =
    | IntText(number: Bytes)
    | StrText(length: Bytes, s: GoString)
    | ListText(items: seq<Text>)
    | DictText(pairs: seq<Pair>)

  datatype Pair = Pair(length: Bytes, key: GoString, value: Text)

  function Written(t: Text): Bytes
    decreases t, 1, 0
  {
    match t
    case IntText(number) => [TAG_INT] + number + [TAG_END]
    case StrText(length, s) => length + [COLON] + s
    case ListText(items) => [TAG_LIST] + WrittenItems(t, |items|) + [TAG_END]
    case DictText(pairs) => [TAG_DICT] + WrittenPairs(t, |pairs|) + [TAG_END]
  }

  /** The first `n` items, one after the other. */
  function WrittenItems(t: Text, n: nat): Bytes
    requires t.ListText? && n <= |t.items|
    decreases t, 0, n
  {
    if n == 0 then [] else WrittenItems(t, n - 1) + Written(t.items[n - 1])
  }

  function WrittenPairs(t: Text, n: nat): Bytes
    requires t.DictText? && n <= |t.pairs|
    decreases t, 0, n
  {
    if n == 0 then []
    else
      var p := t.pairs[n - 1];
      WrittenPairs(t, n - 1) + (p.length + [COLON] + p.key + Written(p.value))
  }

  predicate IsLength(length: Bytes, s: GoString) {
    length != [] && AllDigits(length) && Magnitude(length) == |s|
  }

  /** Nested at most `h` deep, with numbers that are int64 numerals and lengths that are right. */
  ghost predicate WellFormed(t: Text, h: int) {
    h >= 0 &&
    match t
    case IntText(number) => exists n: int64 :: Spells(number, n)
    case StrText(length, s) => IsLength(length, s)
    case ListText(items) => forall i :: 0 <= i < |items| ==> WellFormed(items[i], h - 1)
    case DictText(pairs) =>
      forall i :: 0 <= i < |pairs| ==> IsLength(pairs[i].length, pairs[i].key) && WellFormed(pairs[i].value, h - 1)
  }

  /** Of the first `n` pairs number `i` is the last with its key. */
  predicate IsLast(pairs: seq<Pair>, n: nat, i: nat) {
    i < n <= |pairs| && forall j :: i < j < n ==> pairs[j].key != pairs[i].key
  }

  /** The value a text stands for. */
  ghost predicate Means(t: Text, v: Value) {
    match t
    case IntText(number) => v.Int64? && Spells(number, v.n)
    case StrText(_, s) => v == Str(s)
    case ListText(items) =>
      v.List? && |v.items| == |items| && forall i :: 0 <= i < |items| ==> Means(items[i], v.items[i])
    case DictText(pairs) =>
      && v.Dict? && (forall k :: k in v.m <==> exists i :: 0 <= i < |pairs| && pairs[i].key == k)
      && forall i :: 0 <= i < |pairs| && IsLast(pairs, |pairs|, i) ==>
           pairs[i].key in v.m && Means(pairs[i].value, v.m[pairs[i].key])
  }

  // ------------------------------------------------------- the one meaning

  function Meaning(t: Text): Value
    decreases t, 1, 0
  {
    match t
    case IntText(number) => if ParseInt(number).Some? then Int64(ParseInt(number).value) else Int64(0)
    case StrText(_, s) => Str(s)
    case ListText(items) => List(MeaningItems(t, |items|))
    case DictText(pairs) => Dict(MeaningPairs(t, |pairs|))
  }

  function MeaningItems(t: Text, n: nat): (r: seq<Value>)
    requires t.ListText? && n <= |t.items|
    ensures |r| == n && forall i :: 0 <= i < n ==> r[i] == Meaning(t.items[i])
    decreases t, 0, n
  {
    if n == 0 then [] else MeaningItems(t, n - 1) + [Meaning(t.items[n - 1])]
  }

  function MeaningPairs(t: Text, n: nat): map<GoString, Value>
    requires t.DictText? && n <= |t.pairs|
    decreases t, 0, n
  {
    if n == 0 then map[] else MeaningPairs(t, n - 1)[t.pairs[n - 1].key := Meaning(t.pairs[n - 1].value)]
  }

  lemma {:induction false} MeaningKeys(t: Text, n: nat, k: GoString)
    requires t.DictText? && n <= |t.pairs|
    ensures k in MeaningPairs(t, n) <==> exists i :: 0 <= i < n && t.pairs[i].key == k
    decreases n
  {
    hide Meaning;
    if n > 0 {
      MeaningKeys(t, n - 1, k);
      assert t.pairs[n - 1].key == k ==> exists i :: 0 <= i < n && t.pairs[i].key == k;
    }
  }

  lemma {:induction false} MeaningLast(t: Text, n: nat, i: nat)
    requires t.DictText? && IsLast(t.pairs, n, i)
    ensures var k := t.pairs[i].key; k in MeaningPairs(t, n) && MeaningPairs(t, n)[k] == Meaning(t.pairs[i].value)
    decreases n
  {
    hide Meaning;
    if i < n - 1 { MeaningLast(t, n - 1, i); }
  }

  /** The last pair with the key of pair `i`. */
  lemma {:induction false} LastOf(pairs: seq<Pair>, i: nat) returns (j: nat)
    requires i < |pairs|
    ensures IsLast(pairs, |pairs|, j) && pairs[j].key == pairs[i].key
    decreases |pairs| - i
  {
    if k :| i < k < |pairs| && pairs[k].key == pairs[i].key {
      j := LastOf(pairs, k);
    } else {
      j := i;
    }
  }

  /** A well-formed text means its meaning and no other value. */
  lemma {:induction false} MeansIff(t: Text, v: Value, h: int)
    requires WellFormed(t, h)
    ensures Means(t, v) <==> v == Meaning(t)
    decreases t
  {
    match t
    case IntText(number) =>
      var n: int64 :| Spells(number, n);
      ParseIntIff(number, n);
      if v.Int64? { ParseIntIff(number, v.n); }
    case StrText(_, _) =>
    case ListText(items) =>
      if v.List? && |v.items| == |items| {
        forall i | 0 <= i < |items| ensures Means(items[i], v.items[i]) <==> v.items[i] == Meaning(items[i]) {
          MeansIff(items[i], v.items[i], h - 1);
        }
      }
    case DictText(pairs) => DictMeansIff(t, v, h);
  }

  /** Each pair's value means its meaning only. */
  ghost predicate PairsMean(t: Text)
    requires t.DictText?
  {
    forall i, x :: 0 <= i < |t.pairs| ==> (Means(t.pairs[i].value, x) <==> x == Meaning(t.pairs[i].value))
  }

  /** What the entries of a dict text come to. */
  ghost predicate Entered(t: Text, m: map<GoString, Value>)
    requires t.DictText?
  {
    && (forall k :: k in m <==> exists i :: 0 <= i < |t.pairs| && t.pairs[i].key == k)
    && forall i :: 0 <= i < |t.pairs| && IsLast(t.pairs, |t.pairs|, i) ==>
         t.pairs[i].key in m && m[t.pairs[i].key] == Meaning(t.pairs[i].value)
  }

  lemma {:induction false} DictMeansIff(t: Text, v: Value, h: int)
    requires WellFormed(t, h) && t.DictText?
    ensures Means(t, v) <==> v == Meaning(t)
    decreases t, 0
  {
    hide Meaning, WellFormed, IsLast, MeaningPairs, Means, Entered;
    assert PairsMean(t) by {
      forall i, x | 0 <= i < |t.pairs| ensures Means(t.pairs[i].value, x) <==> x == Meaning(t.pairs[i].value) {
        PairFormed(t, h, i);
        MeansIff(t.pairs[i].value, x, h - 1);
      }
    }
    var m := MeaningPairs(t, |t.pairs|);
    AllEntered(t);
    MeaningOfDict(t);
    if v.Dict? { EnteredMeans(t, v.m); }
    if v.Dict? && Entered(t, v.m) { SameDict(t, v.m, m); }
    if Means(t, v) { NotDict(t, v); }
  }

  lemma NotDict(t: Text, v: Value)
    requires t.DictText? && Means(t, v)
    ensures v.Dict?
  {
  }

  lemma PairFormed(t: Text, h: int, i: nat)
    requires WellFormed(t, h) && t.DictText? && i < |t.pairs|
    ensures WellFormed(t.pairs[i].value, h - 1) && IsLength(t.pairs[i].length, t.pairs[i].key)
  {
  }

  lemma EnteredMeans(t: Text, m: map<GoString, Value>)
    requires t.DictText? && PairsMean(t)
    ensures Means(t, Dict(m)) <==> Entered(t, m)
  {
    hide Meaning, IsLast;
  }

  lemma AllEntered(t: Text)
    requires t.DictText?
    ensures Entered(t, MeaningPairs(t, |t.pairs|))
  {
    hide Meaning, IsLast, MeaningPairs;
    var n := |t.pairs|;
    forall k ensures k in MeaningPairs(t, n) <==> exists i :: 0 <= i < n && t.pairs[i].key == k { MeaningKeys(t, n, k); }
    forall i | 0 <= i < n && IsLast(t.pairs, n, i)
      ensures t.pairs[i].key in MeaningPairs(t, n) && MeaningPairs(t, n)[t.pairs[i].key] == Meaning(t.pairs[i].value)
    {
      MeaningLast(t, n, i);
    }
  }

  lemma {:induction false} SameDict(t: Text, a: map<GoString, Value>, b: map<GoString, Value>)
    requires t.DictText? && Entered(t, a) && Entered(t, b)
    ensures a == b
  {
    hide Meaning, IsLast;
    assert a.Keys == b.Keys;
    forall k | k in b ensures a[k] == b[k] {
      var i :| 0 <= i < |t.pairs| && t.pairs[i].key == k;
      var j := LastOf(t.pairs, i);
      Within(t.pairs, j);
    }
  }

  lemma Within(pairs: seq<Pair>, j: nat)
    requires IsLast(pairs, |pairs|, j)
    ensures j < |pairs|
  {
  }

  lemma MeaningOfDict(t: Text)
    requires t.DictText?
    ensures Meaning(t) == Dict(MeaningPairs(t, |t.pairs|))
  {
  }

  // ------------------------------------------------ texts are accepted

  lemma {:induction false} SpelledBytes(number: Bytes, n: int)
    requires Spells(number, n)
    ensures forall i :: 0 <= i < |number| ==> number[i] != TAG_END
  {
    var digits :| digits != [] && AllDigits(digits) && SpelledBy(number, digits, n);
    forall i | 0 <= i < |number| ensures number[i] != TAG_END {
      if number == digits { assert IsDigit(digits[i]); } else if i > 0 { assert IsDigit(digits[i - 1]); }
    }
  }

  lemma {:induction false} ReadNumber(number: Bytes, n: int64, data: Bytes, start: nat)
    requires At(data, start, number + [TAG_END]) && Spells(number, n)
    ensures ReadInt(data, start) == Ok(Int64(n), start + |number| + 1)
  {
    hide At, ParseInt, IndexFrom, Spells;
    var end := start + |number|;
    AtParts(data, start, number, [TAG_END]);
    AtByte(data, end, [TAG_END], 0);
    SpelledBytes(number, n);
    forall i | start <= i < end ensures data[i] != TAG_END { AtByte(data, start, number, i - start); }
    IndexFromIs(data, start, TAG_END, end);
    ParseIntIff(number, n);
    assert data[start..end] == number by { AtIs(data, start, number); }
  }

  lemma AtIs(data: Bytes, idx: nat, e: Bytes)
    requires At(data, idx, e)
    ensures idx + |e| <= |data| && data[idx..idx + |e|] == e
  {
  }

  lemma LengthParses(length: Bytes, s: GoString)
    requires IsLength(length, s)
    ensures ParseInt(length) == Some(|s|) && IsDigit(length[0])
  {
    assert SpelledBy(length, length, |s|);
    ParseIntIff(length, |s|);
  }

  lemma {:induction false} ReadText(length: Bytes, s: GoString, data: Bytes, start: nat)
    requires At(data, start, length + [COLON] + s) && IsLength(length, s)
    ensures start < |data| && IsDigit(data[start])
    ensures ReadStr(data, start) == Ok(Str(s), start + |length| + 1 + |s|)
  {
    hide At, ParseInt, IndexFrom, Magnitude;
    var colon := start + |length|;
    assert length + [COLON] + s == length + ([COLON] + s);
    AtParts(data, start, length, [COLON] + s);
    AtParts(data, colon, [COLON], s);
    AtByte(data, colon, [COLON], 0);
    AtByte(data, start, length, 0);
    forall i | start <= i < colon ensures data[i] != COLON { AtByte(data, start, length, i - start); }
    IndexFromIs(data, start, COLON, colon);
    LengthParses(length, s);
    AtIs(data, start, length);
    AtIs(data, colon + 1, s);
  }

  lemma {:induction false} TextHead(t: Text, h: int)
    requires WellFormed(t, h)
    ensures Written(t) != [] && Written(t)[0] != TAG_END
  {
    if t.StrText? { assert IsDigit(t.length[0]); }
  }

  lemma {:induction false} ParseText(t: Text, data: Bytes, idx: nat, depth: int)
    requires WellFormed(t, MAX_DEPTH - depth) && At(data, idx, Written(t))
    ensures ParseAt(data, idx, depth) == Ok(Meaning(t), idx + |Written(t)|)
    decreases t, 2, 0
  {
    hide At, ReadInt, ReadStr, ParseItems, ParsePairs, WrittenItems, WrittenPairs, MeaningItems, MeaningPairs, ParseInt;
    AtByte(data, idx, Written(t), 0) by { TextHead(t, MAX_DEPTH - depth); }
    match t
    case IntText(number) => ParseNumber(t, data, idx, depth);
    case StrText(length, s) => ReadText(length, s, data, idx);
    case ListText(items) =>
      var body := WrittenItems(t, |items|) + [TAG_END];
      assert Written(t) == [TAG_LIST] + body;
      AtParts(data, idx, [TAG_LIST], body);
      ParseTextItems(t, 0, data, idx + 1, depth);
      NoItems(t);
    case DictText(pairs) =>
      var body := WrittenPairs(t, |pairs|) + [TAG_END];
      assert Written(t) == [TAG_DICT] + body;
      AtParts(data, idx, [TAG_DICT], body);
      ParseTextPairs(t, 0, data, idx + 1, depth);
      NoPairs(t);
  }

  lemma NoItems(t: Text)
    requires t.ListText?
    ensures WrittenItems(t, 0) == [] && MeaningItems(t, 0) == []
  {
  }

  lemma NoPairs(t: Text)
    requires t.DictText?
    ensures WrittenPairs(t, 0) == [] && MeaningPairs(t, 0) == map[]
  {
  }

  lemma ParseNumber(t: Text, data: Bytes, idx: nat, depth: int)
    requires t.IntText? && WellFormed(t, MAX_DEPTH - depth) && At(data, idx, Written(t))
    ensures ParseAt(data, idx, depth) == Ok(Meaning(t), idx + |Written(t)|)
  {
    hide At, ReadInt, ReadStr, ParseItems, ParsePairs, ParseInt, Spells;
    var n: int64 :| Spells(t.number, n);
    AtByte(data, idx, Written(t), 0);
    assert Written(t) == [TAG_INT] + (t.number + [TAG_END]);
    AtParts(data, idx, [TAG_INT], t.number + [TAG_END]);
    ReadNumber(t.number, n, data, idx + 1);
    ParseIntIff(t.number, n);
  }

  lemma {:induction false} ItemsPrefix(t: Text, n: nat, m: nat)
    requires t.ListText? && n <= m <= |t.items|
    ensures WrittenItems(t, n) <= WrittenItems(t, m)
  {
    if n < m { ItemsPrefix(t, n, m - 1); }
  }

  lemma {:induction false} ItemAt(t: Text, n: nat, data: Bytes, start: nat)
    requires t.ListText? && n < |t.items| && At(data, start, WrittenItems(t, |t.items|) + [TAG_END])
    ensures At(data, start + |WrittenItems(t, n)|, Written(t.items[n]))
    ensures |WrittenItems(t, n + 1)| == |WrittenItems(t, n)| + |Written(t.items[n])|
  {
    hide At, Written;
    ItemsPrefix(t, n + 1, |t.items|);
    var all := WrittenItems(t, |t.items|);
    var upTo := |WrittenItems(t, n + 1)|;
    assert all + [TAG_END] == WrittenItems(t, n + 1) + (all[upTo..] + [TAG_END]);
    AtParts(data, start, WrittenItems(t, n + 1), all[upTo..] + [TAG_END]);
    AtParts(data, start, WrittenItems(t, n), Written(t.items[n]));
  }

  lemma {:induction false} ParseTextItems(t: Text, n: nat, data: Bytes, start: nat, depth: int)
    requires t.ListText? && n <= |t.items| && WellFormed(t, MAX_DEPTH - depth)
    requires At(data, start, WrittenItems(t, |t.items|) + [TAG_END])
    ensures start + |WrittenItems(t, n)| <= |data|
    ensures ParseItems(data, start + |WrittenItems(t, n)|, depth, MeaningItems(t, n))
         == Ok(List(MeaningItems(t, |t.items|)), start + |WrittenItems(t, |t.items|)| + 1)
    decreases t, 0, |t.items| - n
  {
    hide At, ParseAt, ParsePairs, Written, Meaning, WellFormed;
    var pos := start + |WrittenItems(t, n)|;
    if n == |t.items| {
      AtParts(data, start, WrittenItems(t, n), [TAG_END]);
      AtByte(data, pos, [TAG_END], 0);
    } else {
      var x := t.items[n];
      ItemAt(t, n, data, start);
      ItemFormed(t, MAX_DEPTH - depth, n);
      TextHead(x, MAX_DEPTH - depth - 1);
      AtByte(data, pos, Written(x), 0);
      ParseText(x, data, pos, depth + 1);
      ParseTextItems(t, n + 1, data, start, depth);
    }
  }

  lemma ItemFormed(t: Text, h: int, i: nat)
    requires WellFormed(t, h) && t.ListText? && i < |t.items|
    ensures WellFormed(t.items[i], h - 1)
  {
  }

  lemma {:induction false} PairsPrefix(t: Text, n: nat, m: nat)
    requires t.DictText? && n <= m <= |t.pairs|
    ensures WrittenPairs(t, n) <= WrittenPairs(t, m)
  {
    hide Written;
    if n < m { PairsPrefix(t, n, m - 1); }
  }

  lemma {:induction false} PairAt(t: Text, n: nat, data: Bytes, start: nat)
    requires t.DictText? && n < |t.pairs| && At(data, start, WrittenPairs(t, |t.pairs|) + [TAG_END])
    ensures var p, pos := t.pairs[n], start + |WrittenPairs(t, n)|;
      var key := p.length + [COLON] + p.key;
      && At(data, pos, key) && At(data, pos + |key|, Written(p.value))
      && |WrittenPairs(t, n + 1)| == |WrittenPairs(t, n)| + |key| + |Written(p.value)|
  {
    hide At, Written;
    PairsPrefix(t, n + 1, |t.pairs|);
    var all, p := WrittenPairs(t, |t.pairs|), t.pairs[n];
    var key := p.length + [COLON] + p.key;
    var upTo := |WrittenPairs(t, n + 1)|;
    assert all + [TAG_END] == WrittenPairs(t, n + 1) + (all[upTo..] + [TAG_END]);
    AtParts(data, start, WrittenPairs(t, n + 1), all[upTo..] + [TAG_END]);
    AtParts(data, start, WrittenPairs(t, n), key + Written(p.value));
    AtParts(data, start + |WrittenPairs(t, n)|, key, Written(p.value));
  }

  lemma {:induction false} KeyParses(p: Pair, data: Bytes, pos: nat, depth: int)
    requires At(data, pos, p.length + [COLON] + p.key) && IsLength(p.length, p.key) && depth <= MAX_DEPTH
    ensures pos < |data| && data[pos] != TAG_END
    ensures ParseAt(data, pos, depth) == Ok(Str(p.key), pos + |p.length + [COLON] + p.key|)
  {
    hide ReadStr, ReadInt, ParseItems, ParsePairs, At, IsLength;
    ReadText(p.length, p.key, data, pos);
  }

  lemma {:induction false} ParseTextPairs(t: Text, n: nat, data: Bytes, start: nat, depth: int)
    requires t.DictText? && n <= |t.pairs| && WellFormed(t, MAX_DEPTH - depth)
    requires At(data, start, WrittenPairs(t, |t.pairs|) + [TAG_END])
    ensures start + |WrittenPairs(t, n)| <= |data|
    ensures ParsePairs(data, start + |WrittenPairs(t, n)|, depth, MeaningPairs(t, n))
         == Ok(Dict(MeaningPairs(t, |t.pairs|)), start + |WrittenPairs(t, |t.pairs|)| + 1)
    decreases t, 0, |t.pairs| - n
  {
    hide At, ParseAt, ParseItems, Written, Meaning, WellFormed, WrittenPairs, IsLength;
    var pos := start + |WrittenPairs(t, n)|;
    if n == |t.pairs| {
      AtParts(data, start, WrittenPairs(t, n), [TAG_END]);
      AtByte(data, pos, [TAG_END], 0);
    } else {
      var p := t.pairs[n];
      PairAt(t, n, data, start);
      PairFormed(t, MAX_DEPTH - depth, n);
      FormedHeight(p.value, MAX_DEPTH - depth - 1);
      KeyParses(p, data, pos, depth + 1);
      ParseText(p.value, data, pos + |p.length + [COLON] + p.key|, depth + 1);
      ParseTextPairs(t, n + 1, data, start, depth);
    }
  }

  lemma FormedHeight(t: Text, h: int)
    requires WellFormed(t, h)
    ensures h >= 0
  {
  }

  // ---------------------------------------- what is accepted is a text

  lemma {:induction false} SamePrefixItems(a: Text, b: Text, n: nat)
    requires a.ListText? && b.ListText? && n <= |a.items| && n <= |b.items| && a.items[..n] == b.items[..n]
    ensures WrittenItems(a, n) == WrittenItems(b, n) && MeaningItems(a, n) == MeaningItems(b, n)
  {
    hide Written, Meaning;
    if n > 0 {
      assert a.items[n - 1] == a.items[..n][n - 1] && b.items[n - 1] == b.items[..n][n - 1];
      assert a.items[..n - 1] == a.items[..n][..n - 1] && b.items[..n - 1] == b.items[..n][..n - 1];
      SamePrefixItems(a, b, n - 1);
    }
  }

  lemma {:induction false} SamePrefixPairs(a: Text, b: Text, n: nat)
    requires a.DictText? && b.DictText? && n <= |a.pairs| && n <= |b.pairs| && a.pairs[..n] == b.pairs[..n]
    ensures WrittenPairs(a, n) == WrittenPairs(b, n) && MeaningPairs(a, n) == MeaningPairs(b, n)
  {
    hide Written, Meaning;
    if n > 0 {
      assert a.pairs[n - 1] == a.pairs[..n][n - 1] && b.pairs[n - 1] == b.pairs[..n][n - 1];
      assert a.pairs[..n - 1] == a.pairs[..n][..n - 1] && b.pairs[..n - 1] == b.pairs[..n][..n - 1];
      SamePrefixPairs(a, b, n - 1);
    }
  }

  /** `e` ends at `next`. */
  ghost predicate Spans(data: Bytes, idx: nat, e: Bytes, next: nat) { At(data, idx, e) && next == idx + |e| }

  lemma Joins(data: Bytes, idx: nat, a: Bytes, mid: nat, b: Bytes, next: nat)
    requires Spans(data, idx, a, mid) && Spans(data, mid, b, next)
    ensures Spans(data, idx, a + b, next)
  {
    assert data[idx..next] == data[idx..mid] + data[mid..next];
  }

  lemma {:induction false} NumberText(data: Bytes, idx: nat, depth: int) returns (t: Text)
    requires idx < |data| && data[idx] == TAG_INT && 0 <= MAX_DEPTH - depth && ReadInt(data, idx + 1).Ok?
    ensures var r := ReadInt(data, idx + 1);
      WellFormed(t, MAX_DEPTH - depth) && Spans(data, idx, Written(t), r.next) && Meaning(t) == r.value
  {
    hide ParseInt, Spells;
    var end := IndexFrom(data, idx + 1, TAG_END);
    var number := data[idx + 1..end];
    t := IntText(number);
    ParseIntIff(number, ParseInt(number).value);
    OneByte(data, idx, TAG_INT);
    OneByte(data, end, TAG_END);
    assert Spans(data, idx + 1, number, end);
    Joins(data, idx, [TAG_INT], idx + 1, number, end);
    Joins(data, idx, [TAG_INT] + number, end, [TAG_END], end + 1);
  }

  lemma DigitsOnly(s: Bytes)
    requires s != [] && IsDigit(s[0]) && ParseInt(s).Some?
    ensures AllDigits(s) && Magnitude(s) == ParseInt(s).value
  {
  }

  lemma {:induction false} StringText(data: Bytes, idx: nat) returns (length: Bytes)
    requires idx < |data| && IsDigit(data[idx]) && ReadStr(data, idx).Ok?
    ensures var r := ReadStr(data, idx);
      r.value.Str? && IsLength(length, r.value.s) && Spans(data, idx, length + [COLON] + r.value.s, r.next)
  {
    hide ParseInt, Magnitude;
    var colon := IndexFrom(data, idx, COLON);
    length := data[idx..colon];
    var r := ReadStr(data, idx);
    assert idx < colon by { assert IsDigit(data[idx]); }
    assert length[0] == data[idx];
    DigitsOnly(length);
    assert data[idx..r.next] == length + [COLON] + r.value.s;
  }

  lemma {:induction false} TextOf(data: Bytes, idx: nat, depth: int) returns (t: Text)
    requires idx <= |data| && ParseAt(data, idx, depth).Ok?
    ensures var r := ParseAt(data, idx, depth);
      WellFormed(t, MAX_DEPTH - depth) && Spans(data, idx, Written(t), r.next) && Meaning(t) == r.value
    decreases |data| - idx, 0
  {
    hide ReadInt, ReadStr, ParseItems, ParsePairs, Spans, WrittenItems, WrittenPairs, MeaningItems, MeaningPairs, IsLength;
    var r := ParseAt(data, idx, depth);
    if data[idx] == TAG_INT {
      t := NumberText(data, idx, depth);
    } else if data[idx] == TAG_LIST {
      var none := ListText([]);
      NoItems(none);
      OneByte(data, idx, TAG_LIST);
      EmptySpan(data, idx + 1);
      t := TextOfItems(data, idx + 1, idx + 1, depth, none);
      Joins(data, idx, [TAG_LIST], idx + 1, WrittenItems(t, |t.items|) + [TAG_END], r.next);
      assert Written(t) == [TAG_LIST] + (WrittenItems(t, |t.items|) + [TAG_END]);
    } else if data[idx] == TAG_DICT {
      var none := DictText([]);
      NoPairs(none);
      OneByte(data, idx, TAG_DICT);
      EmptySpan(data, idx + 1);
      t := TextOfPairs(data, idx + 1, idx + 1, depth, none);
      Joins(data, idx, [TAG_DICT], idx + 1, WrittenPairs(t, |t.pairs|) + [TAG_END], r.next);
      assert Written(t) == [TAG_DICT] + (WrittenPairs(t, |t.pairs|) + [TAG_END]);
    } else {
      var length := StringText(data, idx);
      t := StrText(length, r.value.s);
    }
  }

  lemma OneByte(data: Bytes, idx: nat, b: byte)
    requires idx < |data| && data[idx] == b
    ensures Spans(data, idx, [b], idx + 1)
  {
  }

  lemma EmptySpan(data: Bytes, idx: nat)
    requires idx <= |data|
    ensures Spans(data, idx, [], idx)
  {
  }

  lemma {:induction false} TextOfItems(data: Bytes, start: nat, pos: nat, depth: int, before: Text) returns (t: Text)
    requires start <= pos <= |data| && before.ListText? && WellFormed(before, MAX_DEPTH - depth)
    requires Spans(data, start, WrittenItems(before, |before.items|), pos)
    requires ParseItems(data, pos, depth, MeaningItems(before, |before.items|)).Ok?
    ensures var r := ParseItems(data, pos, depth, MeaningItems(before, |before.items|));
      && t.ListText? && WellFormed(t, MAX_DEPTH - depth)
      && Spans(data, start, WrittenItems(t, |t.items|) + [TAG_END], r.next) && Meaning(t) == r.value
    decreases |data| - pos, 1
  {
    hide ParseAt, ParsePairs, Spans, Written, WrittenItems, MeaningItems, IsLength;
    if data[pos] == TAG_END {
      t := before;
      OneByte(data, pos, TAG_END);
      Joins(data, start, WrittenItems(t, |t.items|), pos, [TAG_END], pos + 1);
    } else {
      var v := ParseAt(data, pos, depth + 1);
      var x := TextOf(data, pos, depth + 1);
      var more := ListText(before.items + [x]);
      MoreItems(before, x);
      Joins(data, start, WrittenItems(before, |before.items|), pos, Written(x), v.next);
      t := TextOfItems(data, start, v.next, depth, more);
    }
  }

  lemma MoreItems(before: Text, x: Text)
    requires before.ListText?
    ensures var more := ListText(before.items + [x]);
      && WrittenItems(more, |more.items|) == WrittenItems(before, |before.items|) + Written(x)
      && MeaningItems(more, |more.items|) == MeaningItems(before, |before.items|) + [Meaning(x)]
  {
    hide Written, Meaning;
    var more, n := ListText(before.items + [x]), |before.items|;
    assert more.items[..n] == before.items[..n];
    SamePrefixItems(before, more, n);
  }

  lemma MorePairs(before: Text, p: Pair)
    requires before.DictText?
    ensures var more := DictText(before.pairs + [p]);
      && WrittenPairs(more, |more.pairs|) == WrittenPairs(before, |before.pairs|) + (p.length + [COLON] + p.key + Written(p.value))
      && MeaningPairs(more, |more.pairs|) == MeaningPairs(before, |before.pairs|)[p.key := Meaning(p.value)]
  {
    hide Written, Meaning;
    var more, n := DictText(before.pairs + [p]), |before.pairs|;
    assert more.pairs[..n] == before.pairs[..n];
    SamePrefixPairs(before, more, n);
  }

  /** A dict key that was read. */
  lemma {:induction false} KeyText(data: Bytes, pos: nat, depth: int) returns (length: Bytes)
    requires pos <= |data| && ParseAt(data, pos, depth).Ok? && ParseAt(data, pos, depth).value.Str?
    ensures var k := ParseAt(data, pos, depth);
      IsLength(length, k.value.s) && Spans(data, pos, length + [COLON] + k.value.s, k.next)
    decreases |data| - pos, 1
  {
    hide Spans, IsLength, Magnitude, AllDigits;
    var t := TextOf(data, pos, depth);
    length := t.length;
  }

  lemma {:induction false} TextOfPairs(data: Bytes, start: nat, pos: nat, depth: int, before: Text) returns (t: Text)
    requires start <= pos <= |data| && before.DictText? && WellFormed(before, MAX_DEPTH - depth)
    requires Spans(data, start, WrittenPairs(before, |before.pairs|), pos)
    requires ParsePairs(data, pos, depth, MeaningPairs(before, |before.pairs|)).Ok?
    ensures var r := ParsePairs(data, pos, depth, MeaningPairs(before, |before.pairs|));
      && t.DictText? && WellFormed(t, MAX_DEPTH - depth)
      && Spans(data, start, WrittenPairs(t, |t.pairs|) + [TAG_END], r.next) && Meaning(t) == r.value
    decreases |data| - pos, 2
  {
    hide ParseAt, ParseItems, Spans, Written, WrittenPairs, MeaningPairs, IsLength;
    if data[pos] == TAG_END {
      t := before;
      OneByte(data, pos, TAG_END);
      Joins(data, start, WrittenPairs(t, |t.pairs|), pos, [TAG_END], pos + 1);
    } else {
      var k := ParseAt(data, pos, depth + 1);
      var v := ParseAt(data, k.next, depth + 1);
      var length := KeyText(data, pos, depth + 1);
      var x := TextOf(data, k.next, depth + 1);
      var p := Pair(length, k.value.s, x);
      MorePairs(before, p);
      Joins(data, pos, length + [COLON] + p.key, k.next, Written(x), v.next);
      Joins(data, start, WrittenPairs(before, |before.pairs|), pos, length + [COLON] + p.key + Written(x), v.next);
      t := TextOfPairs(data, start, v.next, depth, DictText(before.pairs + [p]));
    }
  }

  // ------------------------------------------------------------ main result

  /** `data` is a text of the grammar, at most 256 deep, that means `v`. */
  ghost predicate TextMeaning(data: Bytes, v: Value) {
    exists t :: Written(t) == data && WellFormed(t, MAX_DEPTH) && Means(t, v)
  }

  /** The decoder accepts exactly the texts of the grammar, each for what it means. */
  lemma {:induction false} DecodeIff(data: Bytes, v: Value)
    ensures Decode(data) == Good(v) <==> TextMeaning(data, v)
  {
    hide ParseAt, Written, WellFormed, Means, Meaning;
    if Decode(data) == Good(v) {
      var t := TextOf(data, 0, 0);
      assert data[0..|data|] == data;
      MeansIff(t, v, MAX_DEPTH);
    }
    if TextMeaning(data, v) {
      var t :| Written(t) == data && WellFormed(t, MAX_DEPTH) && Means(t, v);
      assert data[0..0 + |data|] == data;
      ParseText(t, data, 0, 0);
      MeansIff(t, v, MAX_DEPTH);
    }
  }

  // ------------------------------------------------- entries in any order

  datatype Entry = Entry(key: GoString, value: Value)

  /** The entries one after the other, as they come. */
  ghost function WrittenEntries(es: seq<Entry>): Bytes {
    if es == [] then []
    else
      var e := es[|es| - 1];
      WrittenEntries(es[..|es| - 1]) + (EncStr(e.key) + Enc(e.value))
  }

  ghost predicate Fitting(es: seq<Entry>) {
    forall i :: 0 <= i < |es| ==> Encodable(es[i].value) && NestsWithin(es[i].value, MAX_DEPTH - 1)
  }

  /** `t` has the keys of `es`, with values that mean theirs. */
  ghost predicate Mirrors(t: Text, es: seq<Entry>) {
    && t.DictText? && |t.pairs| == |es| && WellFormed(t, MAX_DEPTH)
    && forall i :: 0 <= i < |es| ==> t.pairs[i].key == es[i].key && Meaning(t.pairs[i].value) == Normal(es[i].value)
  }

  lemma LengthOf(s: GoString)
    ensures IsLength(Digits(|s|), s)
  {
    MagnitudeOfDigits(|s|);
  }

  lemma {:induction false} ValueText(v: Value) returns (t: Text)
    requires Encodable(v) && NestsWithin(v, MAX_DEPTH - 1)
    ensures WellFormed(t, MAX_DEPTH - 1) && Written(t) == Enc(v) && Meaning(t) == Normal(v)
  {
    hide ParseAt, Enc, Written, Meaning, WellFormed;
    SelfDelimiting(v, [], [], 1);
    assert [] + Enc(v) + [] == Enc(v);
    t := TextOf(Enc(v), 0, 1);
    assert Enc(v)[0..|Enc(v)|] == Enc(v);
  }

  lemma {:induction false} EntriesText(es: seq<Entry>) returns (t: Text)
    requires Fitting(es)
    ensures Mirrors(t, es) && WrittenPairs(t, |es|) == WrittenEntries(es)
  {
    hide Enc, Written, Meaning, Encodable, NestsWithin, IsLength, WrittenPairs;
    if es == [] {
      t := DictText([]);
      NoPairs(t);
    } else {
      var init, e := es[..|es| - 1], es[|es| - 1];
      var before := EntriesText(init);
      var x := ValueText(e.value);
      LengthOf(e.key);
      MorePairs(before, Pair(Digits(|e.key|), e.key, x));
      t := DictText(before.pairs + [Pair(Digits(|e.key|), e.key, x)]);
    }
  }

  /** Entries with any keys in any order decode to the dict of those keys, each with the value
      of the last entry that has it. */
  lemma {:induction false} LastValueStays(es: seq<Entry>) returns (m: map<GoString, Value>)
    requires Fitting(es)
    ensures Decode([TAG_DICT] + WrittenEntries(es) + [TAG_END]) == Good(Dict(m))
    ensures forall k :: k in m <==> exists i :: 0 <= i < |es| && es[i].key == k
    ensures forall i :: 0 <= i < |es| && (forall j :: i < j < |es| ==> es[j].key != es[i].key) ==>
      es[i].key in m && m[es[i].key] == Normal(es[i].value)
  {
    hide Enc, Meaning, Encodable, NestsWithin, IsLength, MeaningPairs, WrittenEntries, Decode, WellFormed;
    var t := EntriesText(es);
    var data := [TAG_DICT] + WrittenEntries(es) + [TAG_END];
    assert Written(t) == data;
    m := MeaningPairs(t, |t.pairs|);
    AllEntered(t);
    MeaningOfDict(t);
    MeansIff(t, Dict(m), MAX_DEPTH);
    DecodeIff(data, Dict(m));
    forall i | 0 <= i < |es| && (forall j :: i < j < |es| ==> es[j].key != es[i].key)
      ensures es[i].key in m && m[es[i].key] == Normal(es[i].value)
    {
      assert IsLast(t.pairs, |t.pairs|, i);
    }
    forall k ensures k in m <==> exists i :: 0 <= i < |es| && es[i].key == k {
      if i :| 0 <= i < |t.pairs| && t.pairs[i].key == k { assert es[i].key == k; }
      if i :| 0 <= i < |es| && es[i].key == k { assert t.pairs[i].key == k; }
    }
  }
}
