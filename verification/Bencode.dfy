/** The bencode decoder and encoder: `ParseAt` says what the recursive descent computes
    and `Enc` what the printer writes. The loops of the program, over mutable maps and
    slices, are in the module GoValues and are proved to compute just that. */
module Bencode {
  import opened Options
  import opened Octets
  import opened Decimal

  const TAG_INT: byte := 105 // 'i'
  const TAG_LIST: byte := 108 // 'l'
  const TAG_DICT: byte := 100 // 'd'
  const TAG_END: byte := 101 // 'e'
  const COLON: byte := 58

  const MAX_DEPTH: int := 256

  /** A Go value handed to the encoder. Decoding yields only Int64, Str, List and Dict;
      the other integer widths and byte slices come from callers, and Unsupported
      stands for every type the encoder rejects. */
  datatype Value =
    | Int64(n: int64)
    | GoInt(n: int64)
    | Int32(n: int64)
    | Str(s: GoString)
    | ByteSlice(s: GoString)
    | List(items: seq<Value>)
    | Dict(m: map<GoString, Value>)
    | Unsupported

  datatype Error =
    | TooDeep | UnexpectedEnd | UnterminatedInt | BadInt | UnterminatedList
    | UnterminatedDict | KeyNotBytes | MissingColon | BadLength | Overrun
    | UnknownMarker | TrailingData

  datatype Parsed = Ok(value: Value, next: nat) | Err(error: Error)

  datatype Decoded = Good(value: Value) | Bad(error: Error)

  // ------------------------------------------------------------- decoding

  function ParseAt(data: Bytes, idx: nat, depth: int): (r: Parsed)
    requires idx <= |data|
    ensures r.Ok? ==> idx < r.next <= |data|
    decreases |data| - idx, 0
  {
    if depth > MAX_DEPTH then Err(TooDeep)
    else if idx == |data| then Err(UnexpectedEnd)
    else if data[idx] == TAG_INT then ReadInt(data, idx + 1)
    else if data[idx] == TAG_LIST then ParseItems(data, idx + 1, depth, [])
    else if data[idx] == TAG_DICT then ParsePairs(data, idx + 1, depth, map[])
    else if IsDigit(data[idx]) then ReadStr(data, idx)
    else Err(UnknownMarker)
  }

  /** An integer whose text starts at `start`. */
  function ReadInt(data: Bytes, start: nat): (r: Parsed)
    requires start <= |data|
    ensures r.Ok? ==> start < r.next <= |data|
  {
    var end := IndexFrom(data, start, TAG_END);
    if end == |data| then Err(UnterminatedInt)
    else
      var n := ParseInt(data[start..end]);
      if n.None? then Err(BadInt) else Ok(Int64(n.value), end + 1)
  }

  /** A byte string whose length prefix starts at `start`. */
  function ReadStr(data: Bytes, start: nat): (r: Parsed)
    requires start <= |data|
    ensures r.Ok? ==> start < r.next <= |data| && r.value.Str?
  {
    var colon := IndexFrom(data, start, COLON);
    if colon == |data| then Err(MissingColon)
    else
      var n := ParseInt(data[start..colon]);
      if n.None? || n.value < 0 then Err(BadLength)
      else if n.value > |data| - (colon + 1) then Err(Overrun)
      else Ok(Str(data[colon + 1..colon + 1 + n.value]), colon + 1 + n.value)
  }

  /** The rest of a list whose items so far are `items`. */
  function ParseItems(data: Bytes, pos: nat, depth: int, items: seq<Value>): (r: Parsed)
    requires pos <= |data|
    ensures r.Ok? ==> pos < r.next <= |data|
    decreases |data| - pos, 1
  {
    if pos == |data| then Err(UnterminatedList)
    else if data[pos] == TAG_END then Ok(List(items), pos + 1)
    else
      var v := ParseAt(data, pos, depth + 1);
      if v.Err? then v else ParseItems(data, v.next, depth, items + [v.value])
  }

  /** The rest of a dict whose entries so far are `d`; a repeated key replaces. */
  function ParsePairs(data: Bytes, pos: nat, depth: int, d: map<GoString, Value>): (r: Parsed)
    requires pos <= |data|
    ensures r.Ok? ==> pos < r.next <= |data|
    decreases |data| - pos, 1
  {
    if pos == |data| then Err(UnterminatedDict)
    else if data[pos] == TAG_END then Ok(Dict(d), pos + 1)
    else
      var k := ParseAt(data, pos, depth + 1);
      if k.Err? then k
      else if !k.value.Str? then Err(KeyNotBytes)
      else
        var v := ParseAt(data, k.next, depth + 1);
        if v.Err? then v else ParsePairs(data, v.next, depth, d[k.value.s := v.value])
  }

  function Decode(data: Bytes): Decoded {
    var r := ParseAt(data, 0, 0);
    if r.Err? then Bad(r.error)
    else if r.next != |data| then Bad(TrailingData)
    else Good(r.value)
  }

  // ------------------------------------------------------------- encoding

  ghost predicate Encodable(v: Value) {
    match v
    case List(items) => forall i :: 0 <= i < |items| ==> Encodable(items[i])
    case Dict(m) => forall k :: k in m ==> Encodable(m[k])
    case Unsupported => false
    case _ => true
  }

  function EncStr(s: Bytes): Bytes { Digits(|s|) + [COLON] + s }

  function EncInt(n: int): Bytes { [TAG_INT] + FormatInt(n) + [TAG_END] }

  /** The bytes of an encodable value. */
  ghost function Enc(v: Value): (r: Bytes)
    decreases v, 1, 0
  {
    match v
    case Int64(n) => EncInt(n)
    case GoInt(n) => EncInt(n)
    case Int32(n) => EncInt(n)
    case Str(s) => EncStr(s)
    case ByteSlice(s) => EncStr(s)
    case List(items) => [TAG_LIST] + EncItems(v, 0) + [TAG_END]
    case Dict(m) => [TAG_DICT] + EncEntries(v, SortedKeys(m.Keys)) + [TAG_END]
    case Unsupported => []
  }

  /** The items of list `v` from index `from` on, one after the other. */
  ghost function EncItems(v: Value, from: nat): Bytes
    requires v.List? && from <= |v.items|
    decreases v, 0, |v.items| - from
  {
    if from == |v.items| then [] else Enc(v.items[from]) + EncItems(v, from + 1)
  }

  /** The entries of dict `v` at the keys `ks`, in that order. */
  ghost function EncEntries(v: Value, ks: seq<GoString>): Bytes
    requires v.Dict? && forall k :: k in ks ==> k in v.m
    decreases v, 0, |ks|
  {
    if ks == [] then []
    else EncStr(ks[0]) + Enc(v.m[ks[0]]) + EncEntries(v, ks[1..])
  }

  ghost function EncodeResult(v: Value): Option<Bytes> {
    if Encodable(v) then Some(Enc(v)) else None
  }
}
