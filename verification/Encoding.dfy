/**
 Nested values as bytes: lists, sets, maps and tuples inside each other, written with a length in
 front of every part and read back by iterators that know only the type (sections 6.11, 6.12, 6.13
 and 6.20 of the CQL binary protocol v4).
 */
module Encoding {
  import opened Wire

  datatype Kind = List | Set | Map | Tuple

  /** A custom type is known by the name of its class, which may not be given. */
  datatype Basic = Native(number: nat) | Custom(className: string)

  const TEXT: nat := 0x0A
  const VARCHAR: nat := 0x0D

  datatype Type = Simple(id: Basic) | Composite(kind: Kind, types: seq<Type>)

  /** A map's items are its keys and values in turn. `Unset` is a tuple field nobody set. */
  datatype Value =
    | Null
    | Unset
    | Scalar(id: Basic, bytes: Bytes)
    | Node(kind: Kind, types: seq<Type>, items: seq<Value>)

  predicate Missing(v: Value) { v.Null? || v.Unset? }

  predicate IsCollection(t: Type) { t.Composite? && t.kind != Tuple }

  // ---------------------------------------------------------------- writing

  /** The count in front of a collection: a map counts pairs. */
  function Count(kind: Kind, items: nat): nat { if kind == Map then items / 2 else items }

  function Body(v: Value): Bytes
    decreases v, 1
  {
    match v
    case Null => []
    case Unset => []
    case Scalar(_, bytes) => bytes
    case Node(kind, _, items) =>
      if kind == Tuple then Fields(items) else Int32(Count(kind, |items|)) + Items(items)
  }

  /** A tuple field knows null; it is written as the length -1. */
  function Field(v: Value): Bytes
    decreases v, 2
  {
    if Missing(v) then Int32(-1) else WithLength(Body(v))
  }

  function Items(items: seq<Value>): Bytes
    decreases items, 0
  {
    if items == [] then [] else WithLength(Body(items[0])) + Items(items[1..])
  }

  function Fields(items: seq<Value>): Bytes
    decreases items, 0
  {
    if items == [] then [] else Field(items[0]) + Fields(items[1..])
  }

  // ---------------------------------------------------------------- reading

  /** A value as the decoder hands it out: its bytes are not looked at yet. */
  datatype Cell = Nothing | Collected(count: int, bytes: Bytes) | Plain(bytes: Bytes)

  /** `Overrun`: a length beyond the end of the input was believed, and what is read from there on is
      not part of it. */
  datatype Next = Fail(rest: Bytes) | Overrun | Found(cell: Cell, rest: Bytes)

  /** Only collections are handed out with a count. */
  predicate CellOf(t: Type, c: Cell) { (c.Collected? ==> IsCollection(t)) && (c.Plain? ==> !IsCollection(t)) }

  /** The length is not compared with what is left of the input. */
  function DecodeValue(t: Type, input: Bytes): (r: Next)
    ensures r.Fail? ==> |r.rest| <= |input|
    ensures r.Found? ==> |r.rest| < |input| && CellOf(t, r.cell) && (!r.cell.Nothing? ==> |r.cell.bytes| < |input|)
  {
    if |input| < 4 then Fail(input)
    else
      var size := ToInt32(input[..4]);
      if size < 0 then Found(Nothing, input[4..])
      else if 4 + size > |input| then Overrun
      else
        var b, rest := input[4..4 + size], input[4 + size..];
        if !IsCollection(t) then Found(Plain(b), rest)
        else if |b| < 4 then Fail(rest)
        else Found(Collected(ToInt32(b[..4]), b[4..]), rest)
  }

  /** The type the encoder checks item `i` against is the type the iterator reads it with. */
  function ItemType(kind: Kind, types: seq<Type>, i: nat): Type
    requires Shaped(kind, types) && (kind == Tuple ==> i < |types|)
  {
    match kind
    case Map => types[i % 2]
    case Tuple => types[i]
    case _ => types[0]
  }

  predicate Shaped(kind: Kind, types: seq<Type>)
  {
    match kind
    case Map => |types| == 2
    case Tuple => true
    case _ => |types| == 1
  }

  predicate WellFormed(t: Type)
  {
    t.Composite? ==> Shaped(t.kind, t.types) && forall i :: 0 <= i < |t.types| ==> WellFormed(t.types[i])
  }

  /** How many items an iterator asks for: a 32-bit number, also where doubling does not fit. */
  function Asked(kind: Kind, count: int): int
  {
    if kind == Map then Signed((2 * count) % (2 * LIMIT)) else count
  }

  /** Everything in a cell, with an iterator at every level. */
  function Read(t: Type, c: Cell): Value
    requires WellFormed(t) && CellOf(t, c)
    decreases if c.Nothing? then 0 else |c.bytes|, 1
  {
    match c
    case Nothing => Null
    case Collected(count, bytes) => Node(t.kind, t.types, ReadItems(t.kind, t.types, 0, Asked(t.kind, count), bytes))
    case Plain(bytes) =>
      if t.Simple? then Scalar(t.id, bytes) else Node(Tuple, t.types, ReadFields(t.types, 0, bytes))
  }

  function ReadItems(kind: Kind, types: seq<Type>, i: nat, n: int, input: Bytes): seq<Value>
    requires WellFormed(Composite(kind, types)) && kind != Tuple
    decreases |input|, 0
  {
    if i >= n then []
    else
      match DecodeValue(ItemType(kind, types, i), input)
      case Found(cell, rest) => [Read(ItemType(kind, types, i), cell)] + ReadItems(kind, types, i + 1, n, rest)
      case _ => []
  }

  function ReadFields(types: seq<Type>, i: nat, input: Bytes): seq<Value>
    requires WellFormed(Composite(Tuple, types))
    decreases |input|, 0
  {
    if i >= |types| then []
    else
      match DecodeValue(types[i], input)
      case Found(cell, rest) => [Read(types[i], cell)] + ReadFields(types, i + 1, rest)
      case _ => []
  }

  /** Iterating the cell runs beyond the end of its bytes, at some level. */
  predicate Overruns(t: Type, c: Cell)
    requires WellFormed(t) && CellOf(t, c)
    decreases if c.Nothing? then 0 else |c.bytes|, 1
  {
    match c
    case Nothing => false
    case Collected(count, bytes) => ItemsOverrun(t.kind, t.types, 0, Asked(t.kind, count), bytes)
    case Plain(bytes) => t.Composite? && FieldsOverrun(t.types, 0, bytes)
  }

  predicate ItemsOverrun(kind: Kind, types: seq<Type>, i: nat, n: int, input: Bytes)
    requires WellFormed(Composite(kind, types)) && kind != Tuple
    decreases |input|, 0
  {
    i < n &&
    match DecodeValue(ItemType(kind, types, i), input)
    case Found(cell, rest) => Overruns(ItemType(kind, types, i), cell) || ItemsOverrun(kind, types, i + 1, n, rest)
    case Fail(_) => false
    case Overrun => true
  }

  predicate FieldsOverrun(types: seq<Type>, i: nat, input: Bytes)
    requires WellFormed(Composite(Tuple, types))
    decreases |input|, 0
  {
    i < |types| &&
    match DecodeValue(types[i], input)
    case Found(cell, rest) => Overruns(types[i], cell) || FieldsOverrun(types, i + 1, rest)
    case Fail(_) => false
    case Overrun => true
  }

  // ---------------------------------------------------------------- what comes back

  predicate Conforms(v: Value, t: Type)
    requires WellFormed(t)
    decreases v, 1
  {
    match v
    case Null => true
    case Unset => true
    case Scalar(id, _) => t == Simple(id)
    case Node(kind, types, items) =>
      && t == Composite(kind, types)
      && (kind == Tuple ==> |items| == |types|)
      && AllConform(kind, types, 0, items)
  }

  predicate AllConform(kind: Kind, types: seq<Type>, i: nat, items: seq<Value>)
    requires WellFormed(Composite(kind, types)) && (kind == Tuple ==> i + |items| <= |types|)
    decreases items, 0
  {
    items != [] ==> Conforms(items[0], ItemType(kind, types, i)) && AllConform(kind, types, i + 1, items[1..])
  }

  /** What is read back for any value. A missing item of a collection was written as an empty
      buffer: it comes back as an empty scalar or tuple, and as a collection it ends the iteration
      because it lacks a count. A map loses an odd last item. An unset field comes back null. */
  function Canon(v: Value, t: Type): Value
    requires WellFormed(t) && Conforms(v, t)
    decreases v, 1
  {
    match v
    case Null => Null
    case Unset => Null
    case Scalar(_, _) => v
    case Node(kind, types, items) =>
      Node(kind, types,
           if kind == Tuple then CanonFields(types, 0, items)
           else CanonItems(kind, types, 0, Whole(kind, |items|), items))
  }

  /** The items that are counted: a map's last key without a value is not. */
  function Whole(kind: Kind, items: nat): nat { if kind == Map then items / 2 * 2 else items }

  function Blank(t: Type): Value
  {
    if t.Simple? then Scalar(t.id, []) else Node(t.kind, t.types, [])
  }

  function CanonItems(kind: Kind, types: seq<Type>, i: nat, n: int, items: seq<Value>): seq<Value>
    requires WellFormed(Composite(kind, types)) && kind != Tuple && AllConform(kind, types, i, items)
    decreases items, 0
  {
    if i >= n || items == [] then []
    else
      var t := ItemType(kind, types, i);
      if !Missing(items[0]) then [Canon(items[0], t)] + CanonItems(kind, types, i + 1, n, items[1..])
      else if IsCollection(t) then []
      else [Blank(t)] + CanonItems(kind, types, i + 1, n, items[1..])
  }

  function CanonFields(types: seq<Type>, i: nat, items: seq<Value>): seq<Value>
    requires WellFormed(Composite(Tuple, types)) && i + |items| <= |types| && AllConform(Tuple, types, i, items)
    decreases items, 0
  {
    if items == [] then [] else [Canon(items[0], types[i])] + CanonFields(types, i + 1, items[1..])
  }

  // ---------------------------------------------------------------- decoding one part

  lemma LengthRead(b: Bytes, rest: Bytes)
    requires |b| < LIMIT
    ensures var input := WithLength(b) + rest;
      && |input| >= 4 && ToInt32(input[..4]) == |b|
      && input[4..4 + |b|] == b && input[4 + |b|..] == rest
  {
    var input := WithLength(b) + rest;
    Int32RoundTrip(|b|);
    assert input[..4] == Int32(|b|);
  }

  lemma DecodePlain(t: Type, b: Bytes, rest: Bytes)
    requires |b| < LIMIT && !IsCollection(t)
    ensures DecodeValue(t, WithLength(b) + rest) == Found(Plain(b), rest)
  {
    LengthRead(b, rest);
  }

  lemma DecodeCollected(t: Type, n: int, b: Bytes, rest: Bytes)
    requires |b| + 4 < LIMIT && IsCollection(t) && 0 <= n < LIMIT
    ensures DecodeValue(t, WithLength(Int32(n) + b) + rest) == Found(Collected(n, b), rest)
  {
    LengthRead(Int32(n) + b, rest);
    Int32RoundTrip(n);
    assert (Int32(n) + b)[..4] == Int32(n) && (Int32(n) + b)[4..] == b;
  }

  lemma DecodeBlank(t: Type, rest: Bytes)
    requires IsCollection(t)
    ensures DecodeValue(t, WithLength([]) + rest) == Fail(rest)
  {
    LengthRead([], rest);
  }

  // ---------------------------------------------------------------- sizes

  lemma {:induction false} CountFits(items: seq<Value>)
    ensures 4 * |items| <= |Items(items)|
  {
    if items != [] { CountFits(items[1..]); }
  }

  /** What was written is small enough for its count to be doubled. */
  lemma AskedIsWhole(kind: Kind, items: seq<Value>)
    requires |Items(items)| < LIMIT
    ensures Asked(kind, Count(kind, |items|)) == Whole(kind, |items|)
  {
    CountFits(items);
    AskedFits(kind, Count(kind, |items|));
  }

  lemma AskedFits(kind: Kind, count: nat)
    requires 2 * count < LIMIT
    ensures Asked(kind, count) == if kind == Map then 2 * count else count
  {
  }

  // ---------------------------------------------------------------- the bytes themselves

  /** What is on the wire: a null field is the length -1, anything else its length in bytes and then
      the bytes; a collection begins with the number of its items, a map with that of its pairs. */
  lemma WireFormat(v: Value)
    ensures Missing(v) ==> Field(v) == [255, 255, 255, 255]
    ensures !Missing(v) ==>
      |Field(v)| == 4 + |Body(v)| && BigEndian(Field(v)[..4]) == |Body(v)| % (2 * LIMIT) && Field(v)[4..] == Body(v)
    ensures v.Node? && v.kind != Tuple ==>
      && |Body(v)| == 4 + |Items(v.items)| && Body(v)[4..] == Items(v.items)
      && BigEndian(Body(v)[..4]) == (if v.kind == Map then |v.items| / 2 else |v.items|) % (2 * LIMIT)
    ensures v.Node? && v.kind == Tuple ==> Body(v) == Fields(v.items)
    ensures v.Scalar? ==> Body(v) == v.bytes
  {
    var b := Body(v);
    BytesAreBigEndian(|b|, [0, 0, 0, 0]);
    assert WithLength(b)[..4] == Int32(|b|);
    if v.Node? && v.kind != Tuple {
      var n := if v.kind == Map then |v.items| / 2 else |v.items|;
      BytesAreBigEndian(n, [0, 0, 0, 0]);
      assert b[..4] == Int32(n);
    }
  }

  /** Item `i` of a map is a key if `i` is even and a value if it is odd; pair `j` is items 2j and 2j + 1. */
  lemma PairsAreKeyAndValue(key: Type, value: Type, j: nat)
    ensures ItemType(Map, [key, value], 2 * j) == key && ItemType(Map, [key, value], 2 * j + 1) == value
    ensures ItemType(List, [value], j) == value && ItemType(Set, [value], j) == value
  {
  }

  /** Items and fields follow each other without gaps, a missing item as an empty one. */
  lemma ItemsOnTheWire(items: seq<Value>)
    requires items != []
    ensures var b := Body(items[0]);
      && |Items(items)| == 4 + |b| + |Items(items[1..])|
      && BigEndian(Items(items)[..4]) == |b| % (2 * LIMIT)
      && Items(items)[4..4 + |b|] == b && Items(items)[4 + |b|..] == Items(items[1..])
    ensures Fields(items) == Field(items[0]) + Fields(items[1..])
  {
    var b := Body(items[0]);
    BytesAreBigEndian(|b|, [0, 0, 0, 0]);
    assert Items(items)[..4] == Int32(|b|);
  }

  // ---------------------------------------------------------------- the round trip

  /** The cell of a value that is there. */
  function Written(v: Value): Cell
    requires !Missing(v)
  {
    if v.Node? && v.kind != Tuple then Collected(Count(v.kind, |v.items|), Items(v.items)) else Plain(Body(v))
  }

  lemma CellFound(v: Value, t: Type, rest: Bytes)
    requires WellFormed(t) && Conforms(v, t) && !Missing(v) && |Body(v)| < LIMIT
    ensures DecodeValue(t, WithLength(Body(v)) + rest) == Found(Written(v), rest)
  {
    if v.Node? && v.kind != Tuple {
      CountFits(v.items);
      DecodeCollected(t, Count(v.kind, |v.items|), Items(v.items), rest);
    } else {
      DecodePlain(t, Body(v), rest);
    }
  }

  lemma {:induction false} ReadCanon(v: Value, t: Type)
    requires WellFormed(t) && Conforms(v, t) && !Missing(v) && |Body(v)| < LIMIT
    ensures Read(t, Written(v)) == Canon(v, t)
    decreases v, 1
  {
    if v.Node? {
      if v.kind == Tuple {
        ReadFieldsCanon(v.types, 0, v.items);
      } else {
        AskedIsWhole(v.kind, v.items);
        ReadItemsCanon(v.kind, v.types, 0, Whole(v.kind, |v.items|), v.items);
      }
    }
  }

  lemma {:induction false} ReadItemsCanon(kind: Kind, types: seq<Type>, i: nat, n: int, items: seq<Value>)
    requires WellFormed(Composite(kind, types)) && kind != Tuple && AllConform(kind, types, i, items)
    requires n <= i + |items| && |Items(items)| < LIMIT
    ensures ReadItems(kind, types, i, n, Items(items)) == CanonItems(kind, types, i, n, items)
    decreases items, 0
  {
    if i < n {
      var t, v, rest := ItemType(kind, types, i), items[0], Items(items[1..]);
      if !Missing(v) {
        CellFound(v, t, rest);
        ReadCanon(v, t);
        ReadItemsCanon(kind, types, i + 1, n, items[1..]);
      } else if IsCollection(t) {
        DecodeBlank(t, rest);
      } else {
        DecodePlain(t, [], rest);
        ReadItemsCanon(kind, types, i + 1, n, items[1..]);
      }
    }
  }

  lemma {:induction false} ReadFieldsCanon(types: seq<Type>, i: nat, items: seq<Value>)
    requires WellFormed(Composite(Tuple, types)) && i + |items| == |types| && AllConform(Tuple, types, i, items)
    requires |Fields(items)| < LIMIT
    ensures ReadFields(types, i, Fields(items)) == CanonFields(types, i, items)
    decreases items, 0
  {
    if items != [] {
      var v, rest := items[0], Fields(items[1..]);
      if !Missing(v) {
        CellFound(v, types[i], rest);
        ReadCanon(v, types[i]);
      }
      ReadFieldsCanon(types, i + 1, items[1..]);
    }
  }

  lemma {:induction false} ReadInside(v: Value, t: Type)
    requires WellFormed(t) && Conforms(v, t) && !Missing(v) && |Body(v)| < LIMIT
    ensures !Overruns(t, Written(v))
    decreases v, 1
  {
    if v.Node? {
      if v.kind == Tuple {
        ReadFieldsInside(v.types, 0, v.items);
      } else {
        AskedIsWhole(v.kind, v.items);
        ReadItemsInside(v.kind, v.types, 0, Whole(v.kind, |v.items|), v.items);
      }
    }
  }

  lemma {:induction false} ReadItemsInside(kind: Kind, types: seq<Type>, i: nat, n: int, items: seq<Value>)
    requires WellFormed(Composite(kind, types)) && kind != Tuple && AllConform(kind, types, i, items)
    requires n <= i + |items| && |Items(items)| < LIMIT
    ensures !ItemsOverrun(kind, types, i, n, Items(items))
    decreases items, 0
  {
    if i < n {
      hide Read, ReadItems;
      var t, v, rest := ItemType(kind, types, i), items[0], Items(items[1..]);
      if !Missing(v) {
        CellFound(v, t, rest);
        ReadInside(v, t);
        ReadItemsInside(kind, types, i + 1, n, items[1..]);
      } else if IsCollection(t) {
        DecodeBlank(t, rest);
      } else {
        DecodePlain(t, [], rest);
        BlankInside(t);
        ReadItemsInside(kind, types, i + 1, n, items[1..]);
      }
    }
  }

  lemma BlankInside(t: Type)
    requires WellFormed(t) && !IsCollection(t)
    ensures !Overruns(t, Plain([]))
  {
  }

  lemma {:induction false} ReadFieldsInside(types: seq<Type>, i: nat, items: seq<Value>)
    requires WellFormed(Composite(Tuple, types)) && i + |items| == |types| && AllConform(Tuple, types, i, items)
    requires |Fields(items)| < LIMIT
    ensures !FieldsOverrun(types, i, Fields(items))
    decreases items, 0
  {
    if items != [] {
      hide Read, ReadFields;
      var v, rest := items[0], Fields(items[1..]);
      if !Missing(v) {
        CellFound(v, types[i], rest);
        ReadInside(v, types[i]);
      }
      ReadFieldsInside(types, i + 1, items[1..]);
    }
  }

  /** For every value of every type: writing it, then reading it back level by level, consumes
      exactly what was written, never runs beyond it, and yields its canonical form. */
  lemma EncodeThenRead(v: Value, t: Type, rest: Bytes)
    requires WellFormed(t) && Conforms(v, t) && |Body(v)| < LIMIT
    ensures var r := DecodeValue(t, Field(v) + rest);
      r.Found? && r.rest == rest && Read(t, r.cell) == Canon(v, t) && !Overruns(t, r.cell)
  {
    if !Missing(v) {
      CellFound(v, t, rest);
      ReadCanon(v, t);
      ReadInside(v, t);
    }
  }

  /** Bytes that no value is written as can be run beyond: a list that announces five bytes for its
      only item and has one. */
  lemma OverrunHappens()
    ensures var t := Composite(List, [Simple(Native(9))]);
      var cell := Collected(1, Int32(5) + [1]);
      WellFormed(t) && CellOf(t, cell) && Overruns(t, cell)
  {
    Int32RoundTrip(5);
    assert (Int32(5) + [1])[..4] == Int32(5);
  }

  /** One value is read beyond the end exactly if its length says more than is left. */
  lemma OverrunsExactlyWhen(t: Type, input: Bytes)
    ensures DecodeValue(t, input).Overrun? <==> |input| >= 4 && ToInt32(input[..4]) > |input| - 4
  {
  }

  /** Doubling the count of a map that was received changes what is read exactly if the double does
      not fit in 32 bits, there is a first key, and the lowest count, which doubles to nothing, is not
      the one: a count too high then reads as none, and one too low as some. */
  lemma DoublingShowsExactlyWhen(types: seq<Type>, count: int, bytes: Bytes)
    requires WellFormed(Composite(Map, types)) && -LIMIT <= count < LIMIT
    ensures Read(Composite(Map, types), Collected(count, bytes)).items != ReadItems(Map, types, 0, 2 * count, bytes)
      <==> !(-LIMIT <= 2 * count < LIMIT) && count != -LIMIT && DecodeValue(types[0], bytes).Found?
  {
  }

  // ---------------------------------------------------------------- when it is the identity

  /** No null directly inside a collection, no odd map, no unset field, at any depth. */
  predicate Clean(v: Value)
  {
    match v
    case Null => true
    case Unset => false
    case Scalar(_, _) => true
    case Node(kind, _, items) =>
      && (kind == Map ==> |items| % 2 == 0)
      && forall i :: 0 <= i < |items| ==> Clean(items[i]) && (kind != Tuple ==> !items[i].Null?)
  }

  lemma {:induction false} CanonIsIdentity(v: Value, t: Type)
    requires WellFormed(t) && Conforms(v, t)
    ensures Canon(v, t) == v <==> Clean(v)
    decreases v, 1
  {
    if v.Node? {
      if v.kind == Tuple {
        CanonFieldsIdentity(v.types, 0, v.items);
      } else {
        CanonItemsIdentity(v.kind, v.types, 0, Whole(v.kind, |v.items|), v.items);
      }
    }
  }

  lemma {:induction false} CanonItemsIdentity(kind: Kind, types: seq<Type>, i: nat, n: int, items: seq<Value>)
    requires WellFormed(Composite(kind, types)) && kind != Tuple && AllConform(kind, types, i, items)
    requires n <= i + |items|
    ensures CanonItems(kind, types, i, n, items) == items <==>
      (i + |items| == n || items == []) && forall k :: 0 <= k < |items| ==> Clean(items[k]) && !items[k].Null?
    decreases items, 0
  {
    if items != [] {
      assert forall k :: 0 < k < |items| ==> items[k] == items[1..][k - 1];
      assert forall k :: 0 <= k < |items| - 1 ==> items[1..][k] == items[k + 1];
      assert items == [items[0]] + items[1..];
      if i < n {
        if !Missing(items[0]) { CanonIsIdentity(items[0], ItemType(kind, types, i)); }
        CanonItemsIdentity(kind, types, i + 1, n, items[1..]);
      }
    }
  }

  lemma {:induction false} CanonFieldsIdentity(types: seq<Type>, i: nat, items: seq<Value>)
    requires WellFormed(Composite(Tuple, types)) && i + |items| <= |types| && AllConform(Tuple, types, i, items)
    ensures CanonFields(types, i, items) == items <==> forall k :: 0 <= k < |items| ==> Clean(items[k])
    decreases items, 0
  {
    if items != [] {
      assert forall k :: 0 < k < |items| ==> items[k] == items[1..][k - 1];
      assert forall k :: 0 <= k < |items| - 1 ==> items[1..][k] == items[k + 1];
      assert items == [items[0]] + items[1..];
      CanonIsIdentity(items[0], types[i]);
      CanonFieldsIdentity(types, i + 1, items[1..]);
    }
  }

  /** What reading back a written value yields, if it uses up exactly what was written. */
  ghost predicate ComesBack(v: Value, t: Type)
    requires WellFormed(t) && Conforms(v, t)
  {
    var r := DecodeValue(t, Field(v));
    r.Found? && r.rest == [] && Read(t, r.cell) == v
  }

  /** A length that does not fit is truncated, and then something is left of what was written. */
  lemma OversizeIsLeftOver(v: Value, t: Type)
    requires |Body(v)| >= LIMIT
    ensures var r := DecodeValue(t, Field(v)); r.Found? ==> r.rest != []
  {
    var b := Body(v);
    Int32RoundTrip(|b|);
    assert Field(v) == Int32(|b|) + b && (Int32(|b|) + b)[..4] == Int32(|b|);
  }

  /** The round trip returns the value itself exactly if the value is clean and small enough for its
      length to be written. */
  lemma RoundTripExactlyWhen(v: Value, t: Type)
    requires WellFormed(t) && Conforms(v, t)
    ensures ComesBack(v, t) <==> Clean(v) && |Body(v)| < LIMIT
  {
    if |Body(v)| < LIMIT {
      EncodeThenRead(v, t, []);
      assert Field(v) + [] == Field(v);
      CanonIsIdentity(v, t);
    } else {
      OversizeIsLeftOver(v, t);
    }
  }

  /** A null list inside a list ends the iteration: what follows it is not read. An odd map loses
      its last key. */
  lemma RoundTripFails()
    ensures var t := Composite(List, [Composite(Set, [Simple(Native(9))])]);
      var v := Node(List, t.types, [Null, Node(Set, [Simple(Native(9))], [])]);
      WellFormed(t) && Conforms(v, t) && Canon(v, t) == Node(List, t.types, [])
    ensures var t := Composite(Map, [Simple(Native(9)), Simple(Native(VARCHAR))]);
      var v := Node(Map, t.types, [Scalar(Native(9), [1])]);
      WellFormed(t) && Conforms(v, t) && Canon(v, t) == Node(Map, t.types, [])
  {
    var inner := Node(Set, [Simple(Native(9))], []);
    assert [Null, inner][1..] == [inner] && [inner][1..] == [];
    assert [Scalar(Native(9), [1])][1..] == [];
  }

  // ---------------------------------------------------------------- type checks

  predicate IsText(id: Basic) { id == Native(TEXT) || id == Native(VARCHAR) }

  /** Text and varchar are one type, and class names are compared only where both sides have one. */
  predicate SameBasic(a: Basic, b: Basic)
  {
    match a
    case Native(number) => if IsText(a) then IsText(b) else b == Native(number)
    case Custom(name) => b.Custom? && (name == "" || b.className == "" || name == b.className)
  }

  /** Comparing types: sub-types are compared only where both sides have some. */
  predicate Equals(a: Type, b: Type)
  {
    match a
    case Simple(id) => b.Simple? && SameBasic(id, b.id)
    case Composite(kind, types) =>
      && b.Composite? && b.kind == kind
      && (types != [] && b.types != [] ==>
            |types| == |b.types| && forall i :: 0 <= i < |types| ==> Equals(types[i], b.types[i]))
  }

  predicate FullyTyped(t: Type)
  {
    match t
    case Simple(id) => id != Custom("")
    case Composite(_, types) => types != [] && forall i :: 0 <= i < |types| ==> FullyTyped(types[i])
  }

  /** Where one side leaves out its class name or its sub-types, the other may have any. */
  lemma LeftOutIsEqual(a: Type, b: Type)
    ensures a.Simple? && b.Simple? && a.id.Custom? && b.id.Custom? && Custom("") in {a.id, b.id} ==> Equals(a, b)
    ensures a.Composite? && b.Composite? && a.kind == b.kind && [] in {a.types, b.types} ==> Equals(a, b)
    ensures Equals(a, b) ==> a.Simple? == b.Simple? && (a.Composite? ==> a.kind == b.kind)
  {
  }

  /** One name for text and varchar. */
  function PlainBasic(id: Basic): Basic { if IsText(id) then Native(VARCHAR) else id }

  function PlainType(t: Type): Type
  {
    match t
    case Simple(id) => Simple(PlainBasic(id))
    case Composite(kind, types) => Composite(kind, seq(|types|, i requires 0 <= i < |types| => PlainType(types[i])))
  }

  /** On types that are declared to the end the comparison is equality, up to the two names of text. */
  lemma {:induction false} EqualsIsEquality(a: Type, b: Type)
    requires FullyTyped(a) && FullyTyped(b)
    ensures Equals(a, b) <==> PlainType(a) == PlainType(b)
  {
    if a.Composite? && b.Composite? && a.kind == b.kind && |a.types| == |b.types| {
      forall i | 0 <= i < |a.types|
        ensures Equals(a.types[i], b.types[i]) <==> PlainType(a).types[i] == PlainType(b).types[i]
      {
        EqualsIsEquality(a.types[i], b.types[i]);
      }
      assert PlainType(a) == PlainType(b) <==> PlainType(a).types == PlainType(b).types;
    } else if a.Composite? && b.Composite? {
      assert |PlainType(a).types| == |a.types| && |PlainType(b).types| == |b.types|;
    }
  }

  /** The type a value brings along; a null has none. Some scalars go with several, a string with
      every kind of text or bytes. */
  datatype Own = Untyped | Typed(t: Type) | OneOf(accepts: set<Basic>)

  /** The value may be put where `t` is declared. */
  predicate Suits(own: Own, t: Type)
  {
    match own
    case Untyped => true
    case Typed(s) => Equals(s, t)
    case OneOf(accepts) => t.Simple? && t.id in accepts
  }

  function OwnType(v: Value): Own
  {
    match v
    case Null => Untyped
    case Unset => Untyped
    case Scalar(id, _) => Typed(Simple(id))
    case Node(kind, types, _) => Typed(Composite(kind, types))
  }

  /** The type a container declares for item `i`, if it declares any. */
  function DeclaredType(kind: Kind, types: seq<Type>, i: nat): Own
  {
    if Shaped(kind, types) && (kind == Tuple ==> i < |types|) then Typed(ItemType(kind, types, i)) else Untyped
  }

  /** The check made before a value becomes item `i`; containers without declared types accept all. */
  predicate Admits(kind: Kind, types: seq<Type>, i: nat, own: Own)
  {
    var declared := DeclaredType(kind, types, i);
    declared.Typed? ==> Suits(own, declared.t)
  }

  /** A scalar that is put where one of the types it goes with is declared is of that type. */
  function ScalarId(id: Basic, accepts: set<Basic>, declared: Own): Basic
  {
    if declared.Typed? && declared.t.Simple? && declared.t.id in accepts then declared.t.id else id
  }

  predicate Accepted(accepts: set<Basic>, declared: Own)
  {
    declared.Typed? ==> declared.t.Simple? && declared.t.id in accepts
  }

  /** Every item at every depth passed the check of its container. */
  predicate Checked(v: Value)
  {
    v.Node? ==> forall i :: 0 <= i < |v.items| ==> Checked(v.items[i]) && Admits(v.kind, v.types, i, OwnType(v.items[i]))
  }

  /** Every container at every depth declares its types, and tuples have a field for each. */
  predicate Declared(v: Value)
  {
    (v.Scalar? ==> FullyTyped(Simple(v.id))) &&
    (v.Node? ==>
      && FullyTyped(Composite(v.kind, v.types)) && WellFormed(Composite(v.kind, v.types))
      && (v.kind == Tuple ==> |v.items| == |v.types|)
      && forall i :: 0 <= i < |v.items| ==> Declared(v.items[i]))
  }

  /** The value with one name for text and varchar in all the types it mentions. */
  function PlainValue(v: Value): Value
    decreases v, 1
  {
    match v
    case Null => Null
    case Unset => Unset
    case Scalar(id, bytes) => Scalar(PlainBasic(id), bytes)
    case Node(kind, types, items) => Node(kind, PlainType(Composite(kind, types)).types, PlainValues(items))
  }

  function PlainValues(items: seq<Value>): (r: seq<Value>)
    ensures |r| == |items|
    decreases items, 0
  {
    if items == [] then [] else [PlainValue(items[0])] + PlainValues(items[1..])
  }

  /** The checks made while a value is built are enough for it to be read back with its type, up to
      the two names of text. */
  lemma {:induction false} ChecksSuffice(v: Value)
    requires Checked(v) && Declared(v) && !Missing(v)
    ensures var t := PlainType(OwnType(v).t); WellFormed(t) && Conforms(PlainValue(v), t)
    decreases v, 1
  {
    PlainWellFormed(OwnType(v).t);
    if v.Node? { ItemChecksSuffice(v.kind, v.types, 0, v.items); }
  }

  lemma {:induction false} PlainWellFormed(t: Type)
    requires WellFormed(t)
    ensures WellFormed(PlainType(t))
  {
    if t.Composite? {
      forall i | 0 <= i < |t.types| ensures WellFormed(PlainType(t).types[i]) { PlainWellFormed(t.types[i]); }
    }
  }

  lemma {:induction false} ItemChecksSuffice(kind: Kind, types: seq<Type>, i: nat, items: seq<Value>)
    requires FullyTyped(Composite(kind, types)) && WellFormed(Composite(kind, types))
    requires kind == Tuple ==> i + |items| <= |types|
    requires forall k :: 0 <= k < |items| ==>
      Checked(items[k]) && Declared(items[k]) && Admits(kind, types, i + k, OwnType(items[k]))
    ensures var t := PlainType(Composite(kind, types));
      WellFormed(t) && AllConform(kind, t.types, i, PlainValues(items))
    decreases items, 0
  {
    PlainWellFormed(Composite(kind, types));
    if items != [] {
      ItemCheckSuffices(kind, types, i, items[0]);
      forall k | 0 <= k < |items[1..]| ensures
        Checked(items[1..][k]) && Declared(items[1..][k]) && Admits(kind, types, i + 1 + k, OwnType(items[1..][k]))
      {
        assert items[1..][k] == items[k + 1] && i + 1 + k == i + (k + 1);
      }
      ItemChecksSuffice(kind, types, i + 1, items[1..]);
      assert PlainValues(items)[1..] == PlainValues(items[1..]);
    }
  }

  lemma {:induction false} ItemCheckSuffices(kind: Kind, types: seq<Type>, i: nat, v: Value)
    requires FullyTyped(Composite(kind, types)) && WellFormed(Composite(kind, types))
    requires kind == Tuple ==> i < |types|
    requires Checked(v) && Declared(v) && Admits(kind, types, i, OwnType(v))
    ensures var t := PlainType(Composite(kind, types));
      WellFormed(t) && WellFormed(ItemType(kind, t.types, i)) && Conforms(PlainValue(v), ItemType(kind, t.types, i))
    decreases v, 2
  {
    PlainWellFormed(Composite(kind, types));
    if !Missing(v) {
      ChecksSuffice(v);
      EqualsIsEquality(OwnType(v).t, ItemType(kind, types, i));
    }
  }

  lemma {:induction false} PlainBytes(v: Value)
    ensures Body(PlainValue(v)) == Body(v) && Field(PlainValue(v)) == Field(v)
    decreases v, 1
  {
    if v.Node? { PlainItemsBytes(v.items); }
  }

  lemma {:induction false} PlainItemsBytes(items: seq<Value>)
    ensures Items(PlainValues(items)) == Items(items) && Fields(PlainValues(items)) == Fields(items)
    decreases items, 0
  {
    if items != [] {
      PlainBytes(items[0]);
      PlainItemsBytes(items[1..]);
      assert PlainValues(items)[1..] == PlainValues(items[1..]);
    }
  }

  lemma {:induction false} PlainClean(v: Value)
    requires Clean(v)
    ensures Clean(PlainValue(v))
    decreases v, 1
  {
    if v.Node? { PlainItemsClean(v.items); }
  }

  lemma {:induction false} PlainItemsClean(items: seq<Value>)
    requires forall k :: 0 <= k < |items| ==> Clean(items[k])
    ensures forall k :: 0 <= k < |items| ==>
      Clean(PlainValues(items)[k]) && PlainValues(items)[k].Null? == items[k].Null?
    decreases items, 0
  {
    if items != [] {
      PlainClean(items[0]);
      PlainItemsClean(items[1..]);
    }
  }

  /** Reading does not look at the names of scalar types. */
  lemma {:induction false} ReadPlain(t: Type, c: Cell)
    requires WellFormed(t) && CellOf(t, c)
    ensures WellFormed(PlainType(t)) && CellOf(PlainType(t), c) && Read(PlainType(t), c) == PlainValue(Read(t, c))
    decreases if c.Nothing? then 0 else |c.bytes|, 1
  {
    PlainWellFormed(t);
    if t.Composite? && !c.Nothing? {
      if t.kind == Tuple { ReadFieldsPlain(t.types, 0, c.bytes); }
      else { ReadItemsPlain(t.kind, t.types, 0, Asked(t.kind, c.count), c.bytes); }
    }
  }

  lemma {:induction false} ReadItemsPlain(kind: Kind, types: seq<Type>, i: nat, n: int, input: Bytes)
    requires WellFormed(Composite(kind, types)) && kind != Tuple
    ensures var t := PlainType(Composite(kind, types));
      WellFormed(t) && ReadItems(kind, t.types, i, n, input) == PlainValues(ReadItems(kind, types, i, n, input))
    decreases |input|, 0
  {
    PlainWellFormed(Composite(kind, types));
    var t := ItemType(kind, types, i);
    assert ItemType(kind, PlainType(Composite(kind, types)).types, i) == PlainType(t);
    var r := DecodeValue(t, input);
    if i < n && r.Found? {
      ReadPlain(t, r.cell);
      ReadItemsPlain(kind, types, i + 1, n, r.rest);
    }
  }

  lemma {:induction false} ReadFieldsPlain(types: seq<Type>, i: nat, input: Bytes)
    requires WellFormed(Composite(Tuple, types))
    ensures var t := PlainType(Composite(Tuple, types));
      WellFormed(t) && ReadFields(t.types, i, input) == PlainValues(ReadFields(types, i, input))
    decreases |input|, 0
  {
    PlainWellFormed(Composite(Tuple, types));
    if i < |types| {
      var r := DecodeValue(types[i], input);
      if r.Found? {
        ReadPlain(types[i], r.cell);
        ReadFieldsPlain(types, i + 1, r.rest);
      }
    }
  }

  ghost predicate AllDeclared(items: seq<Value>) { forall k :: 0 <= k < |items| ==> Declared(items[k]) }

  /** What is read with a type is of that very type, if no tuple in it was cut short. */
  lemma {:induction false} ReadConforms(t: Type, c: Cell)
    requires WellFormed(t) && CellOf(t, c) && Declared(Read(t, c))
    ensures Conforms(Read(t, c), t)
    decreases if c.Nothing? then 0 else |c.bytes|, 1
  {
    if t.Composite? && !c.Nothing? {
      if t.kind == Tuple { ReadFieldsConform(t.types, 0, c.bytes); }
      else { ReadItemsConform(t.kind, t.types, 0, Asked(t.kind, c.count), c.bytes); }
    }
  }

  lemma {:induction false} ReadItemsConform(kind: Kind, types: seq<Type>, i: nat, n: int, input: Bytes)
    requires WellFormed(Composite(kind, types)) && kind != Tuple
    requires AllDeclared(ReadItems(kind, types, i, n, input))
    ensures AllConform(kind, types, i, ReadItems(kind, types, i, n, input))
    decreases |input|, 0
  {
    var t, items := ItemType(kind, types, i), ReadItems(kind, types, i, n, input);
    var r := DecodeValue(t, input);
    if i < n && r.Found? {
      assert items[1..] == ReadItems(kind, types, i + 1, n, r.rest);
      assert forall k :: 0 <= k < |items[1..]| ==> items[1..][k] == items[k + 1];
      assert items[0] == Read(t, r.cell) && Declared(items[0]);
      ReadConforms(t, r.cell);
      ReadItemsConform(kind, types, i + 1, n, r.rest);
    }
  }

  lemma {:induction false} ReadFieldsConform(types: seq<Type>, i: nat, input: Bytes)
    requires WellFormed(Composite(Tuple, types)) && i <= |types|
    requires AllDeclared(ReadFields(types, i, input))
    ensures i + |ReadFields(types, i, input)| <= |types|
    ensures AllConform(Tuple, types, i, ReadFields(types, i, input))
    decreases |input|, 0
  {
    var items := ReadFields(types, i, input);
    if i < |types| {
      var r := DecodeValue(types[i], input);
      if r.Found? {
        assert items[1..] == ReadFields(types, i + 1, r.rest);
        assert forall k :: 0 <= k < |items[1..]| ==> items[1..][k] == items[k + 1];
        assert items[0] == Read(types[i], r.cell) && Declared(items[0]);
        ReadConforms(types[i], r.cell);
        ReadFieldsConform(types, i + 1, r.rest);
      }
    }
  }

  /** What the driver lets a client build out of declared containers, without nulls in collections,
      odd maps or unset fields, comes back as it was up to the two names of text, and with the same
      names exactly if every part has the very type its container declares. */
  lemma BuiltValuesComeBack(v: Value)
    requires Checked(v) && Declared(v) && !Missing(v) && |Body(v)| < LIMIT && Clean(v)
    ensures WellFormed(OwnType(v).t)
    ensures var r := DecodeValue(OwnType(v).t, Field(v));
      && r.Found? && r.rest == [] && PlainValue(Read(OwnType(v).t, r.cell)) == PlainValue(v)
      && (Read(OwnType(v).t, r.cell) == v <==> Conforms(v, OwnType(v).t))
  {
    var t := OwnType(v).t;
    ChecksSuffice(v);
    PlainBytes(v);
    PlainClean(v);
    RoundTripExactlyWhen(PlainValue(v), PlainType(t));
    var r := DecodeValue(t, Field(v));
    assert r == DecodeValue(PlainType(t), Field(v));
    ReadPlain(t, r.cell);
    if Read(t, r.cell) == v { ReadConforms(t, r.cell); }
    if Conforms(v, t) { RoundTripExactlyWhen(v, t); }
  }

  const TEXTS := Composite(List, [Simple(Native(TEXT))])
  const VARCHARS := Composite(List, [Simple(Native(VARCHAR))])

  /** An empty text list may be put where a varchar list is declared, and comes back as one. */
  lemma TextComesBackAsVarchar()
    ensures var v := Node(List, [VARCHARS], [Node(List, TEXTS.types, [])]);
      && Checked(v) && Declared(v) && Clean(v) && WellFormed(OwnType(v).t)
      && var r := DecodeValue(OwnType(v).t, Field(v));
         r.Found? && Read(OwnType(v).t, r.cell) == Node(List, [VARCHARS], [Node(List, VARCHARS.types, [])])
  {
    var texts, varchars := Node(List, TEXTS.types, []), Node(List, VARCHARS.types, []);
    ListOfOne(texts);
    ListOfOne(varchars);
    var w := Node(List, [VARCHARS], [varchars]);
    assert AllConform(List, [VARCHARS], 0, [varchars]) by { assert Conforms(varchars, VARCHARS); }
    hide Canon, Read, DecodeValue, Checked, Declared, Int32, Items, Body;
    RoundTripExactlyWhen(w, Composite(List, [VARCHARS]));
  }

  lemma ListOfOne(v: Value)
    requires v == Node(List, TEXTS.types, []) || v == Node(List, VARCHARS.types, [])
    ensures var w := Node(List, [VARCHARS], [v]);
      && Checked(w) && Declared(w) && Clean(w) && WellFormed(OwnType(w).t) && WellFormed(VARCHARS)
      && Body(w) == Int32(1) + (Int32(4) + Int32(0)) && [v][1..] == []
  {
    assert Equals(OwnType(v).t, VARCHARS) && FullyTyped(VARCHARS) && FullyTyped(OwnType(v).t);
    assert Checked(v) && Declared(v) && WellFormed(VARCHARS);
    assert [v][1..] == [] && Body(v) == Int32(0);
    assert Items([v]) == WithLength(Body(v)) + Items([]);
  }
}
