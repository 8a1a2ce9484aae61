/**
 The objects that build, write and read nested values. Items are kept as encoded buffers; the
 history field `values` says what each stands for, and every buffer produced is proved to hold the
 bytes `Encoding` gives that value, filled to its precomputed size.
 */
module Values {
  import opened Wire
  import E = Encoding

  // ---------------------------------------------------------------- slices of a sum

  lemma {:induction false} ItemsSplit(values: seq<E.Value>, i: nat)
    requires i < |values|
    ensures values[i..][0] == values[i] && values[i..][1..] == values[i + 1..]
    ensures E.Items(values[i..]) == WithLength(E.Body(values[i])) + E.Items(values[i + 1..])
    ensures E.Fields(values[i..]) == E.Field(values[i]) + E.Fields(values[i + 1..])
  {
    assert values[i..][1..] == values[i + 1..];
  }

  lemma NothingLeft()
    ensures E.Items([]) == [] && E.Fields([]) == []
  {
  }

  /** The buffer of a tuple field is empty only if nobody set it. */
  lemma FieldBuffer(item: Bytes, v: E.Value)
    requires item == if v.Unset? then [] else E.Field(v)
    ensures E.Field(v) == if item == [] then Int32(-1) else item
  {
  }

  /** `WritesOutside` is no answer of the driver: the check let an index through at which there is no
      field, and the store goes behind the vector. */
  datatype Code = Ok | IndexOutOfBounds | InvalidValueType | InvalidItemCount | WritesOutside

  function TupleCheck(fields: nat, types: seq<E.Type>, index: nat, own: E.Own): Code
  {
    if index > fields then IndexOutOfBounds
    else if !E.Admits(E.Tuple, types, index, own) then InvalidValueType
    else Ok
  }

  /** What setting a field comes to. */
  function TupleSet(fields: nat, types: seq<E.Type>, index: nat, own: E.Own): Code
  {
    var code := TupleCheck(fields, types, index, own);
    if code.Ok? && index == fields then WritesOutside else code
  }

  /** A field is set within the tuple, or the call refused, exactly if the index is not the number of
      fields; and it is set exactly if it is below that number and the type fits. */
  lemma SetStaysInsideExactlyWhen(fields: nat, types: seq<E.Type>, index: nat, own: E.Own)
    requires types != [] ==> |types| == fields
    ensures TupleSet(fields, types, index, own).WritesOutside? <==> index == fields
    ensures TupleSet(fields, types, index, own).Ok? <==> index < fields && E.Admits(E.Tuple, types, index, own)
  {
  }

  /** Such a call: the first index that a tuple of any number of undeclared fields does not have. */
  lemma SetWritesOutside(fields: nat, own: E.Own)
    ensures TupleSet(fields, [], fields, own).WritesOutside?
  {
  }

  class Collection {
    const kind: E.Kind
    const types: seq<E.Type>
    var items: seq<Bytes>
    ghost var values: seq<E.Value>

    ghost predicate Valid()
      reads this
    {
      && kind != E.Tuple && |items| == |values|
      && (forall i :: 0 <= i < |items| ==> items[i] == E.Body(values[i]))
      && E.Checked(Contents())
    }

    ghost function Contents(): E.Value
      reads this
    {
      E.Node(kind, types, values)
    }

    constructor (kind: E.Kind, types: seq<E.Type>)
      requires kind != E.Tuple
      ensures Valid() && this.kind == kind && this.types == types && values == []
    {
      this.kind, this.types, items, values := kind, types, [], [];
    }

    /** Keys of a map are checked at even positions, its values at odd ones. */
    method Check(own: E.Own) returns (ok: bool)
      requires kind != E.Tuple
      ensures ok <==> E.Admits(kind, types, |items|, own)
    {
      var index := |items|;
      if kind == E.Map {
        return !(|types| == 2 && !E.Suits(own, types[index % 2]));
      } else {
        return !(|types| == 1 && !E.Suits(own, types[0]));
      }
    }

    method Push(data: Bytes, ghost v: E.Value)
      requires Valid() && data == E.Body(v)
      requires E.Checked(v) && E.Admits(kind, types, |items|, E.OwnType(v))
      modifies this
      ensures Valid() && values == old(values) + [v]
    {
      items, values := items + [data], values + [v];
    }

    method AppendNull() returns (ok: bool)
      requires Valid()
      modifies this
      ensures Valid() && ok && values == old(values) + [E.Null]
    {
      ok := Check(E.Untyped);
      Push([], E.Null);
    }

    /** `accepts` are the types a scalar of this kind goes with. */
    method AppendScalar(id: E.Basic, accepts: set<E.Basic>, bytes: Bytes) returns (ok: bool)
      requires Valid() && id in accepts
      modifies this
      ensures Valid()
      ensures ok <==> E.Accepted(accepts, E.DeclaredType(kind, types, old(|items|)))
      ensures values == if ok then
          old(values) + [E.Scalar(E.ScalarId(id, accepts, E.DeclaredType(kind, types, old(|items|))), bytes)]
        else old(values)
    {
      var actual := E.ScalarId(id, accepts, E.DeclaredType(kind, types, |items|));
      ok := Check(E.OneOf(accepts));
      if ok { Push(bytes, E.Scalar(actual, bytes)); }
    }

    /** The items of `other` as they are now are copied; it may be this very collection. */
    method AppendCollection(other: Collection) returns (ok: bool)
      requires Valid() && other.Valid()
      modifies this
      ensures Valid()
      ensures ok <==> E.Admits(kind, types, old(|items|), E.OwnType(old(other.Contents())))
      ensures values == if ok then old(values) + [old(other.Contents())] else old(values)
    {
      ok := Check(E.Typed(E.Composite(other.kind, other.types)));
      if ok {
        var data := other.Encode();
        Push(data[..], other.Contents());
      }
    }

    method AppendTuple(other: TupleData) returns (ok: bool)
      requires Valid() && other.Valid()
      modifies this
      ensures Valid()
      ensures ok <==> E.Admits(kind, types, old(|items|), E.OwnType(other.Contents()))
      ensures values == if ok then old(values) + [other.Contents()] else old(values)
    {
      ok := Check(E.Typed(E.Composite(E.Tuple, other.types)));
      if ok {
        var data := other.Encode();
        Push(data[..], other.Contents());
      }
    }

    method GetItemsSize() returns (size: nat)
      requires Valid()
      ensures size == |E.Items(values)|
    {
      size := 0;
      for i := 0 to |items|
        invariant size + |E.Items(values[i..])| == |E.Items(values)|
      {
        ItemsSplit(values, i);
        size := size + 4;
        size := size + |items[i]|;
      }
    }

    method EncodeItem(pos: nat, item: Bytes, buf: array<byte>) returns (next: nat)
      requires pos + 4 + |item| <= buf.Length
      modifies buf
      ensures next == pos + |WithLength(item)|
      ensures buf[..next] == old(buf[..pos]) + WithLength(item)
    {
      next := EncodeInt32(buf, pos, |item|);
      assert buf[..next] == old(buf[..pos]) + Int32(|item|);
      next := Copy(buf, next, item);
    }

    /** Fills the rest of the buffer exactly. */
    method EncodeItems(buf: array<byte>, pos: nat)
      requires Valid() && pos + |E.Items(values)| == buf.Length
      modifies buf
      ensures buf[..] == old(buf[..pos]) + E.Items(values)
    {
      hide E.Items, E.Fields, E.Body, E.Checked;
      var p: nat := pos;
      ghost var all := buf[..pos] + E.Items(values);
      for i := 0 to |items|
        invariant p <= buf.Length && buf[..p] == all[..p] && all[p..] == E.Items(values[i..])
      {
        ItemsSplit(values, i);
        p := EncodeItem(p, items[i], buf);
      }
      NothingLeft();
      assert values[|items|..] == [] && buf[..p] == buf[..];
    }

    method Encode() returns (buf: array<byte>)
      requires Valid()
      ensures fresh(buf) && buf[..] == E.Body(Contents())
    {
      var size := GetItemsSize();
      buf := new byte[4 + size];
      var pos := EncodeInt32(buf, 0, GetCount());
      assert buf[..4] == Int32(GetCount());
      EncodeItems(buf, pos);
    }

    method EncodeWithLength() returns (buf: array<byte>)
      requires Valid()
      ensures fresh(buf) && buf[..] == WithLength(E.Body(Contents()))
    {
      hide E.Items, E.Fields, E.Checked, E.Body, Int32;
      var size := GetItemsSize();
      ghost var length, count := Int32(4 + size), Int32(GetCount());
      BodyOf(this);
      buf := new byte[4 + (4 + size)];
      var pos := EncodeInt32(buf, 0, 4 + size);
      assert buf[..4] == length;
      pos := EncodeInt32(buf, pos, GetCount());
      assert buf[..8] == length + count;
      EncodeItems(buf, pos);
      assert (length + count) + E.Items(values) == length + (count + E.Items(values));
    }

    function GetCount(): nat
      reads this
    {
      if kind == E.Map then |items| / 2 else |items|
    }
  }

  lemma BodyOf(c: Collection)
    requires c.Valid()
    ensures E.Body(c.Contents()) == Int32(c.GetCount()) + E.Items(c.values)
  {
  }

  /** Tuples: a field nobody set is an empty buffer. */
  class TupleData {
    const types: seq<E.Type>
    var items: seq<Bytes>
    ghost var values: seq<E.Value>

    ghost predicate Valid()
      reads this
    {
      && |items| == |values| && (types != [] ==> |items| == |types|)
      && (forall i :: 0 <= i < |items| ==> items[i] == if values[i].Unset? then [] else E.Field(values[i]))
      && E.Checked(Contents())
    }

    ghost function Contents(): E.Value
      reads this
    {
      E.Node(E.Tuple, types, values)
    }

    constructor (count: nat)
      ensures Valid() && types == [] && values == seq(count, i => E.Unset)
    {
      types, items, values := [], seq(count, i => []), seq(count, i => E.Unset);
    }

    constructor FromType(types: seq<E.Type>)
      ensures Valid() && this.types == types && values == seq(|types|, i => E.Unset)
    {
      this.types, items, values := types, seq(|types|, i => []), seq(|types|, i => E.Unset);
    }

    /** An index past the number of fields is refused, that number itself is not. */
    method Check(index: nat, own: E.Own) returns (code: Code)
      ensures code == TupleCheck(|items|, types, index, own)
    {
      if index > |items| { return IndexOutOfBounds; }
      if index < |types| && !E.Suits(own, types[index]) { return InvalidValueType; }
      return Ok;
    }

    /** Stores what the check has let through; behind the last field there is nothing to store to. */
    method Put(index: nat, data: Bytes, ghost v: E.Value) returns (code: Code)
      requires Valid() && !v.Unset? && data == E.Field(v) && E.Checked(v)
      requires TupleCheck(|items|, types, index, E.OwnType(v)).Ok?
      modifies this
      ensures Valid() && code == (if index < old(|values|) then Ok else WritesOutside)
      ensures values == if code.Ok? then old(values)[index := v] else old(values)
    {
      if index == |items| { return WritesOutside; }
      items, values := items[index := data], values[index := v];
      return Ok;
    }

    method SetNull(index: nat) returns (code: Code)
      requires Valid()
      modifies this
      ensures Valid() && code == TupleSet(old(|values|), types, index, E.Untyped)
      ensures values == if code.Ok? then old(values)[index := E.Null] else old(values)
    {
      code := Check(index, E.Untyped);
      if code.Ok? { code := Put(index, Int32(-1), E.Null); }
    }

    method SetScalar(index: nat, id: E.Basic, accepts: set<E.Basic>, bytes: Bytes) returns (code: Code)
      requires Valid() && id in accepts
      modifies this
      ensures Valid()
      ensures code.Ok? <==> index < old(|values|) && E.Accepted(accepts, E.DeclaredType(E.Tuple, types, index))
      ensures code.WritesOutside? <==> index == old(|values|)
      ensures values == if code.Ok? then
          old(values)[index := E.Scalar(E.ScalarId(id, accepts, E.DeclaredType(E.Tuple, types, index)), bytes)]
        else old(values)
    {
      var actual := E.ScalarId(id, accepts, E.DeclaredType(E.Tuple, types, index));
      code := Check(index, E.OneOf(accepts));
      if code.Ok? { code := Put(index, WithLength(bytes), E.Scalar(actual, bytes)); }
    }

    method SetCollection(index: nat, other: Collection) returns (code: Code)
      requires Valid() && other.Valid()
      modifies this
      ensures Valid() && code == TupleSet(old(|values|), types, index, E.OwnType(other.Contents()))
      ensures values == if code.Ok? then old(values)[index := other.Contents()] else old(values)
    {
      code := Check(index, E.Typed(E.Composite(other.kind, other.types)));
      if code.Ok? {
        var data := other.EncodeWithLength();
        code := Put(index, data[..], other.Contents());
      }
    }

    method SetTuple(index: nat, other: TupleData) returns (code: Code)
      requires Valid() && other.Valid()
      modifies this
      ensures Valid() && code == TupleSet(old(|values|), types, index, E.OwnType(old(other.Contents())))
      ensures values == if code.Ok? then old(values)[index := old(other.Contents())] else old(values)
    {
      code := Check(index, E.Typed(E.Composite(E.Tuple, other.types)));
      if code.Ok? {
        var data := other.EncodeWithLength();
        code := Put(index, data[..], other.Contents());
      }
    }

    method GetBuffersSize() returns (size: nat)
      requires Valid()
      ensures size == |E.Fields(values)|
    {
      size := 0;
      for i := 0 to |items|
        invariant size + |E.Fields(values[i..])| == |E.Fields(values)|
      {
        ItemsSplit(values, i);
        if |items[i]| != 0 {
          size := size + |items[i]|;
        } else {
          size := size + 4;
        }
      }
    }

    method EncodeField(pos: nat, item: Bytes, buf: array<byte>) returns (next: nat)
      requires pos + (if item == [] then 4 else |item|) <= buf.Length
      modifies buf
      ensures next == pos + if item == [] then 4 else |item|
      ensures buf[..next] == old(buf[..pos]) + if item == [] then Int32(-1) else item
    {
      if |item| != 0 {
        next := Copy(buf, pos, item);
      } else {
        next := EncodeInt32(buf, pos, -1);
      }
    }

    method EncodeBuffers(pos: nat, buf: array<byte>)
      requires Valid() && pos + |E.Fields(values)| == buf.Length
      modifies buf
      ensures buf[..] == old(buf[..pos]) + E.Fields(values)
    {
      hide E.Items, E.Fields, E.Field, E.Body, E.Checked, Int32;
      var p: nat := pos;
      ghost var all := buf[..pos] + E.Fields(values);
      for i := 0 to |items|
        invariant p <= buf.Length && buf[..p] == all[..p] && all[p..] == E.Fields(values[i..])
      {
        ItemsSplit(values, i);
        FieldBuffer(items[i], values[i]);
        p := EncodeField(p, items[i], buf);
      }
      NothingLeft();
      assert values[|items|..] == [] && buf[..p] == buf[..];
    }

    method Encode() returns (buf: array<byte>)
      requires Valid()
      ensures fresh(buf) && buf[..] == E.Body(Contents())
    {
      var size := GetBuffersSize();
      buf := new byte[size];
      EncodeBuffers(0, buf);
    }

    method EncodeWithLength() returns (buf: array<byte>)
      requires Valid()
      ensures fresh(buf) && buf[..] == WithLength(E.Body(Contents()))
    {
      var size := GetBuffersSize();
      buf := new byte[4 + size];
      var pos := EncodeInt32(buf, 0, size);
      assert buf[..4] == Int32(size);
      EncodeBuffers(pos, buf);
    }
  }

  datatype Element = UnsetElement | Nul | Buf(bytes: Bytes) | Col(collection: Collection)

  ghost function Held(elements: seq<Element>): set<Collection>
  {
    set e | e in elements && e.Col? :: e.collection
  }

  ghost predicate ElementOk(e: Element, v: E.Value)
    reads if e.Col? then {e.collection} else {}
  {
    match e
    case UnsetElement => v.Unset?
    case Nul => v.Null?
    case Buf(b) => !E.Missing(v) && b == E.Field(v)
    case Col(c) => c.Valid()
  }

  ghost function Content(e: Element, v: E.Value): E.Value
    reads if e.Col? then {e.collection} else {}
  {
    if e.Col? then e.collection.Contents() else v
  }

  ghost function AllContents(elements: seq<Element>, values: seq<E.Value>): (r: seq<E.Value>)
    requires |elements| == |values|
    reads Held(elements)
    ensures |r| == |elements| && forall i :: 0 <= i < |r| ==> r[i] == Content(elements[i], values[i])
  {
    if elements == [] then []
    else
      assert Held(elements[1..]) <= Held(elements);
      [Content(elements[0], values[0])] + AllContents(elements[1..], values[1..])
  }

  /** The fields of a user type value or the parameters of a statement. A collection is not copied
      when it is set: it is encoded with the items it has when the whole is encoded. */
  class AbstractData {
    const types: seq<E.Own>
    var elements: seq<Element>
    ghost var values: seq<E.Value>

    ghost predicate Valid()
      reads this, Held(elements)
    {
      |elements| == |values| == |types| && forall i :: 0 <= i < |elements| ==> ElementOk(elements[i], values[i])
    }

    ghost function Contents(): seq<E.Value>
      requires |elements| == |values|
      reads this, Held(elements)
    {
      AllContents(elements, values)
    }

    constructor (types: seq<E.Own>)
      ensures Valid() && this.types == types && Held(elements) == {}
      ensures forall i :: 0 <= i < |types| ==> Contents()[i] == E.Unset
    {
      this.types := types;
      elements, values := seq(|types|, i => UnsetElement), seq(|types|, i => E.Unset);
    }

    method Check(index: nat, own: E.Own) returns (code: Code)
      requires |types| == |elements|
      ensures code == if index >= |elements| then IndexOutOfBounds
                      else if types[index].Typed? && !E.Suits(own, types[index].t) then InvalidValueType
                      else Ok
    {
      if index >= |elements| { return IndexOutOfBounds; }
      if types[index].Typed? && !E.Suits(own, types[index].t) { return InvalidValueType; }
      return Ok;
    }

    method SetNull(index: nat) returns (code: Code)
      requires Valid()
      modifies this
      ensures Valid() && (code.Ok? <==> index < |types|)
      ensures Contents() == if code.Ok? then old(Contents())[index := E.Null] else old(Contents())
    {
      code := Check(index, E.Untyped);
      if code.Ok? { elements, values := elements[index := Nul], values[index := E.Null]; }
    }

    method SetScalar(index: nat, id: E.Basic, accepts: set<E.Basic>, bytes: Bytes) returns (code: Code)
      requires Valid() && id in accepts
      modifies this
      ensures Valid() && (code.IndexOutOfBounds? <==> index >= |types|)
      ensures code.Ok? <==> index < |types| && E.Accepted(accepts, types[index])
      ensures Contents() == if code.Ok? then
          old(Contents())[index := E.Scalar(E.ScalarId(id, accepts, types[index]), bytes)]
        else old(Contents())
    {
      var actual := E.ScalarId(id, accepts, if index < |types| then types[index] else E.Untyped);
      code := Check(index, E.OneOf(accepts));
      assert E.Field(E.Scalar(actual, bytes)) == WithLength(bytes);
      if code.Ok? {
        elements, values := elements[index := Buf(WithLength(bytes))], values[index := E.Scalar(actual, bytes)];
      }
    }

    /** A map with a key but no value is refused. */
    method SetCollection(index: nat, c: Collection) returns (code: Code)
      requires Valid() && c.Valid()
      modifies this
      ensures Valid() && (code.IndexOutOfBounds? <==> index >= |types|)
      ensures code.InvalidItemCount? ==> c.kind == E.Map && |c.values| % 2 == 1
      ensures code.Ok? <==>
        && index < |types| && (types[index].Typed? ==> E.Equals(E.Composite(c.kind, c.types), types[index].t))
        && (c.kind == E.Map ==> |c.values| % 2 == 0)
      ensures Contents() == if code.Ok? then old(Contents())[index := c.Contents()] else old(Contents())
    {
      hide E.Equals, E.Checked, E.Body, E.Fields;
      code := Check(index, E.Typed(E.Composite(c.kind, c.types)));
      if !code.Ok? { return; }
      if c.kind == E.Map && |c.items| % 2 != 0 { return InvalidItemCount; }
      elements := elements[index := Col(c)];
    }

    method SetTuple(index: nat, other: TupleData) returns (code: Code)
      requires Valid() && other.Valid()
      modifies this
      ensures Valid() && (code.IndexOutOfBounds? <==> index >= |types|)
      ensures code.Ok? <==>
        index < |types| && (types[index].Typed? ==> E.Equals(E.Composite(E.Tuple, other.types), types[index].t))
      ensures Contents() == if code.Ok? then old(Contents())[index := other.Contents()] else old(Contents())
    {
      hide E.Equals, E.Checked, E.Body, E.Fields;
      code := Check(index, E.Typed(E.Composite(E.Tuple, other.types)));
      if code.Ok? {
        var data := other.EncodeWithLength();
        elements, values := elements[index := Buf(data[..])], values[index := other.Contents()];
      }
    }

    method GetSize(i: nat) returns (size: nat)
      requires Valid() && i < |elements|
      ensures size == |E.Field(Content(elements[i], values[i]))|
    {
      assert ElementOk(elements[i], values[i]);
      match elements[i] {
        case UnsetElement => size := 4;
        case Nul => size := 4;
        case Buf(b) => size := |b|;
        case Col(c) =>
          size := c.GetItemsSize();
          size := 4 + (4 + size);
      }
    }

    method GetBuffersSize() returns (size: nat)
      requires Valid()
      ensures size == |E.Fields(Contents())|
    {
      ghost var all := Contents();
      size := 0;
      for i := 0 to |elements|
        invariant size + |E.Fields(all[i..])| == |E.Fields(all)|
      {
        ItemsSplit(all, i);
        var n := GetSize(i);
        size := size + n;
      }
      assert all[|elements|..] == [] && Contents() == all;
    }

    method CopyBuffer(i: nat, pos: nat, buf: array<byte>) returns (next: nat)
      requires Valid() && i < |elements| && pos + |E.Field(Content(elements[i], values[i]))| <= buf.Length
      modifies buf
      ensures next == pos + |E.Field(Content(elements[i], values[i]))|
      ensures buf[..next] == old(buf[..pos]) + E.Field(Content(elements[i], values[i]))
    {
      assert ElementOk(elements[i], values[i]);
      match elements[i] {
        case UnsetElement => next := EncodeInt32(buf, pos, -1);
        case Nul => next := EncodeInt32(buf, pos, -1);
        case Buf(b) => next := Copy(buf, pos, b);
        case Col(c) =>
          var encoded := c.EncodeWithLength();
          next := Copy(buf, pos, encoded[..]);
      }
    }

    method EncodeBuffers(pos: nat, buf: array<byte>)
      requires Valid() && pos + |E.Fields(Contents())| == buf.Length
      modifies buf
      ensures buf[..] == old(buf[..pos]) + E.Fields(Contents())
    {
      hide E.Fields, E.Field;
      var p: nat := pos;
      ghost var contents := Contents();
      ghost var all := buf[..pos] + E.Fields(contents);
      for i := 0 to |elements|
        invariant p <= buf.Length && buf[..p] == all[..p] && all[p..] == E.Fields(contents[i..])
      {
        ItemsSplit(contents, i);
        p := CopyBuffer(i, p, buf);
      }
      NothingLeft();
      assert contents[|elements|..] == [] && buf[..p] == buf[..] && Contents() == contents;
    }

    method Encode() returns (buf: array<byte>)
      requires Valid()
      ensures fresh(buf) && buf[..] == E.Fields(Contents())
    {
      var size := GetBuffersSize();
      ghost var contents := Contents();
      buf := new byte[size];
      assert Contents() == contents;
      EncodeBuffers(0, buf);
      assert Contents() == contents;
    }

    method EncodeWithLength() returns (buf: array<byte>)
      requires Valid()
      ensures fresh(buf) && buf[..] == WithLength(E.Fields(Contents()))
    {
      hide E.Checked, E.Body, E.Fields, Int32;
      var size := GetBuffersSize();
      ghost var contents := Contents();
      buf := new byte[4 + size];
      var pos := EncodeInt32(buf, 0, size);
      assert buf[..4] == Int32(size) && Contents() == contents;
      EncodeBuffers(pos, buf);
      assert Contents() == contents;
    }
  }
}
