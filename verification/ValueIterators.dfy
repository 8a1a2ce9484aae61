/** The cursors over the items of a collection and the fields of a tuple, and reading a whole value. */
module ValueIterators {
  import opened Wire
  import E = Encoding

  /** A cell of type `t` that lies within an input. */
  ghost predicate CellOk(t: E.Type, c: E.Cell, within: Bytes)
  {
    E.WellFormed(t) && E.CellOf(t, c) && if c.Nothing? then 0 < |within| else |c.bytes| < |within|
  }

  /** Where the decoder stands after an attempt; after an overrun it has nothing left that is real. */
  function Rest(r: E.Next): Bytes { if r.Overrun? then [] else r.rest }

  class CollectionIterator {
    const kind: E.Kind
    const types: seq<E.Type>
    const count: int
    var index: int
    var decoder: Bytes
    var overrun: bool
    var valueType: E.Type
    var value: E.Cell

    ghost predicate Valid()
      reads this
    {
      kind != E.Tuple && E.WellFormed(E.Composite(kind, types)) && index >= -1
    }

    /** What is still to come. */
    ghost function Left(): seq<E.Value>
      requires Valid()
      reads this
    {
      E.ReadItems(kind, types, index + 1, count, decoder)
    }

    /** Reading on to the end runs beyond the input. */
    ghost function Ahead(): bool
      requires Valid()
      reads this
    {
      E.ItemsOverrun(kind, types, index + 1, count, decoder)
    }

    constructor (t: E.Type, c: E.Cell)
      requires E.WellFormed(t) && E.IsCollection(t) && !c.Plain?
      ensures !overrun && Valid() && (c.Collected? ==> (Ahead() <==> E.Overruns(t, c)))
      ensures Valid() && index == -1
      ensures Left() == if c.Nothing? then [] else E.ReadItems(t.kind, t.types, 0, E.Asked(t.kind, c.count), c.bytes)
      ensures kind == t.kind && types == t.types && (c.Collected? ==> decoder == c.bytes)
    {
      kind, types, index, overrun, valueType, value := t.kind, t.types, -1, false, t, E.Nothing;
      count := if c.Nothing? then 0 else E.Asked(t.kind, c.count);
      decoder := if c.Nothing? then [] else c.bytes;
    }

    /** A map's keys are read at even positions, its values at odd ones. */
    method DecodeValue() returns (ok: bool)
      requires Valid() && index >= 0
      modifies `decoder, `overrun, `valueType, `value
      ensures var r := E.DecodeValue(E.ItemType(kind, types, index), old(decoder));
        && ok == r.Found? && decoder == Rest(r) && overrun == (old(overrun) || r.Overrun?)
        && (ok ==> valueType == E.ItemType(kind, types, index) && value == r.cell)
    {
      var t := if kind == E.Map then if index % 2 == 0 then types[0] else types[1] else types[0];
      var r := E.DecodeValue(t, decoder);
      decoder, overrun := Rest(r), overrun || r.Overrun?;
      ok := r.Found?;
      if ok { valueType, value := t, r.cell; }
    }

    /** The value it stops at is the first of what was to come, read with its own type. */
    method Next() returns (ok: bool)
      requires Valid()
      modifies `index, `decoder, `overrun, `valueType, `value
      ensures Valid() && |decoder| <= |old(decoder)|
      ensures ok <==> old(Left()) != []
      ensures ok ==> index == old(index) + 1 && |decoder| < |old(decoder)|
      ensures ok ==> valueType == E.ItemType(kind, types, index) && CellOk(valueType, value, old(decoder))
      ensures ok ==> old(Left()) == [E.Read(valueType, value)] + Left()
      ensures ok ==> overrun == old(overrun) && (old(Ahead()) <==> E.Overruns(valueType, value) || Ahead())
      ensures !ok ==> overrun == (old(overrun) || old(Ahead()))
    {
      if index + 1 >= count { return false; }
      index := index + 1;
      ok := DecodeValue();
    }
  }

  class TupleIterator {
    const types: seq<E.Type>
    var next: nat
    var decoder: Bytes
    var overrun: bool
    var valueType: E.Type
    var value: E.Cell

    ghost predicate Valid()
      reads this
    {
      E.WellFormed(E.Composite(E.Tuple, types)) && next <= |types|
    }

    ghost function Left(): seq<E.Value>
      requires Valid()
      reads this
    {
      E.ReadFields(types, next, decoder)
    }

    ghost function Ahead(): bool
      requires Valid()
      reads this
    {
      E.FieldsOverrun(types, next, decoder)
    }

    constructor (t: E.Type, c: E.Cell)
      requires E.WellFormed(t) && t.Composite? && t.kind == E.Tuple && c.Plain?
      ensures !overrun && Valid() && (Ahead() <==> E.Overruns(t, c))
      ensures Valid() && decoder == c.bytes && Left() == E.ReadFields(t.types, 0, c.bytes)
    {
      types, next, decoder, overrun, valueType, value := t.types, 0, c.bytes, false, t, E.Nothing;
    }

    method Next() returns (ok: bool)
      requires Valid()
      modifies `next, `decoder, `overrun, `valueType, `value
      ensures Valid() && |decoder| <= |old(decoder)|
      ensures ok <==> old(Left()) != []
      ensures ok ==> next == old(next) + 1 && |decoder| < |old(decoder)|
      ensures ok ==> valueType == types[old(next)] && CellOk(valueType, value, old(decoder))
      ensures ok ==> old(Left()) == [E.Read(valueType, value)] + Left()
      ensures ok ==> overrun == old(overrun) && (old(Ahead()) <==> E.Overruns(valueType, value) || Ahead())
      ensures !ok ==> overrun == (old(overrun) || old(Ahead()))
    {
      if next == |types| { return false; }
      var current := types[next];
      next := next + 1;
      var r := E.DecodeValue(current, decoder);
      decoder, overrun := Rest(r), overrun || r.Overrun?;
      ok := r.Found?;
      if ok { valueType, value := current, r.cell; }
    }
  }

  /** Iterates at every level until the iterators say there is no more. */
  method ReadAll(t: E.Type, c: E.Cell) returns (v: E.Value, overrun: bool)
    requires E.WellFormed(t) && E.CellOf(t, c)
    ensures v == E.Read(t, c) && (overrun <==> E.Overruns(t, c))
    decreases if c.Nothing? then 0 else |c.bytes|, 1
  {
    overrun := false;
    match c {
      case Nothing => v := E.Null;
      case Collected(count, bytes) =>
        var items;
        items, overrun := ReadCollection(t, c);
        v := E.Node(t.kind, t.types, items);
      case Plain(bytes) =>
        if t.Simple? {
          v := E.Scalar(t.id, bytes);
        } else {
          var items;
          items, overrun := ReadTuple(t, c);
          v := E.Node(E.Tuple, t.types, items);
        }
    }
  }

  method ReadCollection(t: E.Type, c: E.Cell) returns (items: seq<E.Value>, overrun: bool)
    requires E.WellFormed(t) && E.IsCollection(t) && c.Collected?
    ensures items == E.ReadItems(t.kind, t.types, 0, E.Asked(t.kind, c.count), c.bytes)
    ensures overrun <==> E.Overruns(t, c)
    decreases |c.bytes|, 0
  {
    hide E.Read, E.ReadItems, E.WellFormed, E.CellOf, E.ItemType, E.Shaped, E.Asked;
    hide CollectionIterator.Left, CollectionIterator.Ahead, CollectionIterator.Valid, E.Overruns;
    var it := new CollectionIterator(t, c);
    ghost var all, ahead := it.Left(), it.Ahead();
    var more := it.Next();
    items, overrun := [], false;
    while more
      invariant it.Valid() && |it.decoder| <= |c.bytes|
      invariant more ==> CellOk(it.valueType, it.value, c.bytes)
      invariant all == items + if more then [E.Read(it.valueType, it.value)] + it.Left() else []
      invariant ahead <==> overrun || if more then E.Overruns(it.valueType, it.value) || it.Ahead() else it.overrun
      invariant more ==> !it.overrun
      decreases |it.decoder|, more
    {
      var item, beyond := ReadAll(it.valueType, it.value);
      items, overrun := items + [item], overrun || beyond;
      more := it.Next();
    }
    overrun := overrun || it.overrun;
  }

  method ReadTuple(t: E.Type, c: E.Cell) returns (items: seq<E.Value>, overrun: bool)
    requires E.WellFormed(t) && t.Composite? && t.kind == E.Tuple && c.Plain?
    ensures items == E.ReadFields(t.types, 0, c.bytes) && (overrun <==> E.Overruns(t, c))
    decreases |c.bytes|, 0
  {
    hide E.Read, E.ReadFields, E.WellFormed, E.CellOf, E.Overruns;
    hide TupleIterator.Left, TupleIterator.Ahead, TupleIterator.Valid;
    var it := new TupleIterator(t, c);
    ghost var all, ahead := it.Left(), it.Ahead();
    var more := it.Next();
    items, overrun := [], false;
    while more
      invariant it.Valid() && |it.decoder| <= |c.bytes|
      invariant more ==> CellOk(it.valueType, it.value, c.bytes)
      invariant all == items + if more then [E.Read(it.valueType, it.value)] + it.Left() else []
      invariant ahead <==> overrun || if more then E.Overruns(it.valueType, it.value) || it.Ahead() else it.overrun
      invariant more ==> !it.overrun
      decreases |it.decoder|, more
    {
      var item, beyond := ReadAll(it.valueType, it.value);
      items, overrun := items + [item], overrun || beyond;
      more := it.Next();
    }
    overrun := overrun || it.overrun;
  }
}
