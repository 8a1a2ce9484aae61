/**
 The buffer object itself, with its union and the counted blocks on the heap. `live` are the buffers
 alive and `blocks` the blocks not freed; every method keeps each block's count equal to the number
 of live buffers that hold it.
 */
module BufferObjects {
  import opened Sequences
  import opened Wire
  import Buffers

  const FIXED := Buffers.FIXED

  class RefBuffer {
    var refs: nat
    var data: Bytes

    constructor (data: Bytes)
      ensures refs == 0 && this.data == data
    {
      refs, this.data := 0, data;
    }

    method IncRef()
      modifies `refs
      ensures refs == old(refs) + 1
    {
      refs := refs + 1;
    }

    /** The holder of the last reference frees the block. */
    method DecRef() returns (free: bool)
      requires refs > 0
      modifies `refs
      ensures refs == old(refs) - 1 && (free <==> refs == 0)
    {
      refs := refs - 1;
      free := refs == 0;
    }
  }

  datatype Data = Fixed(bytes: Bytes) | Pointer(block: RefBuffer) | NoData

  ghost function Holders(live: set<Buffer>, r: RefBuffer): set<Buffer>
    reads live
  {
    set b | b in live && b.Holds(r)
  }

  ghost predicate World(live: set<Buffer>, blocks: set<RefBuffer>)
    reads live, blocks
  {
    && (forall b :: b in live ==> b.Valid(blocks))
    && (forall r :: r in blocks ==> r.refs == |Holders(live, r)| > 0)
  }

  lemma Moved(before: set<Buffer>, after: set<Buffer>, x: Buffer)
    requires forall b :: b != x ==> (b in before <==> b in after)
    ensures |after| == |before| - Bit(x in before) + Bit(x in after)
  {
    var rest := before - {x};
    assert before == if x in before then rest + {x} else rest;
    assert after == if x in after then rest + {x} else rest;
  }

  /** A new buffer is the only holder of its block. */
  lemma Joined(b: Buffer, live: set<Buffer>, blocks: set<RefBuffer>)
    requires World(live, blocks) && b !in live && b.Valid(blocks + b.Own())
    requires forall r :: r in b.Own() ==> r.refs == 1 && r !in blocks
    ensures World(live + {b}, blocks + b.Own())
  {
    forall r | r in blocks ensures r.refs == |Holders(live + {b}, r)| {
      assert Holders(live + {b}, r) == Holders(live, r);
    }
    forall c | c in live ensures c.Valid(blocks + b.Own()) && forall r :: r in b.Own() ==> !c.Holds(r) {
      assert c.Valid(blocks);
    }
    forall r | r in b.Own() ensures r.refs == |Holders(live + {b}, r)| {
      assert Holders(live + {b}, r) == {b};
    }
  }

  /** Dropping the blocks whose count is zero drops no block that is held. */
  lemma Settled(live: set<Buffer>, blocks: set<RefBuffer>, left: set<RefBuffer>)
    requires forall b :: b in live ==> b.Valid(blocks)
    requires forall r :: r in blocks ==> r.refs == |Holders(live, r)|
    requires forall r :: r in left <==> r in blocks && r.refs > 0
    ensures World(live, left) && forall b :: b in live ==> b.Contents(left) == b.Contents(blocks)
  {
    forall b | b in live ensures b.Valid(left) {
      if b.size > FIXED { assert b in Holders(live, b.data.block); }
    }
  }

  class Buffer {
    var size: nat
    var data: Data

    ghost predicate Holds(r: RefBuffer)
      reads this
    {
      size > FIXED && data == Pointer(r)
    }

    ghost predicate Valid(blocks: set<RefBuffer>)
      reads this, blocks
    {
      if size > FIXED then data.Pointer? && data.block in blocks && |data.block.data| == size
      else size > 0 ==> data.Fixed? && |data.bytes| == size
    }

    ghost function Contents(blocks: set<RefBuffer>): Bytes
      requires Valid(blocks)
      reads this, blocks
    {
      if size > FIXED then data.block.data else if size > 0 then data.bytes else []
    }

    ghost function Own(): set<RefBuffer>
      reads this
    {
      if size > FIXED && data.Pointer? then {data.block} else {}
    }

    constructor (bytes: Bytes, ghost live: set<Buffer>, ghost blocks: set<RefBuffer>)
      requires World(live, blocks)
      ensures fresh(Own()) && World(live + {this}, blocks + Own())
      ensures Contents(blocks + Own()) == bytes
    {
      size := |bytes|;
      if |bytes| > FIXED {
        var block := new RefBuffer(bytes);
        block.IncRef();
        data := Pointer(block);
      } else if |bytes| > 0 {
        data := Fixed(bytes);
      } else {
        data := NoData;
      }
      new;
      Joined(this, live, blocks);
    }

    /** Takes over the contents of a buffer that may be this one: the new block is counted before
        the old one is let go. */
    method Rebind(buf: Buffer, ghost blocks: set<RefBuffer>) returns (ghost left: set<RefBuffer>)
      requires Valid(blocks) && buf.Valid(blocks) && forall r :: r in blocks ==> r.refs > 0
      modifies this, blocks`refs
      ensures size == old(buf.size) && (size > 0 ==> data == old(buf.data))
      ensures forall r :: r in blocks ==> r.refs == old(r.refs) + Bit(old(buf.Holds(r))) - Bit(old(Holds(r)))
      ensures forall r :: r in left <==> r in blocks && r.refs > 0
    {
      left := blocks;
      var temp := data;
      if buf.size > FIXED {
        buf.data.block.IncRef();
        data := buf.data;
      } else if buf.size > 0 {
        data := buf.data;
      }
      if size > FIXED {
        var free := temp.block.DecRef();
        if free { left := left - {temp.block}; }
      }
      size := buf.size;
    }

    method Copy(buf: Buffer, ghost live: set<Buffer>, ghost blocks: set<RefBuffer>)
      returns (ghost left: set<RefBuffer>)
      requires this in live && buf in live && World(live, blocks)
      modifies this, blocks`refs
      ensures left <= blocks && World(live, left)
      ensures Contents(left) == old(buf.Contents(blocks))
      ensures forall b :: b in live && b != this ==> b.Contents(left) == old(b.Contents(blocks))
    {
      left := Rebind(buf, blocks);
      forall r | r in blocks ensures r.refs == |Holders(live, r)| {
        assert this in old(Holders(live, r)) <==> old(Holds(r));
        assert Holds(r) == old(buf.Holds(r));
        Moved(old(Holders(live, r)), Holders(live, r), this);
      }
      forall b | b in live ensures b.Valid(blocks) {
        assert old(b.Valid(blocks)) && old(buf.Valid(blocks));
      }
      Settled(live, blocks, left);
    }

    method Release(ghost blocks: set<RefBuffer>) returns (ghost left: set<RefBuffer>)
      requires Valid(blocks) && forall r :: r in blocks ==> r.refs > 0
      modifies blocks`refs
      ensures forall r :: r in blocks ==> r.refs == old(r.refs) - Bit(Holds(r))
      ensures forall r :: r in left <==> r in blocks && r.refs > 0
    {
      left := blocks;
      if size > FIXED {
        var free := data.block.DecRef();
        if free { left := left - {data.block}; }
      }
    }

    /** Letting a buffer go frees its block exactly when nobody else holds it. */
    method Destroy(ghost live: set<Buffer>, ghost blocks: set<RefBuffer>) returns (ghost left: set<RefBuffer>)
      requires this in live && World(live, blocks)
      modifies blocks`refs
      ensures left <= blocks && World(live - {this}, left)
      ensures forall b :: b in live && b != this ==> b.Contents(left) == old(b.Contents(blocks))
    {
      left := Release(blocks);
      forall r | r in blocks ensures r.refs == |Holders(live - {this}, r)| {
        Moved(old(Holders(live, r)), Holders(live - {this}, r), this);
      }
      forall b | b in live - {this} ensures b.Valid(blocks) { assert old(b.Valid(blocks)); }
      Settled(live - {this}, blocks, left);
    }
  }
}
