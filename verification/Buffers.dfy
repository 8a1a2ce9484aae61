/**
 Buffers that hold up to sixteen bytes themselves and share a counted block when they are larger.
 The storage is a union: what is in it is told by the size alone.
 */
module Buffers {
  import opened Sequences
  import opened Wire

  const FIXED: nat := 16

  datatype Data = Fixed(bytes: Bytes) | Pointer(block: nat) | NoData

  datatype Buffer = Buffer(size: nat, data: Data)

  datatype Block = Block(refs: nat, data: Bytes)

  /** `next` is the name of the next block to be allocated; freed names are not used again. */
  datatype Memory = Memory(buffers: map<nat, Buffer>, blocks: map<nat, Block>, next: nat)

  /** `Create` stands for both constructors from a size: what a buffer holds that was made without
      data is as good as any data. */
  datatype Op =
    | Create(id: nat, data: Bytes)
    | CopyNew(id: nat, from: nat)
    | Assign(id: nat, from: nat)
    | Write(id: nat, offset: nat, bytes: Bytes)
    | Destroy(id: nat)

  const Start := Memory(map[], map[], 0)

  // ---------------------------------------------------------------- operations

  function IncRef(m: Memory, r: nat): Memory
  {
    if r !in m.blocks then m else m.(blocks := m.blocks[r := m.blocks[r].(refs := m.blocks[r].refs + 1)])
  }

  /** The last reference frees the block. */
  function DecRef(m: Memory, r: nat): Memory
  {
    if r !in m.blocks then m
    else if m.blocks[r].refs <= 1 then m.(blocks := m.blocks - {r})
    else m.(blocks := m.blocks[r := m.blocks[r].(refs := m.blocks[r].refs - 1)])
  }

  function Construct(m: Memory, id: nat, data: Bytes): Memory
  {
    if |data| > FIXED then
      Memory(m.buffers[id := Buffer(|data|, Pointer(m.next))], m.blocks[m.next := Block(1, data)], m.next + 1)
    else if |data| > 0 then m.(buffers := m.buffers[id := Buffer(|data|, Fixed(data))])
    else m.(buffers := m.buffers[id := Buffer(0, NoData)])
  }

  /** The new block is counted before the old one is let go, so that assigning a buffer to itself
      does not free what it holds. */
  function Copy(m: Memory, id: nat, from: nat): Memory
    requires id in m.buffers && from in m.buffers
  {
    var to, buf := m.buffers[id], m.buffers[from];
    var held := if buf.size > FIXED && buf.data.Pointer? then IncRef(m, buf.data.block) else m;
    var data := if buf.size > 0 then buf.data else to.data;
    var kept := if to.size > FIXED && to.data.Pointer? then DecRef(held, to.data.block) else held;
    kept.(buffers := kept.buffers[id := Buffer(buf.size, data)])
  }

  function Free(m: Memory, id: nat): Memory
    requires id in m.buffers
  {
    var b := m.buffers[id];
    var kept := if b.size > FIXED && b.data.Pointer? then DecRef(m, b.data.block) else m;
    kept.(buffers := kept.buffers - {id})
  }

  function Overwrite(data: Bytes, offset: nat, bytes: Bytes): Bytes
  {
    if offset + |bytes| > |data| then data else data[..offset] + bytes + data[offset + |bytes|..]
  }

  /** Writing goes to the block, without looking at who else refers to it. */
  function Encode(m: Memory, id: nat, offset: nat, bytes: Bytes): Memory
    requires id in m.buffers
  {
    var b := m.buffers[id];
    if b.size > FIXED then
      if b.data.Pointer? && b.data.block in m.blocks then
        var r := b.data.block;
        m.(blocks := m.blocks[r := m.blocks[r].(data := Overwrite(m.blocks[r].data, offset, bytes))])
      else m
    else if b.data.Fixed? then m.(buffers := m.buffers[id := b.(data := Fixed(Overwrite(b.data.bytes, offset, bytes)))])
    else m
  }

  function Step(m: Memory, op: Op): Memory
  {
    match op
    case Create(id, data) => Construct(m, id, data)
    case CopyNew(id, from) => if from in m.buffers then Copy(Construct(m, id, []), id, from) else m
    case Assign(id, from) => if id in m.buffers && from in m.buffers then Copy(m, id, from) else m
    case Write(id, offset, bytes) => if id in m.buffers then Encode(m, id, offset, bytes) else m
    case Destroy(id) => if id in m.buffers then Free(m, id) else m
  }

  /** Objects are constructed once, used while they live, and written within their size. */
  predicate Enabled(m: Memory, op: Op)
  {
    match op
    case Create(id, _) => id !in m.buffers
    case CopyNew(id, from) => id !in m.buffers && from in m.buffers
    case Assign(id, from) => id in m.buffers && from in m.buffers
    case Write(id, offset, bytes) => id in m.buffers && offset + |bytes| <= m.buffers[id].size
    case Destroy(id) => id in m.buffers
  }

  function Run(m: Memory, ops: seq<Op>): Memory
  {
    if ops == [] then m else Step(Run(m, ops[..|ops| - 1]), ops[|ops| - 1])
  }

  predicate Legal(m: Memory, ops: seq<Op>)
  {
    ops != [] ==> Legal(m, ops[..|ops| - 1]) && Enabled(Run(m, ops[..|ops| - 1]), ops[|ops| - 1])
  }

  // ---------------------------------------------------------------- counting

  predicate RefersTo(b: Buffer, r: nat) { b.size > FIXED && b.data == Pointer(r) }

  /** The live buffers whose bytes are in block `r`. */
  function Holders(m: Memory, r: nat): set<nat>
  {
    set id | id in m.buffers && RefersTo(m.buffers[id], r)
  }

  /** What is in the union fits the size, and no buffer refers to a block that was freed. */
  predicate BufferOk(m: Memory, b: Buffer)
  {
    if b.size > FIXED then b.data.Pointer? && b.data.block in m.blocks && |m.blocks[b.data.block].data| == b.size
    else b.size > 0 ==> b.data.Fixed? && |b.data.bytes| == b.size
  }

  predicate NoneDangles(m: Memory) { forall id :: id in m.buffers ==> BufferOk(m, m.buffers[id]) }

  /** Every block is counted exactly, and none is kept that nobody holds. */
  predicate Counted(m: Memory)
  {
    forall r :: r in m.blocks ==> r < m.next && m.blocks[r].refs == |Holders(m, r)| && m.blocks[r].refs > 0
  }

  predicate Inv(m: Memory) { NoneDangles(m) && Counted(m) }

  /** Giving buffer `id` new contents moves it between the holders of at most two blocks. */
  lemma HoldersAfter(m: Memory, n: Memory, id: nat, b: Buffer, r: nat)
    requires n.buffers == m.buffers[id := b]
    ensures |Holders(n, r)| == |Holders(m, r)| - Bit(id in Holders(m, r)) + Bit(RefersTo(b, r))
  {
    var rest := Holders(m, r) - {id};
    assert Holders(m, r) == if id in Holders(m, r) then rest + {id} else rest;
    assert Holders(n, r) == if RefersTo(b, r) then rest + {id} else rest;
  }

  lemma NobodyHolds(m: Memory, r: nat)
    requires NoneDangles(m) && r !in m.blocks
    ensures Holders(m, r) == {}
  {
    forall k | k in m.buffers ensures !RefersTo(m.buffers[k], r) { assert BufferOk(m, m.buffers[k]); }
  }

  lemma ConstructCounts(m: Memory, id: nat, data: Bytes)
    requires Inv(m) && id !in m.buffers
    ensures Counted(Construct(m, id, data))
  {
    var n := Construct(m, id, data);
    hide NoneDangles;
    forall r | r in n.blocks ensures r < n.next && n.blocks[r].refs == |Holders(n, r)| > 0 {
      HoldersAfter(m, n, id, n.buffers[id], r);
      assert id !in Holders(m, r);
      if r !in m.blocks { NobodyHolds(m, r); }
    }
  }

  lemma ConstructKeeps(m: Memory, id: nat, data: Bytes)
    requires Inv(m) && id !in m.buffers
    ensures Inv(Construct(m, id, data))
  {
    hide Counted;
    ConstructCounts(m, id, data);
    var n := Construct(m, id, data);
    forall k | k in n.buffers ensures BufferOk(n, n.buffers[k]) {
      if k != id {
        assert BufferOk(m, m.buffers[k]);
        assert m.next !in m.blocks by { NextIsNew(m); }
      }
    }
  }

  lemma NextIsNew(m: Memory)
    requires Counted(m)
    ensures m.next !in m.blocks
  {
  }

  lemma CopyKeeps(m: Memory, id: nat, from: nat)
    requires Inv(m) && id in m.buffers && from in m.buffers
    ensures Inv(Copy(m, id, from))
  {
    var n := Copy(m, id, from);
    assert BufferOk(m, m.buffers[id]) && BufferOk(m, m.buffers[from]);
    CopyCounts(m, id, from);
    forall k | k in n.buffers ensures BufferOk(n, n.buffers[k]) {
      var source := if k == id then from else k;
      assert BufferOk(m, m.buffers[source]);
      var b := n.buffers[k];
      if b.size > FIXED {
        HoldersAfter(m, n, id, n.buffers[id], b.data.block);
        assert k in Holders(n, b.data.block);
      }
    }
  }

  /** After a copy a block is there exactly if somebody holds it, with the right count. */
  lemma CopyCounts(m: Memory, id: nat, from: nat)
    requires Inv(m) && id in m.buffers && from in m.buffers
    ensures var n := Copy(m, id, from);
      && n.buffers == m.buffers[id := n.buffers[id]]
      && (forall r :: r in n.blocks <==> r in m.blocks && |Holders(n, r)| > 0)
      && (forall r :: r in n.blocks ==> n.blocks[r].data == m.blocks[r].data && n.blocks[r].refs == |Holders(n, r)|)
      && Counted(n)
  {
    var n := Copy(m, id, from);
    assert BufferOk(m, m.buffers[id]) && BufferOk(m, m.buffers[from]);
    forall r | r in m.blocks
      ensures r in n.blocks <==> |Holders(n, r)| > 0
      ensures r in n.blocks ==> n.blocks[r].data == m.blocks[r].data && n.blocks[r].refs == |Holders(n, r)|
    {
      CopyCountsAt(m, id, from, r);
    }
    assert n.next == m.next && forall r :: r in n.blocks ==> r in m.blocks;
    hide Copy;
  }

  lemma CopyCountsAt(m: Memory, id: nat, from: nat, r: nat)
    requires id in m.buffers && from in m.buffers && BufferOk(m, m.buffers[id]) && BufferOk(m, m.buffers[from])
    requires r in m.blocks && m.blocks[r].refs == |Holders(m, r)| > 0
    ensures var n := Copy(m, id, from);
      && (r in n.blocks <==> |Holders(n, r)| > 0)
      && (r in n.blocks ==> n.blocks[r].data == m.blocks[r].data && n.blocks[r].refs == |Holders(n, r)|)
  {
    var n := Copy(m, id, from);
    assert n.buffers == m.buffers[id := n.buffers[id]] && RefersTo(n.buffers[id], r) == RefersTo(m.buffers[from], r);
    hide Copy;
    assert id in Holders(m, r) <==> RefersTo(m.buffers[id], r);
    HoldersAfter(m, n, id, n.buffers[id], r);
    hide Holders;
  }

  lemma FreeKeeps(m: Memory, id: nat)
    requires Inv(m) && id in m.buffers
    ensures Inv(Free(m, id))
  {
    var n := Free(m, id);
    assert BufferOk(m, m.buffers[id]);
    forall r | r in m.blocks ensures Holders(n, r) == Holders(m, r) - {id} { }
    forall k | k in n.buffers ensures BufferOk(n, n.buffers[k]) {
      assert BufferOk(m, m.buffers[k]);
      if m.buffers[k].size > FIXED {
        var r := m.buffers[k].data.block;
        assert k in Holders(m, r);
        assert RefersTo(m.buffers[id], r) ==> id in Holders(m, r) && {id, k} <= Holders(m, r);
        if RefersTo(m.buffers[id], r) { SubsetSize({id, k}, Holders(m, r)); }
      }
    }
  }

  lemma {:induction false} SubsetSize(a: set<nat>, b: set<nat>)
    requires a <= b
    ensures |a| <= |b|
  {
    assert b == a + (b - a);
  }

  lemma WriteKeeps(m: Memory, id: nat, offset: nat, bytes: Bytes)
    requires Inv(m) && id in m.buffers
    ensures Inv(Encode(m, id, offset, bytes))
  {
    var n := Encode(m, id, offset, bytes);
    assert BufferOk(m, m.buffers[id]);
    forall r ensures Holders(n, r) == Holders(m, r) {
      forall k | k in m.buffers ensures RefersTo(n.buffers[k], r) == RefersTo(m.buffers[k], r) { }
    }
    forall k | k in n.buffers ensures BufferOk(n, n.buffers[k]) {
      assert BufferOk(m, m.buffers[k]);
    }
  }

  lemma StepKeeps(m: Memory, op: Op)
    requires Inv(m) && Enabled(m, op)
    ensures Inv(Step(m, op))
  {
    hide Inv, Construct, Copy, Encode, Free;
    match op
    case Create(id, data) => ConstructKeeps(m, id, data);
    case CopyNew(id, from) =>
      ConstructKeeps(m, id, []);
      EmptyConstruct(m, id);
      CopyKeeps(Construct(m, id, []), id, from);
    case Assign(id, from) => CopyKeeps(m, id, from);
    case Write(id, offset, bytes) => WriteKeeps(m, id, offset, bytes);
    case Destroy(id) => FreeKeeps(m, id);
  }

  lemma EmptyConstruct(m: Memory, id: nat)
    ensures Construct(m, id, []).buffers == m.buffers[id := Buffer(0, NoData)]
    ensures Construct(m, id, []).blocks == m.blocks
  {
  }

  lemma {:induction false} RunKeeps(m: Memory, ops: seq<Op>)
    requires Inv(m) && Legal(m, ops)
    ensures Inv(Run(m, ops))
  {
    hide Inv, Step;
    if ops != [] {
      RunKeeps(m, ops[..|ops| - 1]);
      StepKeeps(Run(m, ops[..|ops| - 1]), ops[|ops| - 1]);
    }
  }

  /** After any sequence of operations every block's count is the number of live buffers over
      sixteen bytes that point to it, every such buffer's block is still there, and when the last
      buffer is gone so are all blocks. */
  lemma CountsAlwaysMatch(ops: seq<Op>)
    requires Legal(Start, ops)
    ensures var m := Run(Start, ops);
      && (forall r :: r in m.blocks ==> m.blocks[r].refs == |Holders(m, r)| > 0)
      && (forall id :: id in m.buffers ==> BufferOk(m, m.buffers[id]))
      && (m.buffers == map[] ==> m.blocks == map[])
  {
    RunKeeps(Start, ops);
    var m := Run(Start, ops);
    if m.buffers == map[] {
      forall r ensures r !in m.blocks { assert Holders(m, r) == {}; }
    }
  }

  // ---------------------------------------------------------------- buffers as values

  function Contents(m: Memory, id: nat): Bytes
    requires id in m.buffers && BufferOk(m, m.buffers[id])
  {
    var b := m.buffers[id];
    if b.size > FIXED then m.blocks[b.data.block].data else if b.size > 0 then b.data.bytes else []
  }

  /** The reference: every buffer has its own bytes. */
  function ValueStep(v: map<nat, Bytes>, op: Op): map<nat, Bytes>
  {
    match op
    case Create(id, data) => v[id := data]
    case CopyNew(id, from) => if from in v then v[id := v[from]] else v
    case Assign(id, from) => if id in v && from in v then v[id := v[from]] else v
    case Write(id, offset, bytes) => if id in v then v[id := Overwrite(v[id], offset, bytes)] else v
    case Destroy(id) => v - {id}
  }

  function ValueRun(v: map<nat, Bytes>, ops: seq<Op>): map<nat, Bytes>
  {
    if ops == [] then v else ValueStep(ValueRun(v, ops[..|ops| - 1]), ops[|ops| - 1])
  }

  ghost predicate Holds(m: Memory, v: map<nat, Bytes>)
    requires Inv(m)
  {
    (forall id :: id in m.buffers <==> id in v) && forall id :: id in m.buffers ==> Contents(m, id) == v[id]
  }

  /** A write nobody else can see: the buffer is small or is the only holder of its block. */
  predicate Unshared(m: Memory, op: Op)
  {
    op.Write? && op.id in m.buffers && m.buffers[op.id].size > FIXED && m.buffers[op.id].data.Pointer? ==>
      Holders(m, m.buffers[op.id].data.block) == {op.id}
  }

  /** A write that leaves a shared block as it was. */
  predicate Unchanging(m: Memory, op: Op)
  {
    && op.Write? && op.id in m.buffers && m.buffers[op.id].data.Pointer? && m.buffers[op.id].data.block in m.blocks
    && var data := m.blocks[m.buffers[op.id].data.block].data;
    && Overwrite(data, op.offset, op.bytes) == data
  }

  /** What can be told before each operation: nobody else holds the block, or it does not change. */
  predicate Invisible(m: Memory, op: Op) { Unshared(m, op) || Unchanging(m, op) }

  predicate AlwaysInvisible(m: Memory, ops: seq<Op>)
  {
    ops != [] ==> AlwaysInvisible(m, ops[..|ops| - 1]) && Invisible(Run(m, ops[..|ops| - 1]), ops[|ops| - 1])
  }

  lemma CopyHolds(m: Memory, v: map<nat, Bytes>, id: nat, from: nat)
    requires Inv(m) && Holds(m, v) && id in m.buffers && from in m.buffers
    ensures Inv(Copy(m, id, from)) && Holds(Copy(m, id, from), v[id := v[from]])
  {
    CopyKeeps(m, id, from);
    CopyCounts(m, id, from);
    var n := Copy(m, id, from);
    forall k | k in n.buffers ensures Contents(n, k) == v[id := v[from]][k] {
      var source := if k == id then from else k;
      assert BufferOk(m, m.buffers[source]) && BufferOk(n, n.buffers[k]);
      assert Contents(n, k) == Contents(m, source);
    }
  }

  lemma WriteHolds(m: Memory, v: map<nat, Bytes>, id: nat, offset: nat, bytes: Bytes)
    requires Inv(m) && Holds(m, v) && Enabled(m, Write(id, offset, bytes)) && Unshared(m, Write(id, offset, bytes))
    ensures Inv(Encode(m, id, offset, bytes))
    ensures Holds(Encode(m, id, offset, bytes), v[id := Overwrite(v[id], offset, bytes)])
  {
    WriteKeeps(m, id, offset, bytes);
    var n := Encode(m, id, offset, bytes);
    assert BufferOk(m, m.buffers[id]) && BufferOk(n, n.buffers[id]);
    assert Contents(n, id) == Overwrite(Contents(m, id), offset, bytes);
    assert n.buffers.Keys == m.buffers.Keys;
    forall k | k in n.buffers && k != id ensures Contents(n, k) == v[k] {
      WriteElsewhere(m, id, offset, bytes, k);
    }
    hide Encode, Inv, Contents;
  }

  lemma WriteElsewhere(m: Memory, id: nat, offset: nat, bytes: Bytes, k: nat)
    requires Inv(m) && id in m.buffers && Unshared(m, Write(id, offset, bytes)) && k in m.buffers && k != id
    ensures var n := Encode(m, id, offset, bytes);
      k in n.buffers && BufferOk(n, n.buffers[k]) && BufferOk(m, m.buffers[k]) && Contents(n, k) == Contents(m, k)
  {
    hide Counted, Overwrite;
    assert BufferOk(m, m.buffers[id]) && BufferOk(m, m.buffers[k]);
    if m.buffers[id].size > FIXED {
      assert k !in Holders(m, m.buffers[id].data.block);
    }
  }

  /** The buffers other than `id` are the same, and the blocks that are left have the same data. */
  predicate OthersSame(m: Memory, n: Memory, id: nat)
  {
    && (forall k :: k in n.buffers && k != id ==> k in m.buffers && n.buffers[k] == m.buffers[k])
    && (forall r :: r in m.blocks && r in n.blocks ==> n.blocks[r].data == m.blocks[r].data)
  }

  lemma OthersHold(m: Memory, n: Memory, v: map<nat, Bytes>, id: nat, k: nat)
    requires Inv(m) && Holds(m, v) && Inv(n) && OthersSame(m, n, id) && k in n.buffers && k != id
    ensures BufferOk(n, n.buffers[k]) && Contents(n, k) == v[k]
  {
    hide Counted;
    assert BufferOk(n, n.buffers[k]) && BufferOk(m, m.buffers[k]);
  }

  lemma ConstructFrame(m: Memory, id: nat, data: Bytes)
    requires Inv(m) && id !in m.buffers
    ensures var n := Construct(m, id, data);
      && OthersSame(m, n, id) && (forall k :: k in n.buffers <==> k in m.buffers || k == id)
      && BufferOk(n, n.buffers[id]) && Contents(n, id) == data
  {
    NextIsNew(m);
    hide Inv, NoneDangles, Counted;
  }

  lemma FreeFrame(m: Memory, id: nat)
    requires id in m.buffers
    ensures OthersSame(m, Free(m, id), id) && forall k :: k in Free(m, id).buffers <==> k in m.buffers && k != id
  {
  }

  lemma ConstructHolds(m: Memory, v: map<nat, Bytes>, id: nat, data: Bytes)
    requires Inv(m) && Holds(m, v) && id !in m.buffers
    ensures Inv(Construct(m, id, data)) && Holds(Construct(m, id, data), v[id := data])
  {
    hide Construct, Inv, OthersSame, Contents, BufferOk;
    ConstructKeeps(m, id, data);
    ConstructFrame(m, id, data);
    var n := Construct(m, id, data);
    forall k | k in n.buffers && k != id ensures BufferOk(n, n.buffers[k]) && Contents(n, k) == v[k] {
      OthersHold(m, n, v, id, k);
    }
  }

  lemma FreeHolds(m: Memory, v: map<nat, Bytes>, id: nat)
    requires Inv(m) && Holds(m, v) && id in m.buffers
    ensures Inv(Free(m, id)) && Holds(Free(m, id), v - {id})
  {
    hide Free, Inv, OthersSame, Contents, BufferOk;
    FreeKeeps(m, id);
    FreeFrame(m, id);
    var n := Free(m, id);
    forall k | k in n.buffers ensures BufferOk(n, n.buffers[k]) && Contents(n, k) == v[k] {
      OthersHold(m, n, v, id, k);
    }
  }

  lemma StepHolds(m: Memory, v: map<nat, Bytes>, op: Op)
    requires Inv(m) && Holds(m, v) && Enabled(m, op) && Unshared(m, op)
    ensures Inv(Step(m, op)) && Holds(Step(m, op), ValueStep(v, op))
  {
    hide Inv, Copy, Encode, Contents, Unshared, Construct, Free;
    match op
    case Create(id, data) => ConstructHolds(m, v, id, data);
    case Destroy(id) => FreeHolds(m, v, id);
    case CopyNew(id, from) =>
      ConstructHolds(m, v, id, []);
      EmptyConstruct(m, id);
      CopyHolds(Construct(m, id, []), v[id := []], id, from);
      assert v[id := []][id := v[from]] == v[id := v[from]];
    case Assign(id, from) =>
      CopyHolds(m, v, id, from);
    case Write(id, offset, bytes) =>
      WriteHolds(m, v, id, offset, bytes);
  }

  lemma UnchangingHolds(m: Memory, v: map<nat, Bytes>, op: Op)
    requires Inv(m) && Holds(m, v) && Enabled(m, op) && Unchanging(m, op) && m.buffers[op.id].size > FIXED
    ensures Step(m, op) == m && ValueStep(v, op) == v
  {
    assert BufferOk(m, m.buffers[op.id]);
    assert Contents(m, op.id) == v[op.id];
    var r := m.buffers[op.id].data.block;
    assert m.blocks[r := m.blocks[r].(data := m.blocks[r].data)] == m.blocks;
    assert v[op.id := v[op.id]] == v;
  }

  /** A write to a block with two holders that changes it makes the other buffer change with it. */
  lemma SharedWriteShows(m: Memory, v: map<nat, Bytes>, id: nat, other: nat, offset: nat, bytes: Bytes)
    requires Inv(m) && Holds(m, v) && Enabled(m, Write(id, offset, bytes))
    requires other in m.buffers && other != id
    requires m.buffers[id].size > FIXED && m.buffers[other] == m.buffers[id]
    requires Overwrite(v[id], offset, bytes) != v[id]
    ensures Inv(Encode(m, id, offset, bytes))
    ensures !Holds(Encode(m, id, offset, bytes), v[id := Overwrite(v[id], offset, bytes)])
  {
    WriteKeeps(m, id, offset, bytes);
    var n := Encode(m, id, offset, bytes);
    assert BufferOk(m, m.buffers[id]) && BufferOk(n, n.buffers[id]) && BufferOk(n, n.buffers[other]);
    assert Contents(m, id) == Contents(m, other) && Contents(n, other) == Contents(n, id);
  }

  /** Somebody else holds the block of a buffer that is not its only holder, with the same size. */
  lemma OtherHolder(m: Memory, op: Op) returns (other: nat)
    requires Inv(m) && Enabled(m, op) && op.Write? && !Unshared(m, op)
    ensures other in m.buffers && other != op.id && m.buffers[other] == m.buffers[op.id] && m.buffers[op.id].size > FIXED
  {
    hide Counted;
    var r := m.buffers[op.id].data.block;
    assert BufferOk(m, m.buffers[op.id]);
    assert op.id in Holders(m, r);
    other :| other in Holders(m, r) && other != op.id;
    assert BufferOk(m, m.buffers[other]);
  }

  /** From buffers that hold what independent byte strings would, an operation leads to such buffers
      exactly if it is invisible. */
  lemma StepHoldsExactlyWhen(m: Memory, v: map<nat, Bytes>, op: Op)
    requires Inv(m) && Holds(m, v) && Enabled(m, op)
    ensures Inv(Step(m, op))
    ensures Holds(Step(m, op), ValueStep(v, op)) <==> Invisible(m, op)
  {
    hide Inv, Holds, Construct, Copy, Free, Unshared, Unchanging, Encode;
    StepKeeps(m, op);
    if Unshared(m, op) {
      StepHolds(m, v, op);
    } else {
      NotUnshared(m, op);
      var other := OtherHolder(m, op);
      if Unchanging(m, op) {
        UnchangingHolds(m, v, op);
      } else {
        ChangingWrite(m, v, op);
        SharedWriteShows(m, v, op.id, other, op.offset, op.bytes);
      }
    }
  }

  lemma NotUnshared(m: Memory, op: Op)
    requires !Unshared(m, op)
    ensures op.Write? && op.id in m.buffers
  {
  }

  lemma ChangingWrite(m: Memory, v: map<nat, Bytes>, op: Op)
    requires Inv(m) && Holds(m, v) && Enabled(m, op) && op.Write? && m.buffers[op.id].size > FIXED && !Unchanging(m, op)
    ensures op.id in v && Overwrite(v[op.id], op.offset, op.bytes) != v[op.id]
  {
    assert BufferOk(m, m.buffers[op.id]);
    assert Contents(m, op.id) == v[op.id];
  }

  /** After every operation so far the buffers held what independent byte strings would hold. */
  ghost predicate HeldThroughout(ops: seq<Op>)
  {
    && Inv(Run(Start, ops)) && Holds(Run(Start, ops), ValueRun(map[], ops))
    && (ops != [] ==> HeldThroughout(ops[..|ops| - 1]))
  }

  /** Sharing shows exactly when a write changes a block that another buffer holds: without such a
      write the buffers behave as independent byte strings in every run, with one they do not. */
  lemma {:induction false} BehavesAsValuesExactlyWhen(ops: seq<Op>)
    requires Legal(Start, ops)
    ensures HeldThroughout(ops) <==> AlwaysInvisible(Start, ops)
  {
    if ops != [] {
      hide Step, ValueStep, Inv, Holds, Invisible, Enabled;
      var rest := ops[..|ops| - 1];
      BehavesAsValuesExactlyWhen(rest);
      RunKeeps(Start, ops);
      if HeldThroughout(rest) {
        StepHoldsExactlyWhen(Run(Start, rest), ValueRun(map[], rest), ops[|ops| - 1]);
      }
    } else {
      assert Holds(Start, map[]);
    }
  }

  /** A write puts the given bytes at their place and leaves the others and the length alone. */
  lemma OverwriteExact(data: Bytes, offset: nat, bytes: Bytes, k: nat)
    requires offset + |bytes| <= |data| && k < |data|
    ensures var after := Overwrite(data, offset, bytes);
      |after| == |data| && after[k] == if offset <= k < offset + |bytes| then bytes[k - offset] else data[k]
  {
  }

  /** A buffer has a block exactly if it is made of more than sixteen bytes; a write to one that has none
      shows in no other. */
  lemma SixteenBytesAreOwn(m: Memory, id: nat, data: Bytes, offset: nat, bytes: Bytes)
    requires Inv(m) && id !in m.buffers
    ensures var n := Step(m, Create(id, data));
      && (n.blocks == m.blocks <==> |data| <= 16)
      && (|data| <= 16 ==> Invisible(n, Write(id, offset, bytes)))
  {
    assert m.next !in m.blocks;
  }

  /** Such a run: a buffer of seventeen bytes is copied and written, and its copy changes too. */
  lemma SharingShows()
    ensures exists ops :: Legal(Start, ops) && !HeldThroughout(ops)
  {
    hide Step, Enabled, Invisible;
    var data: Bytes := seq(17, _ => 0);
    var op0, op1, op2 := Create(0, data), CopyNew(1, 0), Write(0, 0, [1]);
    var m1 := Memory(map[0 := SEVENTEEN], map[0 := Block(1, data)], 1);
    var m2 := Memory(map[0 := SEVENTEEN, 1 := SEVENTEEN], map[0 := Block(2, data)], 1);
    CreatedAndCopied(data, m1, m2);
    SharedInMemory(m2, data);
    OneMore(Start, [], op0);
    OneMore(Start, [] + [op0], op1);
    OneMore(Start, [] + [op0] + [op1], op2);
    BehavesAsValuesExactlyWhen([] + [op0] + [op1] + [op2]);
  }

  const SEVENTEEN := Buffer(17, Pointer(0))

  lemma CreatedAndCopied(data: Bytes, m1: Memory, m2: Memory)
    requires |data| == 17 && m1 == Memory(map[0 := SEVENTEEN], map[0 := Block(1, data)], 1)
    requires m2 == Memory(map[0 := SEVENTEEN, 1 := SEVENTEEN], map[0 := Block(2, data)], 1)
    ensures Enabled(Start, Create(0, data)) && Step(Start, Create(0, data)) == m1
    ensures Enabled(m1, CopyNew(1, 0)) && Step(m1, CopyNew(1, 0)) == m2
    ensures Enabled(m2, Write(0, 0, [1]))
  {
    var k := Construct(m1, 1, []);
    assert k == m1.(buffers := map[0 := SEVENTEEN, 1 := Buffer(0, NoData)]);
    assert IncRef(k, 0) == k.(blocks := map[0 := Block(2, data)]);
    assert Copy(k, 1, 0) == m2;
  }

  lemma OneMore(m: Memory, ops: seq<Op>, op: Op)
    ensures Run(m, ops + [op]) == Step(Run(m, ops), op)
    ensures Legal(m, ops + [op]) <==> Legal(m, ops) && Enabled(Run(m, ops), op)
    ensures AlwaysInvisible(m, ops + [op]) <==> AlwaysInvisible(m, ops) && Invisible(Run(m, ops), op)
  {
    assert (ops + [op])[..|ops + [op]| - 1] == ops;
  }

  lemma SharedInMemory(m: Memory, data: Bytes)
    requires data == seq(17, _ => 0)
    requires m.buffers == map[0 := SEVENTEEN, 1 := SEVENTEEN] && m.blocks == map[0 := Block(2, data)]
    ensures !Invisible(m, Write(0, 0, [1]))
  {
    assert 1 in Holders(m, 0);
    assert Overwrite(data, 0, [1])[0] == 1 && data[0] == 0;
  }
}
