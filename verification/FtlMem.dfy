/** The relocating memory of FTL data: a bump allocator with alignment-hole reuse, handles, and a copying relocation. */
module FtlMem {

  import opened Bytes

  const BLOCK: nat := 8192 * 4
  const TOO_FAR := 64
  const FLOAT := 4
  const DOUBLE := 8

  /** A block; its memory starts at a multiple of eight. */
  datatype Block = Block(mem: seq<byte>, hole: nat, holeSize: nat, nextFree: nat)

  datatype Ptr = Ptr(block: nat, off: nat)

  datatype HandleState = Free | Copied | Allocated

  datatype Handle = Handle(state: HandleState, size: nat, ptr: Ptr)

  /** `blocks` are all blocks ever obtained; `heap`, `aside` (the old heap while relocating) and
      `spare` (the free list) are the block lists, first block first. */
  datatype Memory = Memory(blocks: seq<Block>, heap: seq<nat>, aside: seq<nat>, spare: seq<nat>,
                           relocating: bool, handles: seq<Handle>)

  // ---------------------------------------------------------------- allocation

  /** Sizes are rounded up to a multiple of the size of a float. */
  function Rounded(size: nat): nat {
    if size % FLOAT != 0 then size + FLOAT - size % FLOAT else size
  }

  /** `ftl_mem_allocate_aligned`: the block after the allocation, and where the allocation is. */
  function AllocateAligned(b: Block, n: nat): (Block, nat) {
    if n == FLOAT then (b.(nextFree := b.nextFree + n), b.nextFree)
    else if b.nextFree % DOUBLE != 0 then
      var pad := DOUBLE - b.nextFree % DOUBLE;
      (b.(holeSize := pad, hole := b.nextFree, nextFree := b.nextFree + (n + pad)), b.nextFree + pad)
    else (b.(nextFree := b.nextFree + n), b.nextFree)
  }

  predicate UsesHole(b: Block, n: nat) {
    b.holeSize == n && b.nextFree - b.holeSize <= TOO_FAR
  }

  predicate HasRoom(b: Block, n: nat) {
    BLOCK - b.nextFree > n
  }

  function Zeros(): (s: seq<byte>)
    ensures |s| == BLOCK
  {
    seq(BLOCK, _ => 0)
  }

  /** A block taken from the free list keeps its bytes; a new one holds anything. */
  function NewBlock(m: Memory): (Memory, nat) {
    if m.spare != [] && m.spare[0] < |m.blocks| then
      var b := m.spare[0];
      (m.(spare := m.spare[1..], heap := [b] + m.heap,
          blocks := m.blocks[b := m.blocks[b].(holeSize := 0, nextFree := 0)]), b)
    else
      (m.(heap := [|m.blocks|] + m.heap, blocks := m.blocks + [Block(Zeros(), 0, 0, 0)]), |m.blocks|)
  }

  function AllocateIn(m: Memory, b: nat, n: nat): (Memory, Ptr)
    requires b < |m.blocks|
  {
    var (block, off) := AllocateAligned(m.blocks[b], n);
    (m.(blocks := m.blocks[b := block]), Ptr(b, off))
  }

  /** `ftl_mem_allocate` */
  function Allocate(m: Memory, size: nat): (Memory, Ptr) {
    var n := Rounded(size);
    if m.heap != [] && m.heap[0] < |m.blocks| && UsesHole(m.blocks[m.heap[0]], n) then
      var b := m.heap[0];
      (m.(blocks := m.blocks[b := m.blocks[b].(holeSize := 0)]), Ptr(b, m.blocks[b].hole))
    else if m.heap != [] && m.heap[0] < |m.blocks| && HasRoom(m.blocks[m.heap[0]], n) then
      AllocateIn(m, m.heap[0], n)
    else
      var (m', b) := NewBlock(m);
      if b < |m'.blocks| then AllocateIn(m', b, n) else (m', Ptr(b, 0))
  }

  // ---------------------------------------------------------------- what allocation guarantees

  predicate BlockOk(b: Block) {
    && |b.mem| == BLOCK
    && b.nextFree % FLOAT == 0 && b.nextFree <= BLOCK
    && (b.holeSize != 0 ==> b.holeSize == FLOAT && b.hole % FLOAT == 0 && b.hole + FLOAT <= b.nextFree)
  }

  predicate BlocksOk(m: Memory) {
    forall b :: 0 <= b < |m.blocks| ==> BlockOk(m.blocks[b])
  }

  /** Every block is in exactly one of the three lists. */
  ghost predicate ListsOk(m: Memory) {
    && (forall b: nat ::
          multiset(m.heap)[b] + multiset(m.aside)[b] + multiset(m.spare)[b] == if b < |m.blocks| then 1 else 0)
    && forall i :: 0 <= i < |m.heap| ==> m.heap[i] < |m.blocks|
  }

  /** Bytes `off..off+len` of a block that is in use are given away. */
  ghost predicate Taken(m: Memory, p: Ptr, len: nat) {
    && p.block < |m.blocks| && p.block !in m.spare
    && var b := m.blocks[p.block];
       && p.off + len <= b.nextFree
       && (b.holeSize == 0 || p.off + len <= b.hole || b.hole + b.holeSize <= p.off)
  }

  predicate Apart(p: Ptr, m: nat, q: Ptr, n: nat) {
    p.block != q.block || p.off + m <= q.off || q.off + n <= p.off
  }

  lemma RoundedIs(size: nat)
    requires 0 < size <= BLOCK
    ensures size <= Rounded(size) <= BLOCK && Rounded(size) % FLOAT == 0 && Rounded(size) >= FLOAT
  {
  }

  lemma Fours(x: nat, n: nat)
    requires x % 4 == 0 && n % 4 == 0
    ensures (x + n) % 4 == 0 && (x + n + 4) % 4 == 0
    ensures x % 8 == 0 || (x % 8 == 4 && (x + 4) % 8 == 0)
  {
    var a, b := x / 4, n / 4;
    assert x == 4 * a && n == 4 * b;
    assert x + n == 4 * (a + b);
    if a % 2 == 0 {
      assert x == 8 * (a / 2);
    } else {
      assert x == 8 * (a / 2) + 4;
    }
  }

  /** In multiples of four, more free bytes than asked for means four bytes more: there is room for a hole. */
  lemma RoomForHole(b: Block, n: nat)
    requires BlockOk(b) && n % FLOAT == 0 && HasRoom(b, n)
    ensures b.nextFree + n + FLOAT <= BLOCK
  {
    var a, k := b.nextFree / 4, n / 4;
    assert b.nextFree == 4 * a && n == 4 * k && BLOCK == 4 * 8192;
  }

  /** A new allocation lies inside the block, is aligned, and overlaps neither what is taken nor the pending hole. */
  lemma AllocateAlignedOk(b: Block, n: nat)
    requires BlockOk(b) && n % FLOAT == 0 && n > 0
             && (HasRoom(b, n) || (b.nextFree == 0 && b.holeSize == 0 && n <= BLOCK))
    ensures var (b', off) := AllocateAligned(b, n);
            && BlockOk(b') && b'.mem == b.mem && b.nextFree <= off && off + n <= b'.nextFree
            && (n != FLOAT ==> off % DOUBLE == 0) && off % FLOAT == 0
            && (b'.holeSize == 0 || b'.hole + b'.holeSize <= off)
            && (b'.holeSize == 0 || (b'.holeSize == b.holeSize && b'.hole == b.hole) || b'.hole == b.nextFree)
  {
    Fours(b.nextFree, n);
    if HasRoom(b, n) {
      RoomForHole(b, n);
    }
  }

  ghost predicate Ready(m: Memory) {
    BlocksOk(m) && ListsOk(m)
  }

  lemma InList(s: seq<nat>, b: nat)
    ensures b in s <==> multiset(s)[b] > 0
  {
  }

  /** A block is put into use: it heads the heap, empty, and nothing else changes. */
  ghost predicate PutInUse(m: Memory, m': Memory, b: nat) {
    && Ready(m') && m'.aside == m.aside && m'.handles == m.handles && m'.relocating == m.relocating
    && m'.heap == [b] + m.heap && b < |m'.blocks| && m'.blocks[b].nextFree == 0 && m'.blocks[b].holeSize == 0
    && (b in m.spare || b == |m.blocks|) && b !in m'.spare && (forall x :: x in m'.spare ==> x in m.spare)
    && |m.blocks| <= |m'.blocks|
    && forall x :: 0 <= x < |m.blocks| ==>
         m'.blocks[x].mem == m.blocks[x].mem && (x != b ==> m'.blocks[x] == m.blocks[x])
  }

  lemma MovesFirst(m: Memory, m': Memory)
    requires ListsOk(m) && m.spare != [] && m'.spare == m.spare[1..] && m'.heap == [m.spare[0]] + m.heap
    requires m'.aside == m.aside && |m'.blocks| == |m.blocks|
    ensures ListsOk(m') && m.spare[0] < |m.blocks| && m.spare[0] !in m'.spare
  {
    var f := m.spare[0];
    InList(m.spare, f);
    InList(m'.spare, f);
    assert m.spare == [f] + m'.spare;
    forall x: nat
      ensures multiset(m'.heap)[x] + multiset(m'.aside)[x] + multiset(m'.spare)[x] == if x < |m.blocks| then 1 else 0
    {
      assert multiset(m.spare)[x] == multiset(m'.spare)[x] + (if x == f then 1 else 0);
      assert multiset(m'.heap)[x] == multiset(m.heap)[x] + (if x == f then 1 else 0);
    }
  }

  lemma AddsBlock(m: Memory, m': Memory)
    requires ListsOk(m) && m'.spare == m.spare && m'.heap == [|m.blocks|] + m.heap
    requires m'.aside == m.aside && |m'.blocks| == |m.blocks| + 1
    ensures ListsOk(m') && |m.blocks| !in m'.spare
  {
    InList(m.spare, |m.blocks|);
    forall x: nat
      ensures multiset(m'.heap)[x] + multiset(m'.aside)[x] + multiset(m'.spare)[x] == if x < |m'.blocks| then 1 else 0
    {
      assert multiset(m'.heap)[x] == multiset(m.heap)[x] + (if x == |m.blocks| then 1 else 0);
    }
  }

  lemma NewBlockOk(m: Memory)
    requires Ready(m)
    ensures var (m', b) := NewBlock(m); PutInUse(m, m', b)
  {
    hide ListsOk;
    var (m', b) := NewBlock(m);
    if m.spare != [] {
      MovesFirst(m, m.(spare := m.spare[1..], heap := [m.spare[0]] + m.heap));
      MovesFirst(m, m');
    } else {
      AddsBlock(m, m');
    }
  }

  /** What an allocation of `size` bytes gives: memory nobody has, aligned, with everything taken before left alone. */
  ghost predicate Gives(m: Memory, size: nat, m': Memory, p: Ptr) {
    && Ready(m') && m'.aside == m.aside && m'.handles == m.handles && m'.relocating == m.relocating
    && p.block in m'.heap && Taken(m', p, Rounded(size))
    && p.off % FLOAT == 0 && (Rounded(size) != FLOAT ==> p.off % DOUBLE == 0)
    && (forall b :: b in m.heap ==> b in m'.heap)
    && |m.blocks| <= |m'.blocks| && (forall b :: 0 <= b < |m.blocks| ==> m'.blocks[b].mem == m.blocks[b].mem)
    && forall q: Ptr, len: nat :: Taken(m, q, len) && len > 0 ==> Taken(m', q, len) && Apart(q, len, p, Rounded(size))
  }

  lemma AllocateInGives(m: Memory, b: nat, size: nat)
    requires Ready(m) && 0 < size <= BLOCK && b < |m.blocks| && b in m.heap && b !in m.spare
    requires var k := m.blocks[b]; HasRoom(k, Rounded(size)) || (k.nextFree == 0 && k.holeSize == 0)
    ensures var (m', p) := AllocateIn(m, b, Rounded(size)); Gives(m, size, m', p)
  {
    RoundedIs(size);
    AllocateAlignedOk(m.blocks[b], Rounded(size));
  }

  lemma HeapInUse(m: Memory, b: nat)
    requires ListsOk(m) && b in m.heap
    ensures b < |m.blocks| && b !in m.spare && b !in m.aside
  {
    InList(m.heap, b);
    InList(m.spare, b);
    InList(m.aside, b);
  }

  lemma HoleGives(m: Memory, b: nat, size: nat)
    requires Ready(m) && 0 < size <= BLOCK && b < |m.blocks| && b in m.heap && b !in m.spare
    requires UsesHole(m.blocks[b], Rounded(size))
    ensures Gives(m, size, m.(blocks := m.blocks[b := m.blocks[b].(holeSize := 0)]), Ptr(b, m.blocks[b].hole))
  {
    RoundedIs(size);
  }

  /** What was taken stays taken when a block is put into use. */
  lemma StaysTaken(m: Memory, m1: Memory, b: nat)
    requires ListsOk(m) && PutInUse(m, m1, b)
    ensures forall q: Ptr, len: nat :: Taken(m, q, len) ==> Taken(m1, q, len)
  {
  }

  lemma GivesAfter(m: Memory, m1: Memory, b: nat, size: nat, m': Memory, p: Ptr)
    requires ListsOk(m) && PutInUse(m, m1, b) && Gives(m1, size, m', p)
    ensures Gives(m, size, m', p)
  {
    hide Ready, ListsOk, Rounded;
    StaysTaken(m, m1, b);
    hide Taken, Apart;
    forall x | 0 <= x < |m.blocks| ensures m'.blocks[x].mem == m.blocks[x].mem {
      assert m1.blocks[x].mem == m.blocks[x].mem;
    }
  }

  lemma AllocateGives(m: Memory, size: nat)
    requires Ready(m) && 0 < size <= BLOCK
    ensures var (m', p) := Allocate(m, size); Gives(m, size, m', p)
  {
    hide Gives, PutInUse, ListsOk, Rounded, AllocateAligned, NewBlock, UsesHole, HasRoom;
    var n := Rounded(size);
    if m.heap != [] {
      HeapInUse(m, m.heap[0]);
    }
    if m.heap != [] && UsesHole(m.blocks[m.heap[0]], n) {
      HoleGives(m, m.heap[0], size);
    } else if m.heap != [] && HasRoom(m.blocks[m.heap[0]], n) {
      AllocateInGives(m, m.heap[0], size);
    } else {
      var (m1, b) := NewBlock(m);
      NewBlockOk(m);
      NewIsEmpty(m, m1, b);
      AllocateInGives(m1, b, size);
      var (m', p) := AllocateIn(m1, b, n);
      GivesAfter(m, m1, b, size, m', p);
    }
  }

  lemma NewIsEmpty(m: Memory, m': Memory, b: nat)
    requires PutInUse(m, m', b)
    ensures Ready(m') && b in m'.heap && b !in m'.spare && b < |m'.blocks|
    ensures m'.blocks[b].nextFree == 0 && m'.blocks[b].holeSize == 0
  {
  }

  /** The smallest multiple of `d` from `x` on. */
  predicate NextMultiple(x: nat, d: nat, y: nat)
    requires d > 0
  {
    x <= y < x + d && y % d == 0
  }

  /** Where an allocation goes: into the pending hole of the first block if it has the size asked for and is at most 64
      bytes back; else behind what the first block has given, at the next multiple of eight unless it is a float, if
      more than that is free there; else at the beginning of a fresh block.  The bytes left out before it become the
      hole. */
  lemma AllocateChooses(m: Memory, size: nat)
    requires Ready(m) && 0 < size <= BLOCK
    ensures exists n: nat :: NextMultiple(size, 4, n) && Chosen(m, n, Allocate(m, size).0, Allocate(m, size).1)
  {
    hide Chosen, ListsOk, Rounded, AllocateAligned, NewBlock, UsesHole, HasRoom, BlockOk;
    var n := Rounded(size);
    RoundedIs(size);
    RoundedUp(size);
    if m.heap != [] {
      HeapInUse(m, m.heap[0]);
    }
    if m.heap != [] && UsesHole(m.blocks[m.heap[0]], n) {
      HoleChosen(m, n);
    } else if m.heap != [] && HasRoom(m.blocks[m.heap[0]], n) {
      RoomChosen(m, n);
    } else {
      FreshChosen(m, n);
    }
  }

  lemma RoundedUp(size: nat)
    ensures NextMultiple(size, 4, Rounded(size))
  {
  }

  lemma HoleChosen(m: Memory, n: nat)
    requires m.heap != [] && m.heap[0] < |m.blocks| && UsesHole(m.blocks[m.heap[0]], n)
    ensures var b := m.heap[0];
            Chosen(m, n, m.(blocks := m.blocks[b := m.blocks[b].(holeSize := 0)]), Ptr(b, m.blocks[b].hole))
  {
  }

  lemma RoomChosen(m: Memory, n: nat)
    requires m.heap != [] && m.heap[0] < |m.blocks| && BlockOk(m.blocks[m.heap[0]]) && n % FLOAT == 0
    requires !UsesHole(m.blocks[m.heap[0]], n) && HasRoom(m.blocks[m.heap[0]], n)
    ensures Chosen(m, n, AllocateIn(m, m.heap[0], n).0, AllocateIn(m, m.heap[0], n).1)
  {
    Fours(m.blocks[m.heap[0]].nextFree, n);
  }

  lemma FreshChosen(m: Memory, n: nat)
    requires Ready(m) && n % FLOAT == 0
    requires m.heap != [] ==>
               m.heap[0] < |m.blocks| && !UsesHole(m.blocks[m.heap[0]], n) && !HasRoom(m.blocks[m.heap[0]], n)
    ensures var (m1, b) := NewBlock(m);
            b < |m1.blocks| && Chosen(m, n, AllocateIn(m1, b, n).0, AllocateIn(m1, b, n).1)
  {
    hide ListsOk, BlockOk;
    SpareIn(m);
  }

  lemma SpareIn(m: Memory)
    requires Ready(m)
    ensures m.spare != [] ==> m.spare[0] < |m.blocks|
  {
    if m.spare != [] {
      assert m.spare[0] in m.spare;
      InList(m.spare, m.spare[0]);
    }
  }

  ghost predicate Chosen(m: Memory, n: nat, m': Memory, p: Ptr) {
    var holed := m.heap != [] && m.heap[0] < |m.blocks| && m.blocks[m.heap[0]].holeSize == n
                 && m.blocks[m.heap[0]].nextFree <= 64 + n;
    var room := m.heap != [] && m.heap[0] < |m.blocks| && m.blocks[m.heap[0]].nextFree + n < 0x8000;
    if holed then
      var b := m.blocks[m.heap[0]];
      p == Ptr(m.heap[0], b.hole) && m' == m.(blocks := m.blocks[m.heap[0] := b.(holeSize := 0)])
    else if room then
      var b := m.blocks[m.heap[0]];
      && p.block == m.heap[0] && (if n == 4 then p.off == b.nextFree else NextMultiple(b.nextFree, 8, p.off))
      && m' == m.(blocks := m.blocks[p.block :=
           b.(nextFree := p.off + n, hole := if p.off == b.nextFree then b.hole else b.nextFree,
              holeSize := if p.off == b.nextFree then b.holeSize else p.off - b.nextFree)])
    else
      && m'.heap == [p.block] + m.heap && p.off == 0 && p.block < |m'.blocks|
      && p.block == (if m.spare == [] then |m.blocks| else m.spare[0])
      && m'.spare == (if m.spare == [] then [] else m.spare[1..])
      && m'.blocks[p.block].nextFree == n && m'.blocks[p.block].holeSize == 0
  }

  // ---------------------------------------------------------------- handles

  predicate Live(m: Memory, h: nat) {
    h < |m.handles| && m.handles[h].state != Free
  }

  /** A handle in use owns aligned memory of its size: in the old heap if it is still to be relocated, and in the heap
      otherwise. */
  ghost predicate HandleOk(m: Memory, h: nat)
    requires h < |m.handles|
  {
    var x := m.handles[h];
    x.state != Free ==>
      && 0 < x.size <= BLOCK && Taken(m, x.ptr, Rounded(x.size))
      && x.ptr.off % FLOAT == 0 && (Rounded(x.size) != FLOAT ==> x.ptr.off % DOUBLE == 0)
      && (if m.relocating && x.state == Allocated then x.ptr.block in m.aside else x.ptr.block in m.heap)
      && (x.state == Copied ==> m.relocating)
  }

  predicate Disjoint(x: Handle, y: Handle) {
    Apart(x.ptr, Rounded(x.size), y.ptr, Rounded(y.size))
  }

  ghost predicate HandlesOk(m: Memory) {
    && (forall h: nat :: h < |m.handles| ==> HandleOk(m, h))
    && (forall i, j :: 0 <= i < |m.handles| && 0 <= j < |m.handles| && i != j && Live(m, i) && Live(m, j) ==>
          Disjoint(m.handles[i], m.handles[j]))
  }

  /** What holds whenever no function of the memory is running. */
  ghost predicate Inv(m: Memory) {
    Ready(m) && HandlesOk(m) && (!m.relocating ==> m.aside == [])
  }

  /** The bytes a handle stands for. */
  function Held(m: Memory, x: Handle): seq<byte>
    requires x.ptr.block < |m.blocks| && x.ptr.off + x.size <= |m.blocks[x.ptr.block].mem|
  {
    m.blocks[x.ptr.block].mem[x.ptr.off..x.ptr.off + x.size]
  }

  lemma LiveReadable(m: Memory, h: nat)
    requires Inv(m) && Live(m, h)
    ensures var x := m.handles[h]; x.ptr.block < |m.blocks| && x.ptr.off + x.size <= |m.blocks[x.ptr.block].mem|
  {
    assert HandleOk(m, h);
    RoundedIs(m.handles[h].size);
  }

  /** What the client sees: the bytes of every handle in use. */
  ghost function View(m: Memory): map<nat, seq<byte>>
    requires Inv(m)
  {
    map h: nat | h < |m.handles| && Live(m, h) :: (LiveReadable(m, h); Held(m, m.handles[h]))
  }

  lemma ViewAt(m: Memory, h: nat)
    requires Inv(m)
    ensures h in View(m) <==> Live(m, h)
    ensures h in View(m) ==>
              var x := m.handles[h];
              x.ptr.block < |m.blocks| && x.ptr.off + x.size <= |m.blocks[x.ptr.block].mem| && View(m)[h] == Held(m, x)
  {
    if Live(m, h) {
      LiveReadable(m, h);
    }
  }

  /** `ftl_data_alloc` with handle `h` */
  function AllocData(m: Memory, h: nat, size: nat): Memory
    requires h < |m.handles|
  {
    var (m', p) := Allocate(m, size);
    if h < |m'.handles| then
      m'.(handles := m'.handles[h := Handle(if m.relocating then Copied else Allocated, size, p)])
    else m'
  }

  function FreeData(m: Memory, h: nat): Memory
    requires h < |m.handles|
  {
    m.(handles := m.handles[h := m.handles[h].(state := Free)])
  }

  function Start(m: Memory): Memory {
    m.(aside := m.heap, heap := [], relocating := true)
  }

  function Splice(mem: seq<byte>, off: nat, bs: seq<byte>): seq<byte>
    requires off + |bs| <= |mem|
  {
    mem[..off] + bs + mem[off + |bs|..]
  }

  /** The bytes at `p` are overwritten by `bs`. */
  function Store(m: Memory, p: Ptr, bs: seq<byte>): Memory
    requires p.block < |m.blocks| && p.off + |bs| <= |m.blocks[p.block].mem|
  {
    m.(blocks := m.blocks[p.block := m.blocks[p.block].(mem := Splice(m.blocks[p.block].mem, p.off, bs))])
  }

  /** Memory just given can be handed to a handle, whatever that handle had before. */
  lemma HandOver(m: Memory, size: nat, m1: Memory, p: Ptr, h: nat)
    requires Inv(m) && 0 < size <= BLOCK && Gives(m, size, m1, p) && h < |m.handles|
    ensures Inv(m1.(handles := m1.handles[h := Handle(if m.relocating then Copied else Allocated, size, p)]))
  {
    hide Taken, Ready, Apart, Rounded;
    var x := Handle(if m.relocating then Copied else Allocated, size, p);
    var m2 := m1.(handles := m1.handles[h := x]);
    SameTaken(m1, m2);
    SameReady(m1, m2);
    forall k: nat | k < |m2.handles| ensures HandleOk(m2, k) {
      if k != h && Live(m, k) {
        assert HandleOk(m, k);
        TakenPositive(m, m.handles[k].ptr, m.handles[k].size);
      }
    }
    forall i, j | 0 <= i < |m2.handles| && 0 <= j < |m2.handles| && i != j && Live(m2, i) && Live(m2, j)
      ensures Disjoint(m2.handles[i], m2.handles[j])
    {
      if i != h {
        assert Live(m, i) && HandleOk(m, i);
        TakenPositive(m, m.handles[i].ptr, m.handles[i].size);
      }
      if j != h {
        assert Live(m, j) && HandleOk(m, j);
        TakenPositive(m, m.handles[j].ptr, m.handles[j].size);
      }
      ApartSwap(m2.handles[i], m2.handles[j]);
    }
  }

  lemma SameTaken(m: Memory, m': Memory)
    requires m'.blocks == m.blocks && m'.spare == m.spare
    ensures forall q: Ptr, len: nat :: Taken(m', q, len) <==> Taken(m, q, len)
  {
  }

  lemma SameReady(m: Memory, m': Memory)
    requires Ready(m) && m'.blocks == m.blocks && m'.heap == m.heap && m'.aside == m.aside && m'.spare == m.spare
    ensures Ready(m')
  {
  }

  lemma TakenPositive(m: Memory, p: Ptr, size: nat)
    requires 0 < size <= BLOCK
    ensures Rounded(size) > 0
  {
    RoundedIs(size);
  }

  lemma ApartSwap(x: Handle, y: Handle)
    ensures Disjoint(x, y) <==> Disjoint(y, x)
  {
  }

  // ---------------------------------------------------------------- what every step keeps

  /** A handle that is not live before or after, or that keeps its bytes. */
  lemma SameBytes(m: Memory, m': Memory, h: nat)
    requires Inv(m) && Inv(m') && Live(m, h) && Live(m', h)
    requires m'.handles[h].ptr == m.handles[h].ptr && m'.handles[h].size == m.handles[h].size
    requires |m.blocks| <= |m'.blocks| && forall b :: 0 <= b < |m.blocks| ==> m'.blocks[b].mem == m.blocks[b].mem
    ensures View(m)[h] == View(m')[h]
  {
    hide Inv, View;
    ViewAt(m, h);
    ViewAt(m', h);
  }

  /** Allocating for a handle gives it `size` bytes of its own; no other handle's bytes change. */
  lemma AllocKeeps(m: Memory, h: nat, size: nat)
    requires Inv(m) && h < |m.handles| && 0 < size <= BLOCK
    ensures var m' := AllocData(m, h, size);
            && Inv(m') && m'.relocating == m.relocating && |m'.handles| == |m.handles|
            && m'.handles == m.handles[h := m'.handles[h]] && Live(m', h)
            && (m.relocating ==> m'.handles[h].state == Copied) && m'.handles[h].size == size
            && h in View(m') && |View(m')[h]| == size
            && forall k: nat :: k != h ==>
                 (k in View(m') <==> k in View(m)) && (k in View(m) ==> View(m')[k] == View(m)[k])
  {
    hide Inv, View, Allocate;
    var (m1, p) := Allocate(m, size);
    var m' := AllocData(m, h, size);
    InvReady(m);
    AllocateGives(m, size);
    HandOver(m, size, m1, p, h);
    ViewAt(m', h);
    forall k: nat | k != h
      ensures (k in View(m') <==> k in View(m)) && (k in View(m) ==> View(m')[k] == View(m)[k])
    {
      ViewAt(m, k);
      ViewAt(m', k);
      if Live(m, k) {
        SameBytes(m, m', k);
      }
    }
  }

  lemma InvReady(m: Memory)
    requires Inv(m)
    ensures Ready(m)
  {
  }

  /** A live handle cannot be reached through another one. */
  lemma StoreApart(m: Memory, h: nat, d: nat, bs: seq<byte>, k: nat)
    requires Inv(m) && Live(m, h) && Live(m, k) && h != k && d + |bs| <= m.handles[h].size
    ensures var x, y := m.handles[h], m.handles[k];
            && x.ptr.block < |m.blocks| && y.ptr.block < |m.blocks|
            && (x.ptr.block != y.ptr.block || x.ptr.off + d + |bs| <= y.ptr.off || y.ptr.off + y.size <= x.ptr.off + d)
  {
    assert HandleOk(m, h) && HandleOk(m, k) && Disjoint(m.handles[h], m.handles[k]);
    RoundedIs(m.handles[h].size);
    RoundedIs(m.handles[k].size);
  }

  lemma SpliceAt(mem: seq<byte>, off: nat, bs: seq<byte>, lo: nat, hi: nat)
    requires off + |bs| <= |mem| && lo <= hi <= |mem|
    ensures |Splice(mem, off, bs)| == |mem|
    ensures hi <= off || off + |bs| <= lo ==> Splice(mem, off, bs)[lo..hi] == mem[lo..hi]
    ensures lo <= off && off + |bs| <= hi ==> Splice(mem, off, bs)[lo..hi] == Splice(mem[lo..hi], off - lo, bs)
  {
    var r := Splice(mem, off, bs);
    assert forall i :: 0 <= i < |mem| ==> r[i] == if off <= i < off + |bs| then bs[i - off] else mem[i];
    if lo <= off && off + |bs| <= hi {
      var q := Splice(mem[lo..hi], off - lo, bs);
      assert forall i :: 0 <= i < hi - lo ==>
               q[i] == if off - lo <= i < off - lo + |bs| then bs[i - (off - lo)] else mem[lo + i];
    }
  }

  function At(p: Ptr, d: nat): Ptr {
    Ptr(p.block, p.off + d)
  }

  lemma StoreInv(m: Memory, p: Ptr, bs: seq<byte>)
    requires Inv(m) && p.block < |m.blocks| && p.off + |bs| <= |m.blocks[p.block].mem|
    ensures Inv(Store(m, p, bs))
  {
    var m' := Store(m, p, bs);
    forall q: Ptr, len: nat ensures Taken(m', q, len) <==> Taken(m, q, len) {
    }
    hide Taken, Rounded, Disjoint;
    forall k: nat | k < |m'.handles| ensures HandleOk(m', k) {
      assert HandleOk(m, k);
    }
  }

  /** Writing into the bytes of a handle changes those bytes only. */
  lemma StoreView(m: Memory, h: nat, d: nat, bs: seq<byte>)
    requires Inv(m) && Live(m, h) && d + |bs| <= m.handles[h].size
    ensures m.handles[h].ptr.block < |m.blocks|
    ensures m.handles[h].ptr.off + m.handles[h].size <= |m.blocks[m.handles[h].ptr.block].mem|
    ensures var m' := Store(m, At(m.handles[h].ptr, d), bs);
            && Inv(m') && h in View(m) && |View(m)[h]| == m.handles[h].size
            && View(m') == View(m)[h := Splice(View(m)[h], d, bs)]
  {
    hide Inv, View, HandleOk, Splice;
    LiveReadable(m, h);
    var x := m.handles[h];
    var mem := m.blocks[x.ptr.block].mem;
    var m' := Store(m, At(x.ptr, d), bs);
    StoreInv(m, At(x.ptr, d), bs);
    ViewAt(m, h);
    SpliceAt(mem, x.ptr.off + d, bs, x.ptr.off, x.ptr.off + x.size);
    forall k: nat
      ensures (k in View(m') <==> k in View(m))
              && (k in View(m) ==> View(m')[k] == if k == h then Splice(View(m)[h], d, bs) else View(m)[k])
    {
      ViewAt(m, k);
      ViewAt(m', k);
      if Live(m, k) && k != h {
        StoreApart(m, h, d, bs, k);
        var y := m.handles[k];
        if y.ptr.block == x.ptr.block {
          SpliceAt(mem, x.ptr.off + d, bs, y.ptr.off, y.ptr.off + y.size);
        }
      }
    }
  }

  lemma FreeKeeps(m: Memory, h: nat)
    requires Inv(m) && Live(m, h)
    ensures Inv(FreeData(m, h)) && View(FreeData(m, h)) == View(m) - {h}
  {
    hide Taken, Ready, Rounded;
    var m' := FreeData(m, h);
    SameTaken(m, m');
    SameReady(m, m');
    forall k: nat | k < |m'.handles| ensures HandleOk(m', k) {
      assert HandleOk(m, k);
    }
    FreeView(m, h);
  }

  lemma FreeView(m: Memory, h: nat)
    requires Inv(m) && Live(m, h) && Inv(FreeData(m, h))
    ensures View(FreeData(m, h)) == View(m) - {h}
  {
    hide Inv, View;
    forall k: nat ensures (k in View(FreeData(m, h)) <==> k in View(m) && k != h) &&
                          (k in View(FreeData(m, h)) ==> View(FreeData(m, h))[k] == View(m)[k]) {
      ViewAt(m, k);
      ViewAt(FreeData(m, h), k);
    }
  }

  predicate SameHandle(x: Handle, y: Handle) {
    (x.state == Free <==> y.state == Free) && x.ptr == y.ptr && x.size == y.size
  }

  /** The bytes seen depend on the bytes of the blocks and on where the handles are. */
  lemma ViewSame(m: Memory, m': Memory)
    requires Inv(m) && Inv(m') && |m'.handles| == |m.handles| && |m'.blocks| == |m.blocks|
    requires forall b :: 0 <= b < |m.blocks| ==> m'.blocks[b].mem == m.blocks[b].mem
    requires forall k: nat :: k < |m.handles| ==> SameHandle(m.handles[k], m'.handles[k])
    ensures View(m') == View(m)
  {
    hide Inv, View;
    forall k: nat ensures (k in View(m') <==> k in View(m)) && (k in View(m) ==> View(m')[k] == View(m)[k]) {
      ViewAt(m, k);
      ViewAt(m', k);
    }
  }

  /** Putting the heap aside moves no byte. */
  lemma StartKeeps(m: Memory)
    requires Inv(m) && !m.relocating
    ensures Inv(Start(m)) && View(Start(m)) == View(m)
  {
    var m' := Start(m);
    SameTaken(m, m');
    assert multiset(m'.heap) == multiset{};
    hide Taken, Rounded, Disjoint;
    forall k: nat | k < |m'.handles| ensures HandleOk(m', k) {
      assert HandleOk(m, k);
    }
    ViewSame(m, m');
  }

  /** The copy of a handle's bytes into new memory. */
  function Relocate(m: Memory, h: nat): Memory
    requires h < |m.handles|
  {
    var x, m' := m.handles[h], AllocData(m, h, m.handles[h].size);
    if h < |m'.handles| && x.ptr.block < |m.blocks| && x.ptr.off + x.size <= |m.blocks[x.ptr.block].mem| &&
       m'.handles[h].ptr.block < |m'.blocks| &&
       m'.handles[h].ptr.off + x.size <= |m'.blocks[m'.handles[h].ptr.block].mem|
    then Store(m', m'.handles[h].ptr, Held(m, x))
    else m'
  }

  /** Relocating a handle moves its bytes to the new heap; the client sees no difference. */
  lemma RelocateKeeps(m: Memory, h: nat)
    requires Inv(m) && m.relocating && h < |m.handles| && m.handles[h].state == Allocated
    ensures var m' := Relocate(m, h);
            && Inv(m') && View(m') == View(m) && m'.relocating && |m'.handles| == |m.handles|
            && m'.handles == m.handles[h := m'.handles[h]] && m'.handles[h].state == Copied
            && m'.handles[h].ptr.block in m'.heap
  {
    hide Inv, View, HandlesOk, Allocate, Splice;
    var x := m.handles[h];
    HandleIs(m, h);
    LiveReadable(m, h);
    ViewAt(m, h);
    var m1 := AllocData(m, h, x.size);
    AllocKeeps(m, h, x.size);
    LiveReadable(m1, h);
    StoreView(m1, h, 0, Held(m, x));
    var m' := Relocate(m, h);
    assert At(m1.handles[h].ptr, 0) == m1.handles[h].ptr;
    SpliceWhole(View(m1)[h], Held(m, x));
    assert View(m') == View(m);
    HandleIs(m', h);
  }

  lemma SpliceWhole(mem: seq<byte>, bs: seq<byte>)
    requires |mem| == |bs|
    ensures Splice(mem, 0, bs) == bs
  {
  }

  lemma HandleIs(m: Memory, h: nat)
    requires Inv(m) && h < |m.handles| && m.handles[h].state != Free
    ensures 0 < m.handles[h].size <= BLOCK
    ensures m.handles[h].state == Copied ==> m.handles[h].ptr.block in m.heap
  {
    assert HandleOk(m, h);
  }

  // ---------------------------------------------------------------- the end of a relocation

  /** The first old block goes to the free list. */
  function FreeBlock(m: Memory): Memory
    requires m.aside != []
  {
    m.(aside := m.aside[1..], spare := [m.aside[0]] + m.spare)
  }

  predicate AllCopied(m: Memory) {
    forall h :: 0 <= h < |m.handles| ==> m.handles[h].state != Allocated
  }

  lemma FreeBlockLists(m: Memory)
    requires ListsOk(m) && m.aside != []
    ensures ListsOk(FreeBlock(m)) && m.aside[0] !in m.heap
  {
    var f, m' := m.aside[0], FreeBlock(m);
    InList(m.aside, f);
    InList(m.heap, f);
    assert m.aside == [f] + m'.aside;
    forall x: nat
      ensures multiset(m'.heap)[x] + multiset(m'.aside)[x] + multiset(m'.spare)[x] == if x < |m.blocks| then 1 else 0
    {
      assert multiset(m.aside)[x] == multiset(m'.aside)[x] + (if x == f then 1 else 0);
      assert multiset(m'.spare)[x] == multiset(m.spare)[x] + (if x == f then 1 else 0);
    }
  }

  /** Once every handle is relocated, giving up an old block loses nothing. */
  lemma FreeBlockKeeps(m: Memory)
    requires Inv(m) && m.relocating && AllCopied(m) && m.aside != []
    ensures Inv(FreeBlock(m)) && View(FreeBlock(m)) == View(m)
  {
    hide ListsOk, Rounded, Disjoint;
    var m' := FreeBlock(m);
    FreeBlockLists(m);
    forall k: nat | k < |m'.handles| ensures HandleOk(m', k) {
      assert HandleOk(m, k);
    }
    ViewSame(m, m');
  }

  function Settle(x: Handle): Handle {
    if x.state != Free then x.(state := Allocated) else x
  }

  function Reset(m: Memory): Memory {
    m.(relocating := false, handles := seq(|m.handles|, h requires 0 <= h < |m.handles| => Settle(m.handles[h])))
  }

  lemma ResetKeeps(m: Memory)
    requires Inv(m) && m.relocating && AllCopied(m) && m.aside == []
    ensures Inv(Reset(m)) && View(Reset(m)) == View(m)
  {
    hide Ready, Taken, Rounded;
    var m' := Reset(m);
    SameTaken(m, m');
    SameReady(m, m');
    forall k: nat | k < |m'.handles| ensures HandleOk(m', k) {
      assert HandleOk(m, k);
    }
    ViewSame(m, m');
  }

  // ---------------------------------------------------------------- whole runs

  const PER_PAGE := 256
  const UNUSED := Handle(Free, 0, Ptr(0, 0))

  /** A new page of handles. */
  function Grow(m: Memory): Memory {
    m.(handles := m.handles + seq(PER_PAGE, _ => UNUSED))
  }

  lemma GrowKeeps(m: Memory)
    requires Inv(m)
    ensures Inv(Grow(m)) && View(Grow(m)) == View(m)
  {
    var m' := Grow(m);
    hide Ready, Taken, Rounded, View;
    SameTaken(m, m');
    SameReady(m, m');
    forall k: nat | k < |m'.handles| ensures HandleOk(m', k) {
      if k < |m.handles| {
        assert HandleOk(m, k);
      }
    }
    forall k: nat ensures (k in View(m') <==> k in View(m)) && (k in View(m) ==> View(m')[k] == View(m)[k]) {
      ViewAt(m, k);
      ViewAt(m', k);
    }
  }

  /** Everything that can happen to the memory; the end of a relocation is a `Move` of each handle that is left, a
      `GiveUp` of each old block, and a `Finish`. */
  datatype Action =
    | NewPage
    | Alloc(h: nat, size: nat)
    | Drop(h: nat)
    | Write(h: nat, d: nat, bs: seq<byte>)
    | Begin
    | Move(h: nat)
    | GiveUp
    | Finish

  ghost predicate Enabled(m: Memory, a: Action) {
    match a
    case NewPage => true
    case Alloc(h, size) => h < |m.handles| && m.handles[h].state == Free && 0 < size <= BLOCK
    case Drop(h) => Live(m, h)
    case Write(h, d, bs) => Live(m, h) && d + |bs| <= m.handles[h].size
    case Begin => !m.relocating
    case Move(h) => m.relocating && h < |m.handles| && m.handles[h].state == Allocated
    case GiveUp => m.relocating && AllCopied(m) && m.aside != []
    case Finish => m.relocating && AllCopied(m) && m.aside == []
  }

  ghost function Apply(m: Memory, a: Action): Memory
    requires Inv(m) && Enabled(m, a)
  {
    match a
    case NewPage => Grow(m)
    case Alloc(h, size) => AllocData(m, h, size)
    case Drop(h) => FreeData(m, h)
    case Write(h, d, bs) => (StoreView(m, h, d, bs); Store(m, At(m.handles[h].ptr, d), bs))
    case Begin => Start(m)
    case Move(h) => Relocate(m, h)
    case GiveUp => FreeBlock(m)
    case Finish => Reset(m)
  }

  /** What an action does to the bytes the client sees: relocation is invisible. */
  ghost predicate Seen(v: map<nat, seq<byte>>, a: Action, v': map<nat, seq<byte>>) {
    match a
    case Alloc(h, size) => h in v' && |v'[h]| == size && v' == v[h := v'[h]]
    case Drop(h) => v' == v - {h}
    case Write(h, d, bs) => h in v && d + |bs| <= |v[h]| && v' == v[h := Splice(v[h], d, bs)]
    case _ => v' == v
  }

  lemma ActionKeeps(m: Memory, a: Action)
    requires Inv(m) && Enabled(m, a)
    ensures Inv(Apply(m, a)) && Seen(View(m), a, View(Apply(m, a)))
  {
    hide Inv, View, AllocData, Relocate, Start, FreeBlock, Reset, Grow, Store, FreeData;
    match a
    case NewPage => GrowKeeps(m);
    case Alloc(h, size) =>
      AllocKeeps(m, h, size);
      ViewAt(m, h);
    case Drop(h) => FreeKeeps(m, h);
    case Write(h, d, bs) => StoreView(m, h, d, bs);
    case Begin => StartKeeps(m);
    case Move(h) => RelocateKeeps(m, h);
    case GiveUp => FreeBlockKeeps(m);
    case Finish => ResetKeeps(m);
  }

  /** `m'` is reached from `m` by the actions `as'`, each enabled where it happens. */
  ghost predicate Runs(m: Memory, acts: seq<Action>, m': Memory)
    requires Inv(m)
    decreases |acts|
  {
    if acts == [] then m' == m
    else Enabled(m, acts[0]) && Inv(Apply(m, acts[0])) && Runs(Apply(m, acts[0]), acts[1..], m')
  }

  predicate Touches(a: Action, h: nat) {
    (a.Alloc? || a.Drop? || a.Write?) && a.h == h
  }

  /** In every run the invariant holds at the end, and a handle that is not allocated, freed or written keeps its bytes
      however often the memory is relocated in between. */
  lemma {:induction false} RunKeeps(m: Memory, acts: seq<Action>, m': Memory, h: nat)
    requires Inv(m) && Runs(m, acts, m')
    ensures Inv(m')
    ensures h in View(m) && (forall i :: 0 <= i < |acts| ==> !Touches(acts[i], h)) ==>
              h in View(m') && View(m')[h] == View(m)[h]
    decreases |acts|
  {
    hide Inv, View, Apply, Enabled;
    if acts != [] {
      ActionKeeps(m, acts[0]);
      RunKeeps(Apply(m, acts[0]), acts[1..], m', h);
    }
  }

  /** In every reachable state two live handles share no byte, each lies inside one block that is neither free nor, once
      the relocation is over, old, and what is not the size of a float starts at a multiple of eight. */
  lemma LiveApart(m: Memory, i: nat, j: nat)
    requires Inv(m) && Live(m, i) && Live(m, j) && i != j
    ensures var x, y := m.handles[i], m.handles[j];
            && (x.ptr.block != y.ptr.block || x.ptr.off + x.size <= y.ptr.off || y.ptr.off + y.size <= x.ptr.off)
            && x.ptr.block < |m.blocks| && x.ptr.off + x.size <= BLOCK && x.ptr.block !in m.spare
            && (m.relocating && x.state == Allocated <==> x.ptr.block in m.aside)
            && (m.relocating && x.state == Allocated <==> x.ptr.block !in m.heap)
            && (Rounded(x.size) != FLOAT ==> x.ptr.off % DOUBLE == 0)
  {
    var x, y := m.handles[i], m.handles[j];
    assert HandleOk(m, i) && HandleOk(m, j) && Disjoint(x, y);
    RoundedIs(x.size);
    RoundedIs(y.size);
    InList(m.heap, x.ptr.block);
    InList(m.aside, x.ptr.block);
  }

  // ---------------------------------------------------------------- the memory itself

  class FtlMemory {
    var blocks: seq<Block>
    var heap: seq<nat>
    var aside: seq<nat>
    var spare: seq<nat>
    var relocating: bool
    var handles: seq<Handle>

    ghost function State(): Memory
      reads this
    {
      Memory(blocks, heap, aside, spare, relocating, handles)
    }

    ghost predicate Valid()
      reads this
    {
      Inv(State()) && |handles| % PER_PAGE == 0
    }

    constructor ()
      ensures Valid() && View(State()) == map[] && !relocating
    {
      blocks, heap, aside, spare, relocating, handles := [], [], [], [], false, [];
      new;
      NothingYet();
    }

    /** `ftl_mem_new_block` */
    method ObtainBlock() returns (b: nat)
      requires Ready(State())
      modifies this`blocks, this`heap, this`spare
      ensures (State(), b) == NewBlock(old(State()))
    {
      InSpare(State());
      if spare != [] {
        b := spare[0];
        spare := spare[1..];
        blocks := blocks[b := blocks[b].(holeSize := 0, nextFree := 0)];
      } else {
        b := |blocks|;
        blocks := blocks + [Block(Zeros(), 0, 0, 0)];
      }
      heap := [b] + heap;
    }

    /** `ftl_mem_allocate_aligned` */
    method AllocateFrom(b: nat, n: nat) returns (p: Ptr)
      requires b < |blocks|
      modifies this`blocks
      ensures (State(), p) == AllocateIn(old(State()), b, n)
    {
      var block := blocks[b];
      if n == FLOAT {
        p := Ptr(b, block.nextFree);
        blocks := blocks[b := block.(nextFree := block.nextFree + n)];
      } else if block.nextFree % DOUBLE != 0 {
        var pad := DOUBLE - block.nextFree % DOUBLE;
        p := Ptr(b, block.nextFree + pad);
        blocks := blocks[b := block.(holeSize := pad, hole := block.nextFree, nextFree := block.nextFree + (n + pad))];
      } else {
        p := Ptr(b, block.nextFree);
        blocks := blocks[b := block.(nextFree := block.nextFree + n)];
      }
    }

    /** `ftl_mem_allocate` */
    method Reserve(size: nat) returns (p: Ptr)
      requires Ready(State())
      modifies this`blocks, this`heap, this`spare
      ensures (State(), p) == Allocate(old(State()), size)
    {
      hide Ready, AllocateAligned, Gives, ListsOk, BlocksOk;
      InSpare(State());
      var n := if size % FLOAT != 0 then size + FLOAT - size % FLOAT else size;
      if heap != [] {
        var b := heap[0];
        var first := blocks[b];
        if first.holeSize == n && first.nextFree - first.holeSize <= TOO_FAR {
          blocks := blocks[b := first.(holeSize := 0)];
          return Ptr(b, first.hole);
        }
        if BLOCK - first.nextFree > n {
          p := AllocateFrom(b, n);
          return;
        }
      }
      NewBlockOk(State());
      var b := ObtainBlock();
      p := AllocateFrom(b, n);
    }

    /** `ftl_get_new_handle`: the newest page is searched first. */
    method NewHandle() returns (h: nat)
      requires Valid()
      modifies this`handles
      ensures Valid() && View(State()) == old(View(State())) && h < |handles| && handles[h].state == Free
      ensures State() == old(State()) || State() == Grow(old(State()))
    {
      hide Inv, View;
      var page := |handles| / PER_PAGE;
      while page > 0
        invariant page * PER_PAGE <= |handles|
      {
        page := page - 1;
        var i := 0;
        while i < PER_PAGE
        {
          if handles[page * PER_PAGE + i].state == Free {
            h := page * PER_PAGE + i;
            return;
          }
          i := i + 1;
        }
      }
      GrowKeeps(State());
      h := |handles|;
      handles := handles + seq(PER_PAGE, _ => UNUSED);
    }

    /** `ftl_data_alloc` */
    method DataAlloc(size: nat) returns (h: nat)
      requires Valid() && 0 < size <= BLOCK
      modifies this
      ensures Valid() && relocating == old(relocating)
      ensures h !in old(View(State())) && Seen(old(View(State())), Alloc(h, size), View(State()))
    {
      hide Inv, View, Allocate, Ready, Grow;
      h := NewHandle();
      ghost var m := State();
      ActionKeeps(m, Alloc(h, size));
      AllocKeeps(m, h, size);
      ViewAt(m, h);
      InvReady(m);
      handles := handles[h := handles[h].(size := size)];
      ghost var m0 := State();
      SameReady(m, m0);
      AllocateIgnoresHandles(m, handles, size);
      var p := Reserve(size);
      handles := handles[h := Handle(if relocating then Copied else Allocated, size, p)];
      AllocateKeepsHandles(m, size);
      assert State() == AllocData(m, h, size);
    }

    method DataFree(h: nat)
      requires Valid() && Live(State(), h)
      modifies this`handles
      ensures Valid() && Seen(old(View(State())), Drop(h), View(State()))
    {
      FreeKeeps(State(), h);
      hide Inv, View;
      handles := handles[h := handles[h].(state := Free)];
    }

    method StartRelocation()
      requires Valid() && !relocating
      modifies this
      ensures Valid() && relocating && View(State()) == old(View(State())) && heap == []
    {
      hide Inv, View;
      StartKeeps(State());
      aside := heap;
      heap := [];
      relocating := true;
    }

    /** Moves an allocated handle to the new heap. */
    method MoveHandle(h: nat)
      requires Valid() && relocating && h < |handles| && handles[h].state == Allocated
      modifies this
      ensures State() == Relocate(old(State()), h) && |handles| == |old(handles)|
    {
      hide Inv, View, Allocate, Ready, Splice;
      ghost var m := State();
      InvReady(m);
      LiveReadable(m, h);
      HandleIs(m, h);
      AllocKeeps(m, h, handles[h].size);
      LiveReadable(AllocData(m, h, handles[h].size), h);
      AllocateKeepsHandles(m, handles[h].size);
      AllocateGives(m, handles[h].size);
      var x := handles[h];
      var p := Reserve(x.size);
      SameMem(m, State(), x.ptr.block, x.size, p);
      var bs := blocks[x.ptr.block].mem[x.ptr.off..x.ptr.off + x.size];
      blocks := blocks[p.block := blocks[p.block].(mem := Splice(blocks[p.block].mem, p.off, bs))];
      handles := handles[h := Handle(Copied, x.size, p)];
    }

    /** `ftl_data_relocate_and_get` */
    method RelocateAndGet(h: nat) returns (p: Ptr)
      requires Valid() && Live(State(), h)
      modifies this
      ensures Valid() && relocating == old(relocating) && View(State()) == old(View(State()))
      ensures |handles| == |old(handles)| && p == handles[h].ptr && p.block in heap
    {
      hide Inv, View, Relocate;
      LiveInHeap(State(), h);
      if relocating && handles[h].state == Allocated {
        RelocateKeeps(State(), h);
        MoveHandle(h);
      }
      p := handles[h].ptr;
    }

    /** `ftl_mem_end_memory_relocation` */
    method EndRelocation()
      requires Valid() && relocating
      modifies this
      ensures Valid() && !relocating && aside == [] && View(State()) == old(View(State()))
      ensures forall h :: 0 <= h < |handles| && handles[h].state != Free ==> handles[h].ptr.block in heap
    {
      hide Inv, View, Reset;
      MoveAll();
      ghost var m := State();
      // the relocation is over: free the old heap
      relocating := false;
      while aside != []
        invariant Inv(m) && m.relocating && AllCopied(m) && View(m) == old(View(State()))
        invariant State() == m.(relocating := false) && |handles| % PER_PAGE == 0
        decreases |aside|
      {
        FreeBlockKeeps(m);
        var b := aside[0];
        aside := aside[1..];
        spare := [b] + spare;
        m := FreeBlock(m);
      }
      ResetKeeps(m);
      ResetHandles(m);
      LiveAllInHeap(Reset(m));
    }

    /** Relocates the handles that have not been relocated yet, newest page first. */
    method MoveAll()
      requires Valid() && relocating
      modifies this
      ensures Valid() && relocating && AllCopied(State()) && View(State()) == old(View(State()))
    {
      hide Inv, View, Relocate;
      var page := |handles| / PER_PAGE;
      while page > 0
        invariant 0 <= page && page * PER_PAGE <= |handles|
        invariant Valid() && relocating && View(State()) == old(View(State()))
        invariant forall h :: page * PER_PAGE <= h < |handles| ==> handles[h].state != Allocated
      {
        page := page - 1;
        var i := 0;
        while i < PER_PAGE
          invariant i <= PER_PAGE && (page + 1) * PER_PAGE <= |handles| && page * PER_PAGE + i <= |handles|
          invariant Valid() && relocating && View(State()) == old(View(State()))
          invariant forall h :: (page + 1) * PER_PAGE <= h < |handles| ==> handles[h].state != Allocated
          invariant forall h :: page * PER_PAGE <= h < page * PER_PAGE + i ==> handles[h].state != Allocated
        {
          var h := page * PER_PAGE + i;
          if handles[h].state == Allocated {
            RelocateKeeps(State(), h);
            MoveHandle(h);
          }
          i := i + 1;
        }
      }
    }

    /** `ftl_reset_handle_table` */
    method ResetHandles(ghost m: Memory)
      requires |handles| % PER_PAGE == 0 && State() == m.(relocating := false)
      modifies this`handles
      ensures State() == Reset(m) && |handles| % PER_PAGE == 0
    {
      ghost var was := handles;
      var h := 0;
      while h < |handles|
        invariant h <= |handles| == |was|
        invariant forall k :: 0 <= k < |handles| ==> handles[k] == if k < h then Settle(was[k]) else was[k]
      {
        if handles[h].state != Free {
          handles := handles[h := handles[h].(state := Allocated)];
        }
        h := h + 1;
      }
      assert handles == Reset(m).handles;
    }
  }

  lemma NothingYet()
    ensures var m := Memory([], [], [], [], false, []); Inv(m) && View(m) == map[]
  {
    var m := Memory([], [], [], [], false, []);
    assert multiset(m.heap) == multiset{};
    assert ListsOk(m);
    forall k: nat ensures k !in View(m) {
      ViewAt(m, k);
    }
  }

  lemma InSpare(m: Memory)
    requires Ready(m)
    ensures m.spare != [] ==> m.spare[0] < |m.blocks|
    ensures m.heap != [] ==> m.heap[0] < |m.blocks|
  {
    if m.spare != [] {
      InList(m.spare, m.spare[0]);
    }
  }

  lemma AllocateKeepsHandles(m: Memory, size: nat)
    ensures Allocate(m, size).0.handles == m.handles && Allocate(m, size).0.relocating == m.relocating
  {
  }

  lemma AllocateIgnoresHandles(m: Memory, hs: seq<Handle>, size: nat)
    ensures Allocate(m.(handles := hs), size) == (Allocate(m, size).0.(handles := hs), Allocate(m, size).1)
  {
  }

  lemma SameMem(m: Memory, m': Memory, b: nat, size: nat, p: Ptr)
    requires Gives(m, size, m', p) && b < |m.blocks|
    ensures b < |m'.blocks| && m'.blocks[b].mem == m.blocks[b].mem && p.block < |m'.blocks|
  {
  }

  lemma LiveInHeap(m: Memory, h: nat)
    requires Inv(m) && Live(m, h)
    ensures !(m.relocating && m.handles[h].state == Allocated) ==> m.handles[h].ptr.block in m.heap
  {
    assert HandleOk(m, h);
  }

  lemma LiveAllInHeap(m: Memory)
    requires Inv(m) && !m.relocating
    ensures forall h :: 0 <= h < |m.handles| && m.handles[h].state != Free ==> m.handles[h].ptr.block in m.heap
  {
    forall h: nat | h < |m.handles| && m.handles[h].state != Free ensures m.handles[h].ptr.block in m.heap {
      LiveInHeap(m, h);
    }
  }
}
