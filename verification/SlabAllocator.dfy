// NewPage, Alloc and Free of the slab allocator, working in place on the shared bytes.
// Every method runs under the allocator's one lock, so each is one atomic step.
module SlabAllocator {
  import opened Wrappers
  import opened SlabClasses
  import opened SlabMemory
  import opened Slab

  /** The overflow test of NewPage, `bump + PAGE_SIZE > end` in 32-bit arithmetic, tells the
      truth exactly when the sum does not wrap. */
  lemma PageTestExactIff(bump: nat, end: nat)
    requires bump <= end < U32
    ensures ((bump + PAGE_SIZE) % U32 > end <==> bump + PAGE_SIZE > end) <==> bump + PAGE_SIZE < U32
  {
  }

  /** With the condition on the region's end, it never wraps. */
  lemma BumpNeverWraps(start: nat, end: nat, k: nat)
    requires NoWrap(start, end) && PageAt(start, k) <= end
    ensures PageAt(start, k) + PAGE_SIZE < U32
    ensures (PageAt(start, k) + PAGE_SIZE) % U32 == PageAt(start, k) + PAGE_SIZE
  {
  }

  lemma NextPage(h: View)
    requires Inv(h)
    ensures (h.bump + PAGE_SIZE) % U32 == h.bump + PAGE_SIZE < U32 && 0 < h.bump <= h.end <= |h.m|
  {
    BumpNeverWraps(h.start, h.end, |h.pages|);
  }

  lemma InvSizes(h: View)
    requires Inv(h)
    ensures |h.heads| == |h.chains| == |h.live| == MAX_CLASSES && h.bump <= |h.m| && h.bump <= h.end
  {
  }

  /** The chunk of a fresh page that is handed out first. */
  function LastChunk(base: nat, c: nat): nat
    requires c < MAX_CLASSES
  {
    if Capacity(c) == 0 then 0 else ChunkAt(base, c, Capacity(c) - 1)
  }

  /** How many blocks of class c can still be had, if no other class takes a page: what is on
      its free list, and what the pages left hold. */
  ghost function Room(h: View, c: nat): nat
    requires Inv(h) && c < MAX_CLASSES
  {
    |h.chains[c]| + (h.end - h.bump) / PAGE_SIZE * Capacity(c)
  }

  lemma RoomIs(h: View, c: nat)
    requires Inv(h) && c < MAX_CLASSES
    ensures Room(h, c) == 0 <==> h.heads[c] == 0 && h.bump + PAGE_SIZE > h.end
    ensures h.heads[c] == 0 <==> h.chains[c] == []
  {
    hide Capacity;
    InvSizes(h);
    EmptyIff(h, c);
    CapacityPositive(c);
    PagesLeft(h.end - h.bump, Capacity(c));
  }

  lemma RoomAfterPop(h: View, z: View, c: nat)
    requires Inv(h) && Inv(z) && c < MAX_CLASSES && |h.chains| == |z.chains| == MAX_CLASSES && h.chains[c] != []
    requires z.chains[c] == h.chains[c][1..] && z.bump == h.bump && z.end == h.end
    ensures Room(z, c) == Room(h, c) - 1
  {
    hide Capacity;
  }

  lemma RoomAfterPage(h: View, z: View, c: nat)
    requires Inv(h) && Inv(z) && c < MAX_CLASSES && |h.chains| == |z.chains| == MAX_CLASSES
    requires |z.chains[c]| == |h.chains[c]| + Capacity(c)
    requires z.bump == h.bump + PAGE_SIZE && z.end == h.end && z.bump <= z.end
    ensures Room(z, c) == Room(h, c)
  {
    hide Capacity;
    CapacityPositive(c);
    PagesLeft(h.end - h.bump, Capacity(c));
  }

  lemma CapacityPositive(c: nat)
    requires c < MAX_CLASSES
    ensures Capacity(c) >= 1
  {
    Geometry(c);
  }

  /** With a page left there is room for at least as many items as fit into 65008 bytes. */
  lemma RoomOnPage(h: View, c: nat)
    requires Inv(h) && c < MAX_CLASSES && h.bump + PAGE_SIZE <= h.end
    ensures Room(h, c) >= (65536 - 528) / ItemSize(c)
  {
    hide Capacity, ItemSize, Payload;
    Geometry(c);
    PageIsFull(c);
    PagesLeft(h.end - h.bump, Capacity(c));
  }

  class ShmSlab {
    const mem: array<byte>
    const start: nat
    const end: nat
    var bump: nat
    var freeList: seq<nat>   // SlabClass.free_list of each class
    var pageList: seq<nat>   // SlabClass.page_list of each class
    ghost var pages: seq<nat>
    ghost var chains: seq<seq<nat>>
    ghost var live: seq<set<nat>>

    ghost function Here(): View
      reads this, mem
    {
      View(mem[..], start, end, bump, freeList, pages, chains, live)
    }

    ghost predicate Valid()
      reads this, mem
    {
      Inv(Here()) && |pageList| == MAX_CLASSES && forall c :: 0 <= c < MAX_CLASSES ==> pageList[c] < U32
    }

    /** `first` is the offset right after the allocator's own header. */
    constructor (memory: array<byte>, first: nat, regionEnd: nat)
      requires 0 < first && NoWrap(first, regionEnd) && regionEnd <= memory.Length
      ensures Valid() && mem == memory && start == first && end == regionEnd
      ensures pages == [] && live == seq(MAX_CLASSES, _ => {})
    {
      mem, start, end, bump := memory, first, regionEnd, first;
      freeList, pageList := seq(MAX_CLASSES, _ => 0), seq(MAX_CLASSES, _ => 0);
      pages, chains, live := [], seq(MAX_CLASSES, _ => []), seq(MAX_CLASSES, _ => {});
    }

    method StoreBytes(off: nat, b0: byte, b1: byte, b2: byte, b3: byte)
      requires off + 4 <= mem.Length
      modifies mem
      ensures Wrote(old(mem[..]), mem[..], off, b0 + 0x100 * b1 + 0x1_0000 * b2 + 0x100_0000 * b3)
    {
      mem[off] := b0;
      mem[off + 1] := b1;
      mem[off + 2] := b2;
      mem[off + 3] := b3;
    }

    method WriteWord(off: nat, w: nat)
      requires off + 4 <= mem.Length && w < U32
      modifies mem
      ensures Wrote(old(mem[..]), mem[..], off, w)
    {
      var b0, b1, b2, b3 := w % 0x100, w / 0x100 % 0x100, w / 0x1_0000 % 0x100, w / 0x100_0000;
      WordDigits(w, b0, b1, b2, b3);
      StoreBytes(off, b0, b1, b2, b3);
    }

    method ReadWord(off: nat) returns (w: nat)
      requires off + 4 <= mem.Length
      ensures w == Word(mem[..], off)
    {
      w := (mem[off] as int) + 0x100 * (mem[off + 1] as int) + 0x1_0000 * (mem[off + 2] as int)
           + 0x100_0000 * (mem[off + 3] as int);
    }

    /** Page header and zeroed bitmap. */
    method InitHeader(base: nat, cls: nat)
      requires cls < MAX_CLASSES && |pageList| == MAX_CLASSES && pageList[cls] < U32
      requires base + PAGE_SIZE <= mem.Length
      modifies mem
      ensures Same(old(mem[..]), mem[..], 0, base)
      ensures Word(mem[..], base) == pageList[cls] && Word(mem[..], base + 4) == cls
      ensures Word(mem[..], base + 8) == Capacity(cls) && Word(mem[..], base + 12) == HEADER
      ensures forall i :: base + HEADER <= i < base + Payload(cls) ==> mem[i] == 0
    {
      Geometry(cls);
      WriteWord(base, pageList[cls]);
      WriteWord(base + 4, cls);
      WriteWord(base + 8, Capacity(cls));
      WriteWord(base + 12, HEADER);
      ghost var m := mem[..];
      var i := base + HEADER;
      while i < base + Payload(cls)
        invariant base + HEADER <= i <= base + Payload(cls)
        invariant Same(m, mem[..], 0, base + HEADER)
        invariant forall j :: base + HEADER <= j < i ==> mem[j] == 0
      {
        mem[i] := 0;
        i := i + 1;
      }
      SameWord(m, mem[..], base);
      SameWord(m, mem[..], base + 4);
      SameWord(m, mem[..], base + 8);
      SameWord(m, mem[..], base + 12);
    }

    /** The loop that threads the chunks of a fresh page onto one list. */
    method LinkChunks(base: nat, cls: nat) returns (first: nat)
      requires cls < MAX_CLASSES && 0 < base && base + PAGE_SIZE <= mem.Length
      requires base + PAGE_SIZE < U32
      modifies mem
      ensures Same(old(mem[..]), mem[..], 0, base + Payload(cls))
      ensures ChainTo(mem[..], first, Carve(base, cls, Capacity(cls)), 0)
    {
      hide Capacity, Payload, ItemSize, ChunkAt, ChainTo, Carve, Word, Apart, Distinct;
      NoChunks(mem[..], base, cls);
      ghost var m := mem[..];
      var prev: nat, i: nat := 0, 0;
      while i < Capacity(cls)
        invariant i <= Capacity(cls) && prev < U32
        invariant Same(m, mem[..], 0, base + Payload(cls))
        invariant ChainTo(mem[..], prev, Carve(base, cls, i), 0)
      {
        NextChunk(base, cls, i);
        var off := base + Payload(cls) + i * ItemSize(cls);
        ghost var before := mem[..];
        WriteWord(off, prev);
        CarveApart(base, cls, i + 1);
        ChainPush(before, mem[..], Carve(base, cls, i + 1), prev, 0);
        prev := off;
        i := i + 1;
      }
      first := prev;
    }

    /** Header, bitmap and chunk list of a fresh page, the class's free list hooked behind it. */
    method FillPage(base: nat, cls: nat) returns (first: nat)
      requires cls < MAX_CLASSES && |pageList| == |freeList| == MAX_CLASSES
      requires pageList[cls] < U32 && freeList[cls] < U32
      requires 0 < base && base + PAGE_SIZE <= mem.Length && base + PAGE_SIZE < U32
      modifies mem
      ensures Same(old(mem[..]), mem[..], 0, base)
      ensures first == LastChunk(base, cls) != 0
      ensures ChainTo(mem[..], first, Carve(base, cls, Capacity(cls)), freeList[cls])
    {
      Geometry(cls);
      InitHeader(base, cls);
      first := LinkChunks(base, cls);
      if first != 0 {
        var tail := base + Payload(cls);
        ghost var before := mem[..];
        WriteWord(tail, freeList[cls]);
        LinkTail(before, mem[..], base, cls, first, freeList[cls]);
      }
    }

    /** A new page for class `cls`; 0 when the region is exhausted. */
    method NewPage(cls: nat) returns (page: nat)
      requires Valid() && cls < MAX_CLASSES
      modifies this, mem
      ensures Valid()
      ensures page == 0 <==> old(bump) + PAGE_SIZE > end
      ensures page == 0 ==> Here() == old(Here()) && pageList == old(pageList)
      ensures page != 0 ==>
        && page == old(bump) && freeList[cls] == LastChunk(page, cls) != 0
        && bump == old(bump) + PAGE_SIZE && pages == old(pages) + [cls] && live == old(live)
        && Room(Here(), cls) == old(Room(Here(), cls))
        && pageList == old(pageList)[cls := page]
      ensures Same(old(mem[..]), mem[..], 0, old(bump))
    {
      hide Inv, Room;
      InvSizes(Here());
      var base := bump;
      var next := (base + PAGE_SIZE) % U32;
      NextPage(Here());
      assert next == base + PAGE_SIZE;
      if next > end {
        return 0;
      }
      ghost var h := Here();
      HeadIsWord(h, cls);
      bump := next;
      var first := FillPage(base, cls);
      pageList := pageList[cls := base];
      freeList := freeList[cls := first];
      chains := chains[cls := Carve(base, cls, Capacity(cls)) + chains[cls]];
      pages := pages + [cls];
      NewPageInv(h, mem[..], cls, first);
      SameView(Here(), Carved(h, mem[..], cls, first));
      RoomAfterPage(h, Here(), cls);
      return base;
    }

    /** Takes the first chunk off a free list. */
    method Pop(c: nat) returns (off: nat)
      requires Valid() && c < MAX_CLASSES && freeList[c] != 0
      modifies this
      ensures Valid()
      ensures off == old(freeList)[c] && off !in old(live)[c]
      ensures live == old(live)[c := old(live)[c] + {off}]
      ensures old(chains)[c] != [] && chains == old(chains)[c := old(chains)[c][1..]]
      ensures bump == old(bump) && pages == old(pages)
      ensures Room(Here(), c) == old(Room(Here(), c)) - 1
    {
      hide Room;
      ghost var h := Here();
      PopInv(h, c);
      off := freeList[c];
      var next := ReadWord(off);
      freeList := freeList[c := next];
      chains := chains[c := chains[c][1..]];
      live := live[c := live[c] + {off}];
      assert Here() == Popped(h, c);
      RoomAfterPop(h, Here(), c);
    }

    method Alloc(bytes: bv32) returns (off: nat)
      requires Valid()
      modifies this, mem
      ensures Valid()
      ensures var c := ClassFor(bytes as int);
        off == 0 <==> c.None? || (old(freeList)[c.value] == 0 && old(bump) + PAGE_SIZE > end)
      ensures off == 0 ==> Here() == old(Here())
      ensures var c := ClassFor(bytes as int); c.Some? ==>
        && (off == 0 <==> old(Room(Here(), c.value)) == 0)
        && (off != 0 ==> Room(Here(), c.value) == old(Room(Here(), c.value)) - 1)
      ensures off != 0 ==> var c := ClassFor(bytes as int).value;
        && off !in old(live)[c]
        && live == old(live)[c := old(live)[c] + {off}]
        && (if old(freeList)[c] != 0 then off == old(freeList)[c] && bump == old(bump) && pages == old(pages)
            else bump == old(bump) + PAGE_SIZE && pages == old(pages) + [c] && off == LastChunk(old(bump), c))
      ensures Same(old(mem[..]), mem[..], 0, old(bump))
    {
      hide Inv, Carved, Room, ClassFor;
      InvSizes(Here());
      var cls := ClassOfRequest(bytes);
      if cls.None? {
        return 0;
      }
      var c := cls.value;
      ClassSmall(bytes as int);
      RoomIs(Here(), c);
      if freeList[c] == 0 {
        var page := NewPage(c);
        if page == 0 && freeList[c] == 0 {
          return 0;
        }
      }
      off := Pop(c);
    }

    /** From an empty free list with one page left, at least as many requests of a class succeed
        as items fit into 65008 bytes; in general exactly Room of them. */
    method AllocMany(bytes: bv32, k: nat) returns (offs: seq<nat>)
      requires Valid() && ClassFor(bytes as int).Some?
      modifies this, mem
      ensures Valid() && |offs| <= k
      ensures var c := ClassFor(bytes as int).value;
        && |offs| == (if k <= old(Room(Here(), c)) then k else old(Room(Here(), c)))
        && (old(bump) + PAGE_SIZE <= end && k <= (65536 - 528) / ItemSize(c) ==> |offs| == k)
      ensures Distinct(offs) && forall o :: o in offs ==> o != 0 && o !in old(live)[ClassFor(bytes as int).value]
      ensures var c := ClassFor(bytes as int).value; live == old(live)[c := old(live)[c] + Blocks(offs)]
    {
      hide Inv, Room, ClassFor, Capacity, Payload, ItemSize;
      offs := [];
      ghost var c := ClassFor(bytes as int).value;
      ClassSmall(bytes as int);
      InvSizes(Here());
      assert old(live)[c] + Blocks(offs) == old(live)[c] && old(live)[c := old(live)[c]] == old(live);
      if bump + PAGE_SIZE <= end {
        RoomOnPage(Here(), c);
      }
      while |offs| < k
        invariant Valid() && |offs| <= k && Room(Here(), c) == old(Room(Here(), c)) - |offs|
        invariant live == old(live)[c := old(live)[c] + Blocks(offs)]
        invariant Distinct(offs) && forall o :: o in offs ==> o != 0 && o !in old(live)[c]
        decreases k - |offs|
      {
        var off := Alloc(bytes);
        if off == 0 {
          return;
        }
        BlocksSnoc(offs, off);
        assert old(live)[c] + Blocks(offs) + {off} == old(live)[c] + (Blocks(offs) + {off});
        offs := offs + [off];
      }
    }

    /** Gives a block back; `bytes` only has to fall into the block's class. */
    method Free(off: nat, bytes: bv32)
      requires Valid()
      requires off != 0 && ClassFor(bytes as int).Some? ==> off in live[ClassFor(bytes as int).value]
      modifies this, mem
      ensures Valid()
      ensures off == 0 || ClassFor(bytes as int).None? ==> Here() == old(Here())
      ensures off != 0 && ClassFor(bytes as int).Some? ==>
        var c := ClassFor(bytes as int).value;
        && live == old(live)[c := old(live)[c] - {off}]
        && chains == old(chains)[c := [off] + old(chains)[c]]
        && pages == old(pages) && bump == old(bump)
        && Wrote(old(mem[..]), mem[..], off, old(freeList)[c])
    {
      if off == 0 {
        return;
      }
      var cls := ClassOfRequest(bytes);
      if cls.None? {
        return;
      }
      var c := cls.value;
      ghost var h := Here();
      PushReady(h, c, off);
      WriteWord(off, freeList[c]);
      PushInv(h, mem[..], c, off);
      freeList := freeList[c := off];
      chains := chains[c := [off] + chains[c]];
      live := live[c := live[c] - {off}];
      assert Here() == Pushed(h, mem[..], c, off);
    }

    /** The holder of a live block stores a byte in it. */
    method Store(cls: nat, block: nat, i: nat, b: byte)
      requires Valid() && cls < MAX_CLASSES && block in live[cls] && i < ItemSize(cls)
      modifies mem
      ensures Valid() && block + i < mem.Length && mem[..] == old(mem[..])[block + i := b]
    {
      LiveInMemory(Here(), cls, block);
      ghost var h := Here();
      mem[block + i] := b;
      UserWriteKeepsInv(h, mem[..], cls, block);
    }
  }

  // ---- lemmas for the loops ---------------------------------------------------------

  function Blocks(offs: seq<nat>): set<nat> { set o | o in offs }

  lemma BlocksSnoc(offs: seq<nat>, o: nat)
    requires Distinct(offs) && o !in Blocks(offs)
    ensures Distinct(offs + [o]) && Blocks(offs + [o]) == Blocks(offs) + {o}
    ensures forall x :: x in offs + [o] <==> x in offs || x == o
  {
    forall i, j | 0 <= i < j < |offs + [o]| ensures (offs + [o])[i] != (offs + [o])[j] {
      assert offs[i] in offs;
    }
  }

  lemma NoChunks(m: seq<byte>, base: nat, c: nat)
    requires c < MAX_CLASSES
    ensures ChainTo(m, 0, Carve(base, c, 0), 0) && Payload(c) <= PAGE_SIZE
  {
    Geometry(c);
  }

  lemma NextChunk(base: nat, c: nat, i: nat)
    requires c < MAX_CLASSES && i < Capacity(c)
    ensures var off := base + Payload(c) + i * ItemSize(c);
      && off == ChunkAt(base, c, i) && base + Payload(c) <= off && 0 < off && off + 16 <= base + PAGE_SIZE
      && Carve(base, c, i + 1) == [off] + Carve(base, c, i) && Carve(base, c, i + 1)[1..] == Carve(base, c, i)
  {
    Geometry(c);
    ItemsApart(i, Capacity(c), ItemSize(c));
  }

  lemma WordDigits(w: nat, b0: nat, b1: nat, b2: nat, b3: nat)
    requires w < U32
    requires b0 == w % 0x100 && b1 == w / 0x100 % 0x100 && b2 == w / 0x1_0000 % 0x100 && b3 == w / 0x100_0000
    ensures b0 < 0x100 && b1 < 0x100 && b2 < 0x100 && b3 < 0x100
    ensures w == b0 + 0x100 * b1 + 0x1_0000 * b2 + 0x100_0000 * b3
  {
  }

  lemma ClassSmall(bytes: nat)
    requires ClassFor(bytes).Some?
    ensures ClassFor(bytes).value < MAX_CLASSES
  {
  }

  lemma EmptyIff(h: View, c: nat)
    requires Inv(h) && c < MAX_CLASSES
    ensures h.heads[c] == 0 <==> h.chains[c] == []
  {
    assert ClassInv(h.m, h.start, h.pages, c, h.heads[c], h.chains[c], h.live[c]);
    if h.chains[c] != [] {
      assert h.chains[c][0] in h.chains[c];
      ChunkInside(h, c, h.chains[c][0]);
    }
  }

  /** Using up a page takes its chunks off what the pages left hold. */
  lemma PagesLeft(left: nat, capacity: nat)
    requires capacity > 0
    ensures left < PAGE_SIZE ==> left / PAGE_SIZE * capacity == 0
    ensures left >= PAGE_SIZE ==> left / PAGE_SIZE * capacity == (left - PAGE_SIZE) / PAGE_SIZE * capacity + capacity
    ensures left >= PAGE_SIZE ==> left / PAGE_SIZE * capacity >= capacity
  {
    if left >= PAGE_SIZE {
      var n := (left - PAGE_SIZE) / PAGE_SIZE;
      assert left / PAGE_SIZE == n + 1;
      assert (n + 1) * capacity == n * capacity + capacity;
    }
  }

  lemma SameView(a: View, b: View)
    requires a.m == b.m && a.start == b.start && a.end == b.end && a.bump == b.bump
    requires a.heads == b.heads && a.pages == b.pages && a.chains == b.chains && a.live == b.live
    ensures a == b
  {
  }

  lemma LiveInMemory(h: View, c: nat, o: nat)
    requires Inv(h) && c < MAX_CLASSES && o in h.live[c]
    ensures o + ItemSize(c) <= |h.m|
  {
    assert ClassInv(h.m, h.start, h.pages, c, h.heads[c], h.chains[c], h.live[c]);
    ChunkInside(h, c, o);
  }

  /** Hooking the class's old free list behind the last chunk of the page. */
  lemma LinkTail(m: seq<byte>, r: seq<byte>, base: nat, c: nat, first: nat, head: nat)
    requires c < MAX_CLASSES
    requires ChainTo(m, first, Carve(base, c, Capacity(c)), 0)
    requires Wrote(m, r, base + Payload(c), head)
    ensures ChainTo(r, first, Carve(base, c, Capacity(c)), head)
  {
    Geometry(c);
    var list := Carve(base, c, Capacity(c));
    CarveApart(base, c, Capacity(c));
    assert list[|list| - 1] == ChunkAt(base, c, 0) == base + Payload(c);
    ChainRedirect(m, r, first, list, 0, head);
  }
}
