// The slab allocator of server/core/shm/shm_slab.cpp: pages carved into equal chunks, whose
// free lists are threaded through the first word of the free chunks themselves.
module Slab {
  import opened Wrappers
  import opened SlabClasses
  import opened SlabMemory

  // ---- layout -----------------------------------------------------------------------

  /** Page k starts k pages after the first one. */
  function PageAt(start: nat, k: nat): nat { start + k * PAGE_SIZE }

  function ChunkAt(base: nat, c: nat, i: nat): nat
    requires c < MAX_CLASSES
  {
    base + Payload(c) + i * ItemSize(c)
  }

  /** o is the i-th chunk of page k, which was carved for class c. */
  ghost predicate IsChunkOf(start: nat, pages: seq<nat>, c: nat, o: nat, k: nat, i: nat) {
    k < |pages| && pages[k] == c < MAX_CLASSES && i < Capacity(c) && o == ChunkAt(PageAt(start, k), c, i)
  }

  ghost predicate IsChunk(start: nat, pages: seq<nat>, c: nat, o: nat) {
    exists k: nat, i: nat :: IsChunkOf(start, pages, c, o, k, i)
  }

  lemma ChunkBounds(start: nat, pages: seq<nat>, c: nat, o: nat, k: nat, i: nat)
    requires IsChunkOf(start, pages, c, o, k, i)
    ensures PageAt(start, k) + HEADER < PageAt(start, k) + Payload(c) <= o
    ensures o + ItemSize(c) <= PageAt(start, k) + PAGE_SIZE <= PageAt(start, |pages|)
  {
    Geometry(c);
    ItemsApart(i, Capacity(c), ItemSize(c));
  }

  lemma ItemsApart(i: nat, j: nat, size: nat)
    requires i < j
    ensures i * size + size <= j * size
  {
    assert (i + 1) * size <= j * size;
    assert (i + 1) * size == i * size + size;
  }

  /** Two different chunks, of whatever classes and pages, share no byte. */
  lemma ChunksDisjoint(start: nat, pages: seq<nat>, c: nat, o: nat, d: nat, p: nat)
    requires IsChunk(start, pages, c, o) && IsChunk(start, pages, d, p)
    requires c < MAX_CLASSES && d < MAX_CLASSES
    ensures (c == d && o == p) || o + ItemSize(c) <= p || p + ItemSize(d) <= o
  {
    var k: nat, i: nat :| IsChunkOf(start, pages, c, o, k, i);
    var l: nat, j: nat :| IsChunkOf(start, pages, d, p, l, j);
    ChunkBounds(start, pages, c, o, k, i);
    ChunkBounds(start, pages, d, p, l, j);
    if k == l {
      if i < j {
        ItemsApart(i, j, ItemSize(c));
      } else if j < i {
        ItemsApart(j, i, ItemSize(c));
      }
    }
  }

  // ---- invariant --------------------------------------------------------------------

  /** The bump pointer never reaches a value from which adding a page wraps around 2^32. */
  predicate NoWrap(start: nat, end: nat) {
    start <= end < U32 && end - (end - start) % PAGE_SIZE + PAGE_SIZE < U32
  }

  /** Number of chunks of class c in the pages carved so far. */
  ghost function CarvedCount(pages: seq<nat>, c: nat): nat
    requires c < MAX_CLASSES
  {
    if pages == [] then 0
    else CarvedCount(pages[..|pages| - 1], c) + if pages[|pages| - 1] == c then Capacity(c) else 0
  }

  ghost predicate ClassInv(m: seq<byte>, start: nat, pages: seq<nat>, c: nat,
                           head: nat, chain: seq<nat>, live: set<nat>)
    requires c < MAX_CLASSES
  {
    && ChainTo(m, head, chain, 0)
    && Distinct(chain)
    && (forall o :: o in chain ==> o !in live)
    && (forall o :: o in chain || o in live <==> IsChunk(start, pages, c, o))
    && |chain| + |live| == CarvedCount(pages, c)
  }

  /** Memory, bump pointer, list heads and pages of an allocator, with the two collections
      they stand for: the free chain and the live blocks of every class. */
  datatype View = View(m: seq<byte>, start: nat, end: nat, bump: nat, heads: seq<nat>, pages: seq<nat>,
                             chains: seq<seq<nat>>, live: seq<set<nat>>)

  ghost predicate Shape(h: View) {
    && |h.heads| == |h.chains| == |h.live| == MAX_CLASSES
    && 0 < h.start && NoWrap(h.start, h.end) && h.end <= |h.m|
    && h.bump == PageAt(h.start, |h.pages|) <= h.end
    && (forall k :: 0 <= k < |h.pages| ==> h.pages[k] < MAX_CLASSES)
  }

  ghost predicate Inv(h: View) {
    && Shape(h)
    && (forall c :: 0 <= c < MAX_CLASSES ==> ClassInv(h.m, h.start, h.pages, c, h.heads[c], h.chains[c], h.live[c]))
  }

  lemma ChunkInside(h: View, c: nat, o: nat)
    requires Shape(h) && c < MAX_CLASSES
    requires IsChunk(h.start, h.pages, c, o)
    ensures h.start < o && o + ItemSize(c) <= h.bump <= |h.m|
  {
    var k: nat, i: nat :| IsChunkOf(h.start, h.pages, c, o, k, i);
    ChunkBounds(h.start, h.pages, c, o, k, i);
  }

  /** Chains of a class survive writes that stay inside chunks which are not on them. */
  lemma {:induction false} ClassFrame(m: seq<byte>, r: seq<byte>, start: nat, pages: seq<nat>, c: nat,
                                      head: nat, chain: seq<nat>, live: set<nat>)
    requires c < MAX_CLASSES && ClassInv(m, start, pages, c, head, chain, live) && |r| == |m|
    requires forall o :: o in chain && o + 4 <= |m| ==> Same(m, r, o, o + 4)
    ensures ClassInv(r, start, pages, c, head, chain, live)
  {
    ChainFrame(m, r, head, chain, 0);
  }

  /** Writing anywhere inside one live block changes no free list: whatever the holder of a
      block stores there, the allocator's invariant stands. */
  lemma {:induction false} UserWriteKeepsInv(h: View, r: seq<byte>, d: nat, p: nat)
    requires Inv(h)
    requires d < MAX_CLASSES && p in h.live[d]
    requires Same(h.m, r, 0, p) && p + ItemSize(d) <= |h.m| && Same(h.m, r, p + ItemSize(d), |h.m|)
    ensures Inv(h.(m := r))
  {
    forall c | 0 <= c < MAX_CLASSES ensures ClassInv(r, h.start, h.pages, c, h.heads[c], h.chains[c], h.live[c]) {
      assert ClassInv(h.m, h.start, h.pages, c, h.heads[c], h.chains[c], h.live[c]);
      assert ClassInv(h.m, h.start, h.pages, d, h.heads[d], h.chains[d], h.live[d]);
      forall o | o in h.chains[c] && o + 4 <= |h.m| ensures Same(h.m, r, o, o + 4) {
        ChunksDisjoint(h.start, h.pages, c, o, d, p);
      }
      ClassFrame(h.m, r, h.start, h.pages, c, h.heads[c], h.chains[c], h.live[c]);
    }
  }

  /** ... and no byte of any other live block. */
  lemma UserWriteSparesOthers(h: View, r: seq<byte>, d: nat, p: nat, c: nat, o: nat)
    requires Inv(h)
    requires d < MAX_CLASSES && p in h.live[d] && c < MAX_CLASSES && o in h.live[c] && (c != d || o != p)
    requires Same(h.m, r, 0, p) && p + ItemSize(d) <= |h.m| && Same(h.m, r, p + ItemSize(d), |h.m|)
    ensures o + ItemSize(c) <= |h.m| && Same(h.m, r, o, o + ItemSize(c))
  {
    assert ClassInv(h.m, h.start, h.pages, c, h.heads[c], h.chains[c], h.live[c]);
    assert ClassInv(h.m, h.start, h.pages, d, h.heads[d], h.chains[d], h.live[d]);
    ChunksDisjoint(h.start, h.pages, c, o, d, p);
    ChunkInside(h, c, o);
  }

  /** Live blocks are inside the carved region, off every free list, and clear of the header
      and the bitmap of every page. */
  lemma LiveBlockPlaced(h: View, c: nat, o: nat, page: nat)
    requires Inv(h) && c < MAX_CLASSES && o in h.live[c] && page < |h.pages|
    ensures h.start < o && o + ItemSize(c) <= h.bump <= h.end
    ensures o + ItemSize(c) <= PageAt(h.start, page) || PageAt(h.start, page) + Payload(h.pages[page]) <= o
    ensures o !in h.chains[c]
  {
    hide IsChunkOf, ItemSize, Payload, PageAt, ClassInv;
    LiveIsChunk(h, c, o);
    ChunkInside(h, c, o);
    var k: nat, i: nat :| IsChunkOf(h.start, h.pages, c, o, k, i);
    ChunkClear(h.start, h.pages, c, o, k, i, page);
  }

  lemma ChunkClear(start: nat, pages: seq<nat>, c: nat, o: nat, k: nat, i: nat, page: nat)
    requires IsChunkOf(start, pages, c, o, k, i) && page < |pages| && pages[page] < MAX_CLASSES
    ensures o + ItemSize(c) <= PageAt(start, page) || PageAt(start, page) + Payload(pages[page]) <= o
  {
    hide ItemSize, Payload, Capacity, PageAt;
    ChunkBounds(start, pages, c, o, k, i);
    Geometry(pages[page]);
    PagesApart(start, k, page);
    PagesApart(start, page, k);
  }

  lemma LiveIsChunk(h: View, c: nat, o: nat)
    requires Inv(h) && c < MAX_CLASSES && o in h.live[c]
    ensures IsChunk(h.start, h.pages, c, o) && o !in h.chains[c] && h.bump <= h.end
  {
    assert ClassInv(h.m, h.start, h.pages, c, h.heads[c], h.chains[c], h.live[c]);
  }

  lemma PagesApart(start: nat, k: nat, l: nat)
    ensures k < l ==> PageAt(start, k) + PAGE_SIZE <= PageAt(start, l)
  {
  }

  /** ... and two different live blocks share no byte. */
  lemma LiveBlocksDisjoint(h: View, c: nat, o: nat, d: nat, p: nat)
    requires Inv(h) && c < MAX_CLASSES && d < MAX_CLASSES && o in h.live[c] && p in h.live[d]
    ensures (c == d && o == p) || o + ItemSize(c) <= p || p + ItemSize(d) <= o
  {
    assert ClassInv(h.m, h.start, h.pages, c, h.heads[c], h.chains[c], h.live[c]);
    assert ClassInv(h.m, h.start, h.pages, d, h.heads[d], h.chains[d], h.live[d]);
    ChunksDisjoint(h.start, h.pages, c, o, d, p);
  }

  // ---- carving a page ---------------------------------------------------------------

  /** The first n chunks of a page, last one first: the order NewPage links them in. */
  ghost function Carve(base: nat, c: nat, n: nat): (r: seq<nat>)
    requires c < MAX_CLASSES
    ensures |r| == n
    ensures forall j :: 0 <= j < n ==> r[j] == ChunkAt(base, c, n - 1 - j)
  {
    if n == 0 then [] else [ChunkAt(base, c, n - 1)] + Carve(base, c, n - 1)
  }

  lemma CarveApart(base: nat, c: nat, n: nat)
    requires c < MAX_CLASSES
    ensures Apart(Carve(base, c, n)) && Distinct(Carve(base, c, n))
  {
    var list := Carve(base, c, n);
    Geometry(c);
    forall i, j | 0 <= i < j < n ensures list[j] + 16 <= list[i] {
      ItemsApart(n - 1 - j, n - 1 - i, ItemSize(c));
    }
  }

  lemma CarveMember(start: nat, pages: seq<nat>, c: nat, o: nat)
    requires c < MAX_CLASSES
    ensures IsChunk(start, pages + [c], c, o) <==>
      IsChunk(start, pages, c, o) || o in Carve(PageAt(start, |pages|), c, Capacity(c))
  {
    var list := Carve(PageAt(start, |pages|), c, Capacity(c));
    if IsChunk(start, pages + [c], c, o) {
      var k: nat, i: nat :| IsChunkOf(start, pages + [c], c, o, k, i);
      LastPageOrEarlier(start, pages, c, o, k, i);
    }
    if IsChunk(start, pages, c, o) {
      var k: nat, i: nat :| IsChunkOf(start, pages, c, o, k, i);
      assert IsChunkOf(start, pages + [c], c, o, k, i);
    }
    if o in list {
      var j :| 0 <= j < |list| && list[j] == o;
      assert IsChunkOf(start, pages + [c], c, o, |pages|, Capacity(c) - 1 - j);
    }
  }

  lemma LastPageOrEarlier(start: nat, pages: seq<nat>, c: nat, o: nat, k: nat, i: nat)
    requires IsChunkOf(start, pages + [c], c, o, k, i)
    ensures IsChunk(start, pages, c, o) || o in Carve(PageAt(start, |pages|), c, Capacity(c))
  {
    hide ItemSize, Capacity, Payload;
    if k < |pages| {
      assert IsChunkOf(start, pages, c, o, k, i);
    } else {
      assert Carve(PageAt(start, |pages|), c, Capacity(c))[Capacity(c) - 1 - i] == o;
    }
  }

  lemma OtherClassMember(start: nat, pages: seq<nat>, d: nat, c: nat, o: nat)
    requires c != d
    ensures IsChunk(start, pages + [d], c, o) <==> IsChunk(start, pages, c, o)
  {
    if IsChunk(start, pages + [d], c, o) {
      var k: nat, i: nat :| IsChunkOf(start, pages + [d], c, o, k, i);
      assert IsChunkOf(start, pages, c, o, k, i);
    }
    if IsChunk(start, pages, c, o) {
      var k: nat, i: nat :| IsChunkOf(start, pages, c, o, k, i);
      assert IsChunkOf(start, pages + [d], c, o, k, i);
    }
  }

  lemma OldChunksBelow(start: nat, pages: seq<nat>, c: nat, o: nat)
    requires IsChunk(start, pages, c, o)
    ensures o + 16 <= PageAt(start, |pages|) && c < MAX_CLASSES
  {
    var k: nat, i: nat :| IsChunkOf(start, pages, c, o, k, i);
    ChunkBounds(start, pages, c, o, k, i);
    Geometry(c);
  }

  /** The class a page was carved for. */
  lemma {:induction false} CarvedClass(m: seq<byte>, r: seq<byte>, start: nat, pages: seq<nat>, c: nat,
                                       head: nat, first: nat, chain: seq<nat>, live: set<nat>)
    requires c < MAX_CLASSES && ClassInv(m, start, pages, c, head, chain, live)
    requires Same(m, r, 0, PageAt(start, |pages|))
    requires ChainTo(r, first, Carve(PageAt(start, |pages|), c, Capacity(c)), head)
    ensures ClassInv(r, start, pages + [c], c, first, Carve(PageAt(start, |pages|), c, Capacity(c)) + chain, live)
  {
    var base := PageAt(start, |pages|);
    var list := Carve(base, c, Capacity(c));
    forall o | o in chain || o in live ensures o + 16 <= base {
      OldChunksBelow(start, pages, c, o);
    }
    ChainFrame(m, r, head, chain, 0);
    ChainConcat(r, first, list, head, chain, 0);
    JoinedDistinct(base, c, chain);
    forall o ensures o in list + chain || o in live <==> IsChunk(start, pages + [c], c, o) {
      CarveMember(start, pages, c, o);
    }
    CarvedCountGrows(pages, c, c);
    forall o | o in live ensures o !in list {
      CarveAbove(base, c, Capacity(c), o);
    }
  }

  lemma CarvedCountGrows(pages: seq<nat>, d: nat, c: nat)
    requires c < MAX_CLASSES
    ensures CarvedCount(pages + [d], c) == CarvedCount(pages, c) + if d == c then Capacity(c) else 0
  {
    assert (pages + [d])[..|pages|] == pages;
  }

  lemma CarveAbove(base: nat, c: nat, n: nat, o: nat)
    requires c < MAX_CLASSES
    ensures o in Carve(base, c, n) ==> o >= base
  {
    var list := Carve(base, c, n);
    if o in list {
      var j :| 0 <= j < |list| && list[j] == o;
    }
  }

  lemma JoinedDistinct(base: nat, c: nat, chain: seq<nat>)
    requires c < MAX_CLASSES && Distinct(chain) && forall o :: o in chain ==> o < base
    ensures Distinct(Carve(base, c, Capacity(c)) + chain)
  {
    var list := Carve(base, c, Capacity(c));
    CarveApart(base, c, Capacity(c));
    forall i, j | 0 <= i < |list| && 0 <= j < |chain| ensures list[i] != chain[j] {
      CarveAbove(base, c, Capacity(c), list[i]);
      assert chain[j] in chain;
    }
  }

  lemma {:induction false} UncarvedClass(m: seq<byte>, r: seq<byte>, start: nat, pages: seq<nat>, d: nat, c: nat,
                                         head: nat, chain: seq<nat>, live: set<nat>)
    requires c < MAX_CLASSES && c != d && ClassInv(m, start, pages, c, head, chain, live)
    requires Same(m, r, 0, PageAt(start, |pages|))
    ensures ClassInv(r, start, pages + [d], c, head, chain, live)
  {
    forall o | o in chain ensures o + 16 <= PageAt(start, |pages|) {
      OldChunksBelow(start, pages, c, o);
    }
    ChainFrame(m, r, head, chain, 0);
    forall o ensures o in chain || o in live <==> IsChunk(start, pages + [d], c, o) {
      OtherClassMember(start, pages, d, c, o);
    }
    assert (pages + [d])[..|pages|] == pages;
  }

  /** One more page, carved for class d and linked in front of the class's free list. */
  ghost function Carved(h: View, r: seq<byte>, d: nat, first: nat): View
    requires |h.heads| == |h.chains| == MAX_CLASSES && d < MAX_CLASSES
  {
    h.(m := r, bump := h.bump + PAGE_SIZE, heads := h.heads[d := first], pages := h.pages + [d],
       chains := h.chains[d := Carve(h.bump, d, Capacity(d)) + h.chains[d]])
  }

  lemma {:induction false} NewPageInv(h: View, r: seq<byte>, d: nat, first: nat)
    requires Inv(h)
    requires d < MAX_CLASSES && h.bump + PAGE_SIZE <= h.end
    requires Same(h.m, r, 0, h.bump) && ChainTo(r, first, Carve(h.bump, d, Capacity(d)), h.heads[d])
    ensures Inv(Carved(h, r, d, first))
  {
    var heads', chains' := h.heads[d := first], h.chains[d := Carve(h.bump, d, Capacity(d)) + h.chains[d]];
    forall c | 0 <= c < MAX_CLASSES ensures ClassInv(r, h.start, h.pages + [d], c, heads'[c], chains'[c], h.live[c]) {
      assert ClassInv(h.m, h.start, h.pages, c, h.heads[c], h.chains[c], h.live[c]);
      if c == d {
        CarvedClass(h.m, r, h.start, h.pages, d, h.heads[d], first, h.chains[d], h.live[d]);
      } else {
        UncarvedClass(h.m, r, h.start, h.pages, d, c, h.heads[c], h.chains[c], h.live[c]);
      }
    }
  }

  // ---- taking and returning a chunk -------------------------------------------------

  ghost function Popped(h: View, d: nat): View
    requires |h.heads| == |h.chains| == |h.live| == MAX_CLASSES && d < MAX_CLASSES
    requires h.heads[d] + 4 <= |h.m| && h.chains[d] != []
  {
    h.(heads := h.heads[d := Word(h.m, h.heads[d])], chains := h.chains[d := h.chains[d][1..]],
       live := h.live[d := h.live[d] + {h.heads[d]}])
  }

  ghost function Pushed(h: View, r: seq<byte>, d: nat, o: nat): View
    requires |h.heads| == |h.chains| == |h.live| == MAX_CLASSES && d < MAX_CLASSES
  {
    h.(m := r, heads := h.heads[d := o],
       chains := h.chains[d := [o] + h.chains[d]], live := h.live[d := h.live[d] - {o}])
  }

  lemma {:induction false} PopInv(h: View, d: nat)
    requires Inv(h)
    requires d < MAX_CLASSES && h.heads[d] != 0
    ensures h.heads[d] + 4 <= |h.m| && h.chains[d] != [] && h.heads[d] == h.chains[d][0] && h.heads[d] !in h.live[d]
    ensures Inv(Popped(h, d))
  {
    assert ClassInv(h.m, h.start, h.pages, d, h.heads[d], h.chains[d], h.live[d]);
    PopClass(h.m, h.start, h.pages, d, h.heads[d], h.chains[d], h.live[d]);
    forall c | 0 <= c < MAX_CLASSES && c != d
      ensures ClassInv(h.m, h.start, h.pages, c, h.heads[c], h.chains[c], h.live[c])
    {
    }
  }

  lemma PopClass(m: seq<byte>, start: nat, pages: seq<nat>, d: nat, head: nat, chain: seq<nat>, live: set<nat>)
    requires d < MAX_CLASSES && ClassInv(m, start, pages, d, head, chain, live) && head != 0
    ensures head + 4 <= |m| && chain != [] && head == chain[0] && head !in live
    ensures ClassInv(m, start, pages, d, Word(m, head), chain[1..], live + {head})
  {
    assert chain == [head] + chain[1..];
    assert head in chain;
  }

  lemma {:induction false} PushInv(h: View, r: seq<byte>, d: nat, o: nat)
    requires Inv(h)
    requires d < MAX_CLASSES && o in h.live[d] && Wrote(h.m, r, o, h.heads[d])
    ensures Inv(Pushed(h, r, d, o))
  {
    assert ClassInv(h.m, h.start, h.pages, d, h.heads[d], h.chains[d], h.live[d]);
    ChunkInside(h, d, o);
    Geometry(d);
    UserWriteKeepsInv(h, r, d, o);
    assert Inv(h.(m := r));
    forall c | 0 <= c < MAX_CLASSES ensures ClassInv(r, h.start, h.pages, c, h.heads[c], h.chains[c], h.live[c]) {
    }
    PushClass(r, h.start, h.pages, d, h.heads[d], h.chains[d], h.live[d], o);
  }

  /** What Free relies on: the block's first word may be overwritten with the list head. */
  lemma PushReady(h: View, d: nat, o: nat)
    requires Inv(h) && d < MAX_CLASSES && o in h.live[d]
    ensures 0 < o && o + 4 <= |h.m| && h.heads[d] < U32
  {
    assert ClassInv(h.m, h.start, h.pages, d, h.heads[d], h.chains[d], h.live[d]);
    ChunkInside(h, d, o);
    Geometry(d);
    HeadIsWord(h, d);
  }

  lemma PushClass(r: seq<byte>, start: nat, pages: seq<nat>, d: nat, head: nat, chain: seq<nat>, live: set<nat>, o: nat)
    requires d < MAX_CLASSES && ClassInv(r, start, pages, d, head, chain, live)
    requires o in live && 0 < o && o + 4 <= |r| && Word(r, o) == head
    ensures ClassInv(r, start, pages, d, o, [o] + chain, live - {o})
  {
    assert ([o] + chain)[1..] == chain;
    assert forall i :: 0 <= i < |chain| ==> chain[i] in chain;
  }

  lemma HeadIsWord(h: View, d: nat)
    requires Inv(h) && d < MAX_CLASSES
    ensures h.heads[d] < U32
  {
    assert ClassInv(h.m, h.start, h.pages, d, h.heads[d], h.chains[d], h.live[d]);
    if h.chains[d] != [] {
      assert h.chains[d][0] in h.chains[d];
      ChunkInside(h, d, h.heads[d]);
    }
  }
}
