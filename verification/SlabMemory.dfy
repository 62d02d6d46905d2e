// Byte memory and the chains of free chunks that live inside it.
module SlabMemory {
  type byte = x: int | 0 <= x < 256
  const U32 := 0x1_0000_0000

  /** The little-endian 32-bit word stored at offset `off`. */
  function Word(m: seq<byte>, off: nat): (w: nat)
    requires off + 4 <= |m|
    ensures w < U32
  {
    (m[off] as int) + 0x100 * (m[off + 1] as int) + 0x1_0000 * (m[off + 2] as int) + 0x100_0000 * (m[off + 3] as int)
  }

  /** m and r agree on [lo, hi). */
  ghost predicate Same(m: seq<byte>, r: seq<byte>, lo: nat, hi: nat) {
    |r| == |m| && hi <= |m| && forall k :: lo <= k < hi ==> r[k] == m[k]
  }

  /** r is m after the word w was stored at `off`. */
  ghost predicate Wrote(m: seq<byte>, r: seq<byte>, off: nat, w: nat) {
    && off + 4 <= |m| == |r|
    && Word(r, off) == w
    && forall k :: 0 <= k < |m| && !(off <= k < off + 4) ==> r[k] == m[k]
  }

  lemma SameWord(m: seq<byte>, r: seq<byte>, off: nat)
    requires Same(m, r, off, off + 4)
    ensures Word(r, off) == Word(m, off)
  {
  }

  /** From `head` the words stored in the chunks lead through exactly `list` and then to `end`. */
  ghost predicate ChainTo(m: seq<byte>, head: nat, list: seq<nat>, end: nat)
    decreases |list|
  {
    if list == [] then head == end
    else head == list[0] && head != 0 && head + 4 <= |m| && ChainTo(m, Word(m, head), list[1..], end)
  }

  /** A chain survives any write that spares the first word of each of its chunks. */
  lemma {:induction false} ChainFrame(m: seq<byte>, r: seq<byte>, head: nat, list: seq<nat>, end: nat)
    requires ChainTo(m, head, list, end) && |r| == |m|
    requires forall o :: o in list && o + 4 <= |m| ==> Same(m, r, o, o + 4)
    ensures ChainTo(r, head, list, end)
    decreases |list|
  {
    if list != [] {
      assert list[0] in list;
      SameWord(m, r, head);
      assert forall o :: o in list[1..] ==> o in list;
      ChainFrame(m, r, Word(m, head), list[1..], end);
    }
  }

  lemma {:induction false} ChainConcat(m: seq<byte>, head: nat, a: seq<nat>, mid: nat, b: seq<nat>, end: nat)
    requires ChainTo(m, head, a, mid) && ChainTo(m, mid, b, end)
    ensures ChainTo(m, head, a + b, end)
    decreases |a|
  {
    if a == [] {
      assert a + b == b;
    } else {
      ChainConcat(m, Word(m, head), a[1..], mid, b, end);
      assert (a + b)[1..] == a[1..] + b;
    }
  }

  /** Every chunk of a chain lies in memory and is not the null offset. */
  lemma {:induction false} ChainMember(m: seq<byte>, head: nat, list: seq<nat>, end: nat, o: nat)
    requires ChainTo(m, head, list, end) && o in list
    ensures o != 0 && o + 4 <= |m|
    decreases |list|
  {
    if o != list[0] {
      ChainMember(m, Word(m, head), list[1..], end, o);
    }
  }

  ghost predicate Distinct(list: seq<nat>) {
    forall i, j :: 0 <= i < j < |list| ==> list[i] != list[j]
  }

  /** The chunks of a list keep their distance: no word of one reaches into another. */
  ghost predicate Apart(list: seq<nat>) {
    forall i, j :: 0 <= i < j < |list| ==> list[i] + 4 <= list[j] || list[j] + 4 <= list[i]
  }

  /** Storing a new successor in the last chunk moves the end of the chain. */
  lemma {:induction false} ChainRedirect(m: seq<byte>, r: seq<byte>, head: nat, list: seq<nat>, end: nat, end': nat)
    requires list != [] && Apart(list) && ChainTo(m, head, list, end)
    requires Wrote(m, r, list[|list| - 1], end')
    ensures ChainTo(r, head, list, end')
    decreases |list|
  {
    if |list| > 1 {
      assert list[1..][|list| - 2] == list[|list| - 1];
      SameWord(m, r, head);
      ChainRedirect(m, r, Word(m, head), list[1..], end, end');
    } else {
      assert list[1..] == [];
    }
  }

  /** Writing the head of a list into a chunk that is clear of it puts the chunk in front. */
  lemma {:induction false} ChainPush(m: seq<byte>, r: seq<byte>, all: seq<nat>, prev: nat, end: nat)
    requires all != [] && Apart(all) && all[0] != 0
    requires Wrote(m, r, all[0], prev) && ChainTo(m, prev, all[1..], end)
    ensures ChainTo(r, all[0], all, end)
  {
    forall o | o in all[1..] && o + 4 <= |m| ensures Same(m, r, o, o + 4) {
      var j :| 1 <= j < |all| && all[j] == o;
    }
    ChainFrame(m, r, prev, all[1..], end);
  }
}
