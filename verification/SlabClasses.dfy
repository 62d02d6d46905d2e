// Size classes of the shared-memory slab allocator (server/core/shm/shm_slab.cpp).
//
// Requests are 32-bit words and the class search works on their bits, so the two methods are
// written over bv32; ClassFor is the arithmetic meaning they are proved against.
module SlabClasses {
  import opened Wrappers

  const MAX_CLASSES := 10
  const PAGE_SIZE := 65536
  const HEADER := 16  // sizeof(PageHeader)

  function ItemSize(c: nat): nat
    requires c < MAX_CLASSES
  {
    if c == 0 then 16 else if c == 1 then 32 else if c == 2 then 64 else if c == 3 then 128
    else if c == 4 then 256 else if c == 5 then 512 else if c == 6 then 1024
    else if c == 7 then 2048 else if c == 8 then 4096 else 8192
  }

  function ItemBits(c: nat): bv32
    requires c < MAX_CLASSES
  {
    if c == 0 then 16 else if c == 1 then 32 else if c == 2 then 64 else if c == 3 then 128
    else if c == 4 then 256 else if c == 5 then 512 else if c == 6 then 1024
    else if c == 7 then 2048 else if c == 8 then 4096 else 8192
  }

  /** Smallest class whose items hold `bytes`, searching upwards from c. */
  function LeastClass(bytes: nat, c: nat): (r: nat)
    requires c < MAX_CLASSES && bytes <= 8192
    ensures c <= r < MAX_CLASSES && bytes <= ItemSize(r)
    ensures r > c ==> ItemSize(r - 1) < bytes
    decreases MAX_CLASSES - c
  {
    if bytes <= ItemSize(c) then c else LeastClass(bytes, c + 1)
  }

  /** The class that serves a request of `bytes` < 2^32; None is a refusal.  Above 2^31 the
      rounding wraps around and the request lands in the smallest class. */
  function ClassFor(bytes: nat): Option<nat> {
    if bytes > 0x8000_0000 then Some(0)
    else if bytes > 8192 then None
    else Some(LeastClass(bytes, 0))
  }

  lemma LeastClassUnique(bytes: nat, c: nat, r: nat)
    requires c <= r < MAX_CLASSES && bytes <= ItemSize(r)
    requires r > c ==> ItemSize(r - 1) < bytes
    ensures bytes <= 8192 && LeastClass(bytes, c) == r
    decreases r - c
  {
    if c < r {
      LeastClassUnique(bytes, c + 1, r);
    }
  }

  /** A block is long enough for its request exactly when the request is at most 2^31. */
  lemma LongEnoughIff(bytes: nat)
    requires bytes < 0x1_0000_0000 && ClassFor(bytes).Some?
    ensures bytes <= ItemSize(ClassFor(bytes).value) <==> bytes <= 0x8000_0000
  {
  }

  // ---- the bit-level code -----------------------------------------------------------

  method Pow2Ceil(x: bv32) returns (r: bv32)
    ensures x <= 1 ==> r == 1
    ensures 1 < x <= 0x8000_0000 ==> r & (r - 1) == 0 && x <= r && (r >> 1) < x
    ensures x > 0x8000_0000 ==> r == 0
  {
    if x <= 1 {
      return 1;
    }
    r := x - 1;
    r := r | (r >> 1);
    r := r | (r >> 2);
    r := r | (r >> 4);
    r := r | (r >> 8);
    r := r | (r >> 16);
    r := r + 1;
  }

  /** The index found for a rounded request of `a` bytes. */
  ghost predicate IndexFor(a: int, r: Option<nat>) {
    match r
    case None => 8192 < a <= 0x8000_0000
    case Some(c) =>
      && c < MAX_CLASSES && (a <= 8192 || a > 0x8000_0000)
      && (a > 0x8000_0000 ==> c == 0)
      && (a <= 8192 ==> a <= ItemSize(c) && (c > 0 ==> ItemSize(c - 1) < a))
  }

  method SizeClassIndex(bytes: bv32) returns (r: Option<nat>)
    ensures IndexFor(bytes as int, r)
  {
    var s := Pow2Ceil(bytes);
    if s < 16 {
      s := 16;
    }
    LimitsAgree(bytes, 9);
    if s > 8192 {
      return None;
    }
    var idx, v := 0, 16 as bv32;
    while v < s && idx + 1 < MAX_CLASSES
      invariant idx < MAX_CLASSES && v == ItemBits(idx)
      invariant idx > 0 ==> ItemBits(idx - 1) < s
      decreases MAX_CLASSES - idx
    {
      v := v << 1;
      idx := idx + 1;
    }
    IndexFound(s, bytes, idx);
    return Some(idx);
  }

  /** A power of two above one class size is at least the next one, so the class below the
      one found is too small for the request itself. */
  lemma PowerBetween(s: bv32, bytes: bv32, idx: nat)
    requires 0 < idx < MAX_CLASSES && ItemBits(idx - 1) < s <= 8192
    requires s == 16 || (s & (s - 1) == 0 && (s >> 1) < bytes)
    ensures !(bytes <= ItemBits(idx - 1))
  {
  }

  /** What fits the rounded size fits the item. */
  lemma FitsItem(s: bv32, bytes: bv32, idx: nat)
    requires idx < MAX_CLASSES && s <= ItemBits(idx) && (idx > 0 ==> ItemBits(idx - 1) < s)
    requires s == 16 ==> bytes <= 16 || bytes > 0x8000_0000
    requires s != 16 ==> 16 < s && bytes <= s
    ensures bytes <= ItemBits(idx) || bytes > 0x8000_0000
    ensures bytes <= 8192 || bytes > 0x8000_0000
    ensures bytes > 0x8000_0000 ==> s == 16
    ensures s == 16 ==> idx == 0
  {
  }

  lemma IndexFound(s: bv32, bytes: bv32, idx: nat)
    requires idx < MAX_CLASSES && s <= ItemBits(idx) && (idx > 0 ==> ItemBits(idx - 1) < s)
    requires s == 16 ==> bytes <= 16 || bytes > 0x8000_0000
    requires s != 16 ==> 16 < s && s & (s - 1) == 0 && bytes <= s && (s >> 1) < bytes
    ensures IndexFor(bytes as int, Some(idx))
  {
    hide ItemBits, ItemSize;
    LimitsAgree(bytes, idx);
    FitsItem(s, bytes, idx);
    if idx > 0 {
      PowerBetween(s, bytes, idx);
      LimitsAgree(bytes, idx - 1);
    }
  }

  // ---- from bits to numbers ---------------------------------------------------------

  function Round(x: bv32): bv32 { (x + 7) & 0xFFFF_FFF8 }

  /** Align8 crosses no class size: seen from the class search, the rounded request is the request. */
  lemma RoundPower(x: bv32, limit: bv32)
    requires limit & (limit - 1) == 0 && 16 <= limit <= 8192 && x <= 0x8000_0000
    ensures Round(x) <= limit <==> x <= limit
  {
  }

  lemma ItemPower(c: nat)
    requires c < MAX_CLASSES
    ensures ItemBits(c) & (ItemBits(c) - 1) == 0 && 16 <= ItemBits(c) <= 8192
  {
  }

  /** It wraps around only above 2^31. */
  lemma RoundRange(x: bv32)
    ensures x <= 0x8000_0000 ==> Round(x) <= 0x8000_0000
    ensures !(x <= 0x8000_0000) ==> Round(x) == 0 || !(Round(x) <= 0x8000_0000)
  {
  }

  lemma RoundItem(x: bv32, c: nat)
    requires c < MAX_CLASSES && x <= 0x8000_0000
    ensures Round(x) as int <= ItemSize(c) <==> x as int <= ItemSize(c)
  {
    ItemPower(c);
    RoundPower(x, ItemBits(c));
    LimitsAgree(x, c);
    LimitsAgree(Round(x), c);
  }

  ghost predicate Rounds(x: int, a: int) {
    && a >= 0
    && (x <= 0x8000_0000 ==> a <= 0x8000_0000)
    && (x > 0x8000_0000 ==> a == 0 || a > 0x8000_0000)
    && (x <= 0x8000_0000 ==> forall c :: 0 <= c < MAX_CLASSES ==> (a <= ItemSize(c) <==> x <= ItemSize(c)))
  }

  method Align8(x: bv32) returns (a: bv32)
    ensures Rounds(x as int, a as int)
  {
    a := (x + 7) & 0xFFFF_FFF8;
    RoundRange(x);
    LimitsAgree(x, 9);
    LimitsAgree(a, 9);
    if x <= 0x8000_0000 {
      forall c | 0 <= c < MAX_CLASSES ensures a as int <= ItemSize(c) <==> x as int <= ItemSize(c) {
        RoundItem(x, c);
      }
    }
  }

  lemma LimitsAgree(x: bv32, c: nat)
    requires c < MAX_CLASSES
    ensures x <= ItemBits(c) <==> x as int <= ItemSize(c)
    ensures x <= 0x8000_0000 <==> x as int <= 0x8000_0000
    ensures x <= 8192 <==> x as int <= 8192
    ensures x == 0 ==> x as int == 0
  {
    assert x <= 16 <==> x as int <= 16;
    assert x <= 32 <==> x as int <= 32;
    assert x <= 64 <==> x as int <= 64;
    assert x <= 128 <==> x as int <= 128;
    assert x <= 256 <==> x as int <= 256;
    assert x <= 512 <==> x as int <= 512;
    assert x <= 1024 <==> x as int <= 1024;
    assert x <= 2048 <==> x as int <= 2048;
    assert x <= 4096 <==> x as int <= 4096;
  }

  /** Align8 followed by SizeClassIndex: the class a request is served from. */
  method ClassOfRequest(bytes: bv32) returns (r: Option<nat>)
    ensures r == ClassFor(bytes as int)
  {
    var a := Align8(bytes);
    r := SizeClassIndex(a);
    RequestClass(bytes as int, a as int, r);
  }

  lemma RequestClass(bytes: nat, a: nat, r: Option<nat>)
    requires Rounds(bytes, a) && IndexFor(a, r)
    ensures r == ClassFor(bytes)
  {
    assert ItemSize(9) == 8192;
    if r.Some? && bytes <= 0x8000_0000 {
      assert a <= ItemSize(r.value) <==> bytes <= ItemSize(r.value);
      assert r.value > 0 ==> (a <= ItemSize(r.value - 1) <==> bytes <= ItemSize(r.value - 1));
      LeastClassUnique(bytes, 0, r.value);
    }
  }

  // ---- page geometry ----------------------------------------------------------------

  function Min(a: nat, b: nat): nat { if a < b then a else b }

  /** Offset of the first chunk in a page: header, then one bitmap bit per item. */
  function Payload(c: nat): nat
    requires c < MAX_CLASSES
  {
    HEADER + (Min((PAGE_SIZE - HEADER) / ItemSize(c), 8192) + 7) / 8
  }

  function Capacity(c: nat): nat
    requires c < MAX_CLASSES
  {
    if Payload(c) <= PAGE_SIZE then (PAGE_SIZE - Payload(c)) / ItemSize(c) else 0
  }

  lemma Geometry(c: nat)
    requires c < MAX_CLASSES
    ensures 16 <= ItemSize(c) <= 8192
    ensures HEADER < Payload(c) <= 528 && 1 <= Capacity(c)
    ensures Payload(c) + Capacity(c) * ItemSize(c) <= PAGE_SIZE
  {
  }

  /** Ten classes, each twice the size of the one before, from 16 bytes on. */
  lemma SizesDouble(c: nat)
    requires c < 10
    ensures ItemSize(0) == 16 && ItemSize(9) == 8192 && (c > 0 ==> ItemSize(c) == 2 * ItemSize(c - 1))
  {
  }

  /** A page is filled: one more chunk would not fit behind the bitmap, and the bitmap has a bit
      for every chunk and no byte more than the items behind the header could need. */
  lemma PageIsFull(c: nat)
    requires c < 10
    ensures Payload(c) + Capacity(c) * ItemSize(c) <= 65536 < Payload(c) + (Capacity(c) + 1) * ItemSize(c)
    ensures Capacity(c) <= 8 * (Payload(c) - 16) < (65536 - 16) / ItemSize(c) + 8
    ensures Capacity(c) >= (65536 - 528) / ItemSize(c)
  {
  }
}
