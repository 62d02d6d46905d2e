// The operations of ShmHashMap (server/core/shm/shm_hashmap.cpp), each taken as one step, as
// edits of bucket heads and next pointers in place.
//
// `alloc` stands for what the slab allocator returned: 0, or an offset no node occupies.
// `freed` stands for the retired nodes Reclaim decided to free.
module HashMap {
  import opened Wrappers
  import opened Chains
  import opened HashTable
  import opened HashContents
  import opened HashSteps

  const TWO31: nat := 0x8000_0000

  /** The loop variable after k doublings of a 32-bit word. */
  function Doubled(k: nat): (x: nat)
    ensures x < 2 * TWO31
  {
    if k == 0 then 8
    else
      var x := 2 * Doubled(k - 1);
      if x < 2 * TWO31 then x else x - 2 * TWO31
  }

  function Two(k: nat): nat { if k == 0 then 1 else 2 * Two(k - 1) }

  /** The rounding loop ends exactly for the counts up to 2^31, which RoundBuckets accepts. */
  lemma {:induction false} RoundingEndsIff(n: nat)
    ensures (exists k :: Doubled(k) >= n) <==> n <= TWO31
  {
    hide Doubled;
    TwoTo28();
    DoubledIs(28);
    if n <= TWO31 {
      assert Doubled(28) >= n;
    } else {
      forall k: nat ensures Doubled(k) < n {
        DoubledIs(k);
        TwoGrows(if k <= 28 then k else 0, 28);
      }
    }
  }

  lemma {:induction false} DoubledIs(k: nat)
    ensures Doubled(k) == if k <= 28 then 8 * Two(k) else 0
    decreases k
  {
    hide Two;
    TwoTo28();
    if k == 0 {
      TwoStep(0);
    } else {
      DoubledIs(k - 1);
      if k <= 28 {
        TwoStep(k);
        TwoGrows(k, 28);
        assert 2 * Doubled(k - 1) == 8 * Two(k) < 2 * TWO31;
      }
    }
  }

  lemma TwoStep(k: nat)
    ensures Two(k) == if k == 0 then 1 else 2 * Two(k - 1)
  {
  }

  lemma {:induction false} TwoGrows(k: nat, l: nat)
    requires k <= l
    ensures 1 <= Two(k) <= Two(l)
    decreases l
  {
    if k < l {
      TwoGrows(k, l - 1);
    } else if l > 0 {
      TwoGrows(k - 1, l - 1);
    }
  }

  lemma TwoTo28()
    ensures 8 * Two(28) == TWO31
  {
    hide Two;
    TwoSeven(0);
    TwoSeven(7);
    TwoSeven(14);
    TwoSeven(21);
    TwoStep(0);
  }

  lemma TwoSeven(k: nat)
    ensures Two(k + 7) == 128 * Two(k)
  {
    hide Two;
    TwoStep(k + 1);
    TwoStep(k + 2);
    TwoStep(k + 3);
    TwoStep(k + 4);
    TwoStep(k + 5);
    TwoStep(k + 6);
    TwoStep(k + 7);
  }

  /** n itself when it is a power of two, else the least power of two from 8 on that holds it. */
  predicate Rounded(n: nat, x: nat) {
    IsPow2(x) && n <= x && (if IsPow2(n) then x == n else x == 8 || (x > 8 && x < 2 * n))
  }

  /** A bucket count that is no power of two is rounded up to one, starting from 8.  Zero passes
      the source's test x & (x - 1) == 0 and stays zero. */
  method RoundBuckets(n: nat) returns (x: nat)
    requires n <= TWO31
    ensures if n == 0 then x == 0 else Rounded(n, x)
  {
    hide IsPow2;
    x := n;
    if n != 0 && !IsPow2(n) {
      x := 8;
      EightIsPow2();
      while x < n
        invariant IsPow2(x) && (x == 8 || (x > 8 && x < 2 * n))
        decreases n - x
      {
        DoubleIsPow2(x);
        x := 2 * x;
      }
    }
  }

  lemma {:induction false} NextPow2(y: nat, x: nat)
    requires IsPow2(y) && IsPow2(x) && y < x
    ensures 2 * y <= x
    decreases x
  {
    if y > 1 {
      NextPow2(y / 2, x / 2);
    }
  }

  /** It is the least power of two from 8 on that holds the request. */
  lemma {:induction false} RoundedIsLeast(n: nat, x: nat, y: nat)
    requires n > 0 && Rounded(n, x) && IsPow2(y) && y >= n && (y >= 8 || IsPow2(n))
    ensures x <= y
  {
    if y < x {
      NextPow2(y, x);
    }
  }

  lemma EightIsPow2()
    ensures IsPow2(8)
  {
    assert IsPow2(1) && IsPow2(2) && IsPow2(4);
  }

  lemma DoubleIsPow2(x: nat)
    requires IsPow2(x)
    ensures IsPow2(2 * x)
  {
    assert 2 * x / 2 == x && 2 * x % 2 == 0;
  }

  class ShmHashMap {
    const hash: Key -> nat
    var heads: map<Slot, Off>
    var next: map<Off, Off>
    var node: map<Off, Node>
    var countOld: nat
    var countNew: nat
    var itemCount: int
    var cursor: nat
    var active: bool
    var retired: set<Off>
    ghost var chains: map<Slot, seq<Off>>
    ghost var home: map<Off, Slot>
    ghost var contents: map<Key, Val>

    ghost function T(): Table
      reads this
    {
      Table(hash, countOld, countNew, heads, next, node, chains, home)
    }

    /** Kept by every operation, whatever keys it is given. */
    ghost predicate WellLinked()
      reads this
    {
      Linked(T(), active, cursor, retired, itemCount)
    }

    /** The two tables stand for the finite map `contents`, and item_count is its size. */
    ghost predicate Valid()
      reads this
    {
      WellLinked() && Stands(T(), contents, itemCount)
    }

    constructor (h: Key -> nat, buckets: nat)
      requires buckets <= TWO31
      ensures contents == map[] && hash == h && countOld == 0 && !active
      ensures if buckets == 0 then countNew == 0 && !WellLinked() else Valid() && Rounded(buckets, countNew)
    {
      hide Linked, Stands, IsPow2;
      var n := RoundBuckets(buckets);
      if n == 0 {
        NoBuckets(FreshTable(h, n), false, 0, {}, 0);
      } else {
        FreshTableOk(h, n);
      }
      hash, countOld, countNew := h, 0, n;
      heads := map b | 0 <= b < n :: New(b) := 0;
      chains := map b | 0 <= b < n :: New(b) := [];
      next, node, home, contents := map[], map[], map[], map[];
      itemCount, cursor, active, retired := 0, 0, false, {};
    }

    /** The key-comparing walk shared by Put, EraseFromList and MoveToFront. */
    method Locate(s: Slot, h: nat, key: Key) returns (prev: Off, cur: Off, ghost i: nat)
      requires Shape(T()) && IsSlot(T(), s) && h == hash(key)
      ensures cur == 0 ==> FirstIn(node, ChainAt(T(), s), key) == None
      ensures cur != 0 ==> Located(T(), s, key, prev, cur, i)
    {
      assert SlotOk(T(), s);
      ghost var c := chains[s];
      prev, cur, i := 0, heads[s], 0;
      while cur != 0
        invariant i <= |c| && ChainTo(next, cur, c[i..], 0)
        invariant prev == if i == 0 then 0 else c[i - 1]
        invariant FirstIn(node, c[i..], key) == FirstIn(node, c, key)
        decreases |c| - i
      {
        WalkHere(T(), s, cur, i);
        var nxt := next[cur];
        if node[cur].hash == h && node[cur].key == key {
          WalkBack(T(), s, i);
          return;
        }
        prev := cur;
        cur := nxt;
        i := i + 1;
      }
      WalkEnd(T(), s, i);
    }

    // ---- operations -------------------------------------------------------------------

    /** The first node with the key becomes the head of its chain. */
    method MoveToFront(s: Slot, h: nat, key: Key) returns (ok: bool)
      requires WellLinked() && IsSlot(T(), s) && h == hash(key)
      modifies `heads, `next, `chains, `home
      ensures WellLinked() && (old(Valid()) ==> Valid())
      ensures ok <==> FirstIn(node, old(ChainAt(T(), s)), key).Some?
      ensures ok ==> ChainAt(T(), s) != [] && FirstIn(node, old(ChainAt(T(), s)), key) == Some(ChainAt(T(), s)[0])
    {
      hide Linked, Stands;
      ghost var t := T();
      LinkedShape(t, active, cursor, retired, itemCount);
      var prev, cur; ghost var i;
      prev, cur, i := Locate(s, h, key);
      ok := cur != 0;
      if ok {
        MovedFrontKeeps(t, s, i, contents, active, cursor, retired, itemCount);
        MoveNode(s, prev, cur, i);
      }
    }

    /** The relinking shared by MoveToFront and an overwriting Put. */
    method MoveNode(s: Slot, prev: Off, cur: Off, ghost i: nat)
      requires HasSlots(T()) && IsSlot(T(), s) && i < |chains[s]| && chains[s][i] in next
      requires cur == chains[s][i] && prev == (if i == 0 then 0 else chains[s][i - 1]) && (i > 0 ==> prev != 0)
      modifies `heads, `next, `chains, `home
      ensures T() == old(MovedFront(T(), s, i))
    {
      if prev != 0 {
        var nxt := next[cur];
        next := next[prev := nxt];
        next := next[cur := heads[s]];
        heads := heads[s := cur];
        chains := chains[s := chains[s][..i] + chains[s][i + 1..]];
        chains := chains[s := [cur] + chains[s]];
        home := home - {cur};
        home := home[cur := s];
      }
    }

    /** Takes the first node with the key out of its chain. */
    method EraseFromList(s: Slot, h: nat, key: Key) returns (erased: Off, ghost i: nat)
      requires Shape(T()) && IsSlot(T(), s) && h == hash(key)
      modifies `heads, `next, `chains, `home
      ensures erased == 0 ==> FirstIn(node, ChainAt(T(), s), key) == None && T() == old(T())
      ensures erased != 0 ==>
        && old(FirstIn(node, ChainAt(T(), s), key)) == Some(erased)
        && erased in old(home) && home == old(home) - {erased}
      ensures erased != 0 ==>
        && i < |old(ChainAt(T(), s))| && erased == old(ChainAt(T(), s))[i] && erased in node && node[erased].key == key
        && s in old(heads) && s in old(chains) && erased in old(next) && T() == old(Without(T(), s, i))
    {
      ghost var t := T();
      ShapeHasSlots(t);
      hide Shape;
      var prev, cur;
      prev, cur, i := Locate(s, h, key);
      erased := cur;
      if cur != 0 {
        var nxt := next[cur];
        if prev == 0 {
          heads := heads[s := nxt];
        } else {
          next := next[prev := nxt];
        }
        chains := chains[s := chains[s][..i] + chains[s][i + 1..]];
        home := home - {cur};
      }
    }

    /** Frees retired nodes. */
    method Reclaim(freed: set<Off>)
      requires WellLinked()
      modifies `node, `next, `retired
      ensures WellLinked() && (Valid() <==> old(Valid()))
      ensures retired == old(retired) - freed && node == old(node) - old(retired) * freed
    {
      hide Linked, Stands;
      ghost var t := T();
      var gone := retired * freed;
      node := node - gone;
      next := next - gone;
      retired := retired - gone;
      FreedKeeps(t, T(), gone, contents, active, cursor, old(retired), itemCount);
    }

    /** Nodes of old bucket b go to the fronts of the new chains their hashes select. */
    method MigrateOneBucket(b: nat) returns (r: nat)
      requires Shape(T())
      modifies `heads, `next, `chains, `home
      ensures r == (if b < countOld then 1 else 0)
      ensures countNew > 0 && T() == if b < countOld then old(Migrated(T(), b)) else old(T())
    {
      hide Shape, SlotOk, Floating, ChainTo, Moved, Emptied, Migrated;
      ghost var t := T();
      ShapeHasSlots(t);
      CountsPositive(t);
      if b >= countOld {
        return 0;
      }
      assert IsSlot(t, Old(b));
      var cur := heads[Old(b)];
      if cur == 0 {
        EmptyBucket(t, b);
        return 1;
      }
      BucketFloats(t, b);
      ghost var rest := chains[Old(b)];
      EmptiedChain(t, Old(b));
      heads := heads[Old(b) := 0];
      chains := chains[Old(b) := []];
      home := map o | o in home && home[o] != Old(b) :: home[o];
      EmptiedIs(t, T(), b);
      ghost var goal := old(Migrated(T(), b));
      while cur != 0
        invariant Shape(T()) && Floating(T(), rest) && ChainTo(next, cur, rest, 0)
        invariant countNew > 0 && Moved(T(), rest) == goal
        decreases |rest|
      {
        ghost var was := T();
        MoveStep(T(), cur, rest);
        var nxt := next[cur];
        var bn := New(node[cur].hash % countNew);
        NewSlotIn(was, cur);
        next := next[cur := heads[bn]];
        heads := heads[bn := cur];
        chains := chains[bn := [cur] + chains[bn]];
        home := home[cur := bn];
        assert T() == Front(was, bn, cur);
        cur := nxt;
        rest := rest[1..];
      }
      MoveDone(T(), rest);
      r := 1;
    }

    /** Migrates up to `steps` buckets; the step that finds none left ends the rehash. */
    method RehashStep(steps: nat) returns (done: nat)
      requires WellLinked()
      modifies `heads, `next, `chains, `home, `cursor, `active
      ensures WellLinked() && (Valid() <==> old(Valid()))
      ensures done == if old(active) then Min(steps, countOld - old(cursor)) else 0
      ensures active <==> old(active) && old(cursor) + steps <= countOld
      ensures active ==> cursor == old(cursor) + steps
      ensures home.Keys == old(home).Keys
    {
      hide Linked, Stands, Migrated;
      done := 0;
      if !active {
        return;
      }
      var left := steps;
      LinkedShape(T(), active, cursor, retired, itemCount);
      while left > 0
        invariant 0 <= left <= steps && WellLinked() && active && cursor <= countOld
        invariant cursor == old(cursor) + (steps - left) && done == steps - left
        invariant Stands(T(), contents, itemCount) <==> old(Stands(T(), contents, itemCount))
        invariant home.Keys == old(home).Keys
      {
        ghost var t := T();
        LinkedShape(t, active, cursor, retired, itemCount);
        left := left - 1;
        var b := cursor;
        cursor := cursor + 1;
        if b >= countOld {
          active := false;
          RehashDone(t, b, retired, itemCount);
          return;
        }
        MigratedKeeps(t, b, contents, retired, itemCount);
        var one := MigrateOneBucket(b);
        done := done + one;
      }
    }

    /** One step of help after a write. */
    method HelpRehashStep()
      requires WellLinked()
      modifies `heads, `next, `chains, `home, `cursor, `active
      ensures WellLinked() && (Valid() <==> old(Valid())) && home.Keys == old(home).Keys
      ensures active <==> old(active) && old(cursor) + 1 <= countOld
      ensures active ==> cursor == old(cursor) + 1
    {
      if active {
        var _ := RehashStep(1);
      }
    }

    /** The filled bucket array becomes the old one; a zeroed one of n buckets takes its place. */
    method SwapTables(n: nat)
      modifies `heads, `chains, `home, `countOld, `countNew
      ensures T() == old(Restarted(T(), n))
    {
      var front := heads;
      ghost var lists := chains;
      countOld, countNew := countNew, n;
      heads := map s | s in OldSlots(countOld) + NewSlots(n) :: if s.Old? && New(s.b) in front then front[New(s.b)] else 0;
      chains := map s | s in OldSlots(countOld) + NewSlots(n) :: if s.Old? && New(s.b) in lists then lists[New(s.b)] else [];
      home := map o | o in home :: Old(home[o].b);
    }

    /** Starts a rehash into n buckets; `room` says whether the new bucket array fits.  Asked for
        none at all it leaves a map without buckets, and only then one that is not well linked. */
    method RehashStart(n: nat, room: bool) returns (ok: bool)
      requires WellLinked() && n <= TWO31
      modifies `heads, `chains, `home, `countOld, `countNew, `cursor, `active
      ensures WellLinked() <==> n != 0 || old(active) || !ok
      ensures WellLinked() ==> (Valid() <==> old(Valid()))
      ensures ok <==> old(active) || room
      ensures old(active) || !ok ==> T() == old(T()) && active == old(active) && cursor == old(cursor)
      ensures !old(active) && ok ==>
        active && cursor == 0 && countOld == old(countNew) && home.Keys == old(home).Keys
        && (if n == 0 then countNew == 0 else Rounded(n, countNew))
    {
      hide Linked, Stands, Restarted, IsPow2, Shape;
      var count := RoundBuckets(n);
      if active {
        return true;
      }
      if !room {
        return false;
      }
      if count != 0 {
        RestartedKeeps(T(), count, contents, cursor, retired, itemCount);
      }
      SwapTables(count);
      RestartedCounts(old(T()), count);
      cursor, active := 0, true;
      if count == 0 {
        NoBuckets(T(), active, cursor, retired, itemCount);
      }
      ok := true;
    }

    // ---- the public operations --------------------------------------------------------

    method Get(key: Key) returns (ok: bool, out: Val)
      requires WellLinked()
      ensures ok <==> key != [] && Find(T(), key).Some?
      ensures countNew > 0 && key != [] ==>
        match FirstIn(node, ChainAt(T(), New(hash(key) % countNew)), key)
        case Some(o) => ok && o in node && out == node[o].val
        case None =>
          if countOld == 0 then !ok
          else
            match FirstIn(node, ChainAt(T(), Old(hash(key) % countOld)), key)
            case Some(o) => ok && o in node && out == node[o].val
            case None => !ok
      ensures Valid() ==> (ok <==> key in contents) && (ok ==> out == contents[key])
    {
      hide Linked, Means, Shape;
      ok, out := false, [];
      LinkedShape(T(), active, cursor, retired, itemCount);
      if key == [] {
        return;
      }
      var h := hash(key);
      if Stands(T(), contents, itemCount) {
        FindIsLookup(T(), contents, key);
      }
      var prev, cur; ghost var i;
      prev, cur, i := Locate(New(h % countNew), h, key);
      if cur == 0 && countOld != 0 {
        prev, cur, i := Locate(Old(h % countOld), h, key);
      }
      if cur != 0 {
        ok, out := true, node[cur].val;
      }
    }

    /** A node for a new key becomes the head of its new bucket. */
    method InsertFront(o: Off, h: nat, key: Key, val: Val)
      requires HasSlots(T()) && h == hash(key) && o != 0
      modifies `heads, `next, `node, `chains, `home
      ensures HasSlots(old(T())) && T() == old(PutNew(T(), o, Node(h, key, val)))
    {
      var s := New(h % countNew);
      assert IsSlot(T(), s);
      node := node[o := Node(h, key, val)];
      next := next[o := heads[s]];
      heads := heads[s := o];
      chains := chains[s := [o] + chains[s]];
      home := home[o := s];
    }

    /** A node of another size takes over the place of node cur. */
    method ReplaceNode(s: Slot, prev: Off, cur: Off, ghost i: nat, o: Off, h: nat, key: Key, val: Val)
      requires HasSlots(T()) && IsSlot(T(), s) && i < |chains[s]| && chains[s][i] in next && o != 0
      requires cur == chains[s][i] && prev == (if i == 0 then 0 else chains[s][i - 1]) && (i > 0 ==> prev != 0)
      modifies `heads, `next, `node, `chains, `home
      ensures T() == old(Replaced(T(), s, i, o, Node(h, key, val)))
    {
      var nxt := next[cur];
      node := node[o := Node(h, key, val)];
      next := next[o := nxt];
      if prev == 0 {
        heads := heads[s := o];
      } else {
        next := next[prev := o];
      }
      chains := chains[s := chains[s][..i] + [o] + chains[s][i + 1..]];
      home := home - {cur};
      home := home[o := s];
    }

    /** The work every successful write ends with. */
    method AfterWrite(freed: set<Off>)
      requires WellLinked()
      modifies `heads, `next, `node, `chains, `home, `cursor, `active, `retired
      ensures WellLinked() && (Valid() <==> old(Valid())) && home.Keys == old(home).Keys
      ensures retired == old(retired) - freed && node == old(node) - old(retired) * freed
      ensures active <==> old(active) && old(cursor) + 1 <= countOld
    {
      hide Linked, Stands;
      HelpRehashStep();
      Reclaim(freed);
    }

    /** What Put does under its stripe lock: a same-length value is written over; otherwise a
        node is allocated, in front or in place of the old one.  Only the new table is searched. */
    method PutLocked(key: Key, val: Val, alloc: Off) returns (ok: bool)
      requires WellLinked() && (alloc == 0 || alloc !in node) && key != []
      modifies `heads, `next, `node, `chains, `home, `retired, `itemCount, `contents
      ensures WellLinked()
      ensures ok <==> alloc != 0 || old(FitsInPlace(T(), key, val))
      ensures ok ==> PutEffect(old(T()), T(), key, val, alloc)
      ensures ok ==> Shows(T(), key, val)
      ensures ok ==> retired == old(retired) + old(Outgrown(T(), key, val))
      ensures !ok ==> T() == old(T()) && contents == old(contents) && retired == old(retired) && itemCount == old(itemCount)
      ensures ok && old(Valid()) ==>
        contents == old(contents)[key := val] && (Valid() <==> !old(WaitsInOld(T(), key)))
    {
      hide Linked, Stands, Shape, WaitsInOld, PutNew, Replaced, Overwritten, MovedFront, PutEffect, Outgrown, FirstIn, Without,
        Front, SlotOk, Shows, Distinct;
      ghost var t := T();
      LinkedShape(t, active, cursor, retired, itemCount);
      var h := hash(key);
      var s := New(h % countNew);
      var prev, cur; ghost var i;
      prev, cur, i := Locate(s, h, key);
      if cur != 0 && |node[cur].val| == |val| {
        OverwrittenKeeps(t, contents, s, i, key, val, active, cursor, retired, itemCount);
        Overwrite(s, prev, cur, i, val);
        OverwriteEffect(t, T(), s, key, val, alloc, i);
      } else if alloc == 0 {
        return false;
      } else if cur != 0 {
        ChainDistinct(t, s);
        ReplacedKeeps(t, contents, s, i, alloc, key, val, active, cursor, retired, itemCount);
        ReplaceNode(s, prev, cur, i, alloc, h, key, val);
        ReplaceEffect(t, T(), s, key, val, alloc, i);
        retired := retired + {cur};
      } else {
        PutFreshKeeps(t, contents, alloc, key, val, active, cursor, retired, itemCount);
        InsertFront(alloc, h, key, val);
        InsertEffect(t, T(), key, val, alloc);
        itemCount := itemCount + 1;
      }
      contents := contents[key := val];
      ok := true;
    }

    /** A successful write agrees with map update exactly when the key was not waiting in the
        old table. */
    method Put(key: Key, val: Val, alloc: Off, freed: set<Off>) returns (ok: bool)
      requires WellLinked() && (alloc == 0 || alloc !in node)
      modifies `heads, `next, `node, `chains, `home, `cursor, `active, `retired, `itemCount, `contents
      ensures WellLinked()
      ensures ok <==> key != [] && (alloc != 0 || old(FitsInPlace(T(), key, val)))
      ensures !ok ==> T() == old(T()) && contents == old(contents) && retired == old(retired) && itemCount == old(itemCount)
      ensures ok && old(Valid()) ==>
        contents == old(contents)[key := val] && (Valid() <==> !old(WaitsInOld(T(), key)))
      ensures ok ==> retired == old(retired) + old(Outgrown(T(), key, val)) - freed
      ensures ok ==> (active <==> old(active) && old(cursor) + 1 <= countOld)
    {
      hide Linked, Stands, WaitsInOld, FitsInPlace, Outgrown;
      if key == [] {
        return false;
      }
      ok := PutLocked(key, val, alloc);
      if ok {
        AfterWrite(freed);
      }
    }

    method Overwrite(s: Slot, prev: Off, cur: Off, ghost i: nat, val: Val)
      requires HasSlots(T()) && IsSlot(T(), s) && i < |chains[s]| && chains[s][i] in next && cur in node
      requires cur == chains[s][i] && prev == (if i == 0 then 0 else chains[s][i - 1]) && (i > 0 ==> prev != 0)
      modifies `heads, `next, `node, `chains, `home
      ensures T() == old(Overwritten(T(), s, i, val))
    {
      node := node[cur := Node(node[cur].hash, node[cur].key, val)];
      MoveNode(s, prev, cur, i);
    }

    /** The search of Erase: the new table, then the old one. */
    method Unlink(key: Key) returns (found: Off, ghost s: Slot, ghost i: nat)
      requires Shape(T()) && countNew > 0
      modifies `heads, `next, `chains, `home
      ensures found == 0 ==> old(Find(T(), key)) == None && T() == old(T())
      ensures found != 0 ==>
        && old(Find(T(), key)) == Some(found) && IsSlot(T(), s) && i < |old(ChainAt(T(), s))| && found == old(ChainAt(T(), s))[i]
        && found in old(home) && home == old(home) - {found} && found in node && node[found].key == key
        && s in old(heads) && s in old(chains) && found in old(next) && T() == old(Without(T(), s, i))
    {
      hide Shape, Without, FirstIn;
      ghost var t := T();
      var h := hash(key);
      var slot := New(h % countNew);
      found, i := EraseFromList(slot, h, key);
      if found == 0 && countOld != 0 {
        slot := Old(h % countOld);
        found, i := EraseFromList(slot, h, key);
      }
      s := slot;
    }

    /** What Erase does under its stripe locks: the key goes from the new table or, failing
        that, from the old one. */
    method EraseLocked(key: Key) returns (ok: bool, ghost erased: Off)
      requires WellLinked() && key != []
      modifies `heads, `next, `chains, `home, `retired, `itemCount, `contents
      ensures WellLinked()
      ensures old(Valid()) ==>
        Valid() && (ok <==> key in old(contents)) && contents == old(contents) - {key}
      ensures ok <==> old(Find(T(), key)) == Some(erased)
      ensures ok ==>
        && erased in old(home) && home == old(home) - {erased} && retired == old(retired) + {erased}
        && node == old(node) && erased in node && node[erased].key == key && itemCount == old(itemCount) - 1
      ensures !ok ==> T() == old(T()) && retired == old(retired) && itemCount == old(itemCount)
    {
      hide Linked, Stands, Shape, Without, FirstIn, Find;
      ghost var t := T();
      LinkedShape(t, active, cursor, retired, itemCount);
      var found; ghost var s, i;
      found, s, i := Unlink(key);
      erased := found;
      if found == 0 {
        if Stands(t, contents, itemCount) {
          NotFound(t, contents, key, itemCount);
        }
        ok := false;
        return;
      }
      ErasedKeeps(t, contents, s, i, active, cursor, retired, itemCount);
      retired := retired + {found};
      itemCount := itemCount - 1;
      contents := contents - {key};
      ok := true;
    }

    /** The node that is unlinked is the one a lookup finds; it is retired, and stays allocated
        unless Reclaim frees it at once. */
    method Erase(key: Key, freed: set<Off>) returns (ok: bool, ghost erased: Off)
      requires WellLinked()
      modifies `heads, `next, `node, `chains, `home, `cursor, `active, `retired, `itemCount, `contents
      ensures WellLinked()
      ensures old(Valid()) ==>
        Valid() && (ok <==> key in old(contents)) && contents == old(contents) - {key}
      ensures ok <==> key != [] && old(Find(T(), key)) == Some(erased)
      ensures ok ==> home.Keys == old(home).Keys - {erased} && itemCount == old(itemCount) - 1
      ensures ok ==> retired == old(retired) + {erased} - freed && (erased in node <==> erased !in freed)
      ensures ok ==> (active <==> old(active) && old(cursor) + 1 <= countOld)
      ensures !ok ==> T() == old(T()) && retired == old(retired) && itemCount == old(itemCount)
    {
      hide Linked, Stands;
      LinkedShape(T(), active, cursor, retired, itemCount);
      CountsPositive(T());
      if key == [] {
        if Stands(T(), contents, itemCount) {
          NoEmptyKey(T(), contents, itemCount);
        }
        ok, erased := false, 0;
        return;
      }
      ok, erased := EraseLocked(key);
      if ok {
        AfterWrite(freed);
      }
    }

    /** Only the new table is tried. */
    method TouchMoveToFront(key: Key) returns (ok: bool)
      requires WellLinked()
      modifies `heads, `next, `chains, `home
      ensures WellLinked() && (old(Valid()) ==> Valid())
      ensures ok <==> key != [] && countNew > 0 && FirstIn(node, old(ChainAt(T(), New(hash(key) % countNew))), key).Some?
      ensures ok ==> var c := ChainAt(T(), New(hash(key) % countNew));
        c != [] && FirstIn(node, old(ChainAt(T(), New(hash(key) % countNew))), key) == Some(c[0])
    {
      hide Linked, Stands;
      if key == [] {
        return false;
      }
      LinkedShape(T(), active, cursor, retired, itemCount);
      var h := hash(key);
      ok := MoveToFront(New(h % countNew), h, key);
    }
  }

  // ---- lemmas for the operations ------------------------------------------------------

  lemma RestartedCounts(t: Table, n: nat)
    ensures var u := Restarted(t, n);
      u.countNew == n && u.countOld == t.countNew && u.home.Keys == t.home.Keys
  {
  }

  lemma NotFound(t: Table, m: map<Key, Val>, key: Key, items: int)
    requires Shape(t) && t.countNew > 0 && Stands(t, m, items) && Find(t, key) == None
    ensures key !in m && m - {key} == m
  {
    hide Shape, Stands, FirstIn;
    NotStored(t, m, key, items);
  }

  lemma NoBuckets(t: Table, active: bool, cursor: nat, retired: set<Off>, items: int)
    requires t.countNew == 0
    ensures !Linked(t, active, cursor, retired, items)
  {
  }
}
