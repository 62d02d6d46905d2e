// The edits of the chained tables as the hash map's operations compose them, and what each
// composition keeps: the shape of every chain and the finite map the tables stand for.
module HashSteps {
  import opened Wrappers
  import opened Chains
  import opened HashTable
  import opened HashContents

  /** Progress of a rehash: old buckets before the cursor are empty, all of them when none runs. */
  ghost predicate Drained(t: Table, active: bool, cursor: nat) {
    && (active ==> cursor <= t.countOld)
    && (forall b: nat :: b < t.countOld && (!active || b < cursor) ==> ChainAt(t, Old(b)) == [])
  }

  predicate IsPow2(x: nat) { x == 1 || (x > 0 && x % 2 == 0 && IsPow2(x / 2)) }

  predicate PowerCounts(t: Table) { IsPow2(t.countNew) && (t.countOld == 0 || IsPow2(t.countOld)) }

  /** What the walk of a chain has in hand when it stops at a node with the key. */
  ghost predicate Located(t: Table, s: Slot, key: Key, prev: Off, cur: Off, i: nat) {
    && i < |ChainAt(t, s)| && cur == ChainAt(t, s)[i] && cur in t.node && t.node[cur].key == key
    && cur in t.home && t.home[cur] == s && cur in t.next
    && prev == (if i == 0 then 0 else ChainAt(t, s)[i - 1])
    && (i > 0 ==> prev != 0)
    && FirstIn(t.node, ChainAt(t, s), key) == Some(cur)
  }

  lemma WalkHere(t: Table, s: Slot, cur: Off, i: nat)
    requires SlotOk(t, s) && HomeOk(t) && i <= |t.chains[s]| && cur != 0
    requires ChainTo(t.next, cur, t.chains[s][i..], 0)
    ensures i < |t.chains[s]| && cur == t.chains[s][i] && cur in t.home && t.home[cur] == s
    ensures cur in t.node && Fits(t, t.node[cur], s)
    ensures cur in t.next && ChainTo(t.next, t.next[cur], t.chains[s][i + 1..], 0)
    ensures t.chains[s][i..][1..] == t.chains[s][i + 1..]
  {
    var c := t.chains[s];
    assert c[i..] != [];
    assert c[i..][1..] == c[i + 1..];
    assert c[i] in c;
  }

  lemma WalkBack(t: Table, s: Slot, i: nat)
    requires SlotOk(t, s) && HomeOk(t) && i < |t.chains[s]|
    ensures i > 0 ==> t.chains[s][i - 1] != 0
  {
    assert i > 0 ==> t.chains[s][i - 1] in t.chains[s];
  }

  lemma WalkEnd(t: Table, s: Slot, i: nat)
    requires SlotOk(t, s) && HomeOk(t) && i <= |t.chains[s]|
    requires ChainTo(t.next, 0, t.chains[s][i..], 0)
    ensures t.chains[s][i..] == []
  {
    var rest := t.chains[s][i..];
    assert forall o :: o in rest ==> o in t.chains[s];
    ChainNull(t.next, rest);
  }

  ghost predicate Linked(t: Table, active: bool, cursor: nat, retired: set<Off>, items: int) {
    && Shape(t) && Drained(t, active, cursor) && PowerCounts(t)
    && retired !! t.home.Keys && t.node.Keys == t.home.Keys + retired && items == |t.home|
  }

  ghost predicate Stands(t: Table, m: map<Key, Val>, items: int) {
    Means(t, m) && [] !in m && items == |m|
  }

  function FreshTable(h: Key -> nat, n: nat): Table {
    Table(h, 0, n, map b | 0 <= b < n :: New(b) := 0, map[], map[], map b | 0 <= b < n :: New(b) := [], map[])
  }

  lemma FreshTableOk(h: Key -> nat, n: nat)
    requires n > 0 && IsPow2(n)
    ensures Linked(FreshTable(h, n), false, 0, {}, 0) && Stands(FreshTable(h, n), map[], 0)
  {
    hide IsPow2;
  }

  // ---- edits, as the operations compose them ------------------------------------------

  /** The i-th node of chain s taken out and put back in front, unless it is there already. */
  ghost function MovedFront(t: Table, s: Slot, i: nat): Table
    requires HasSlots(t) && IsSlot(t, s) && i < |t.chains[s]| && t.chains[s][i] in t.next
  {
    if i == 0 then t else Front(Without(t, s, i), s, t.chains[s][i])
  }

  lemma {:induction false} MovedFrontOk(t: Table, s: Slot, i: nat)
    requires Shape(t) && IsSlot(t, s) && i < |ChainAt(t, s)|
    ensures HasSlots(t) && t.chains[s][i] in t.next
    ensures var u := MovedFront(t, s, i);
      && Shape(u) && u.home == t.home && ChainAt(u, s) != [] && ChainAt(u, s)[0] == t.chains[s][i]
  {
    hide Shape;
    ShapeHasSlots(t);
    WithoutShape(t, s, i);
    MemberOfSlot(t, s, i);
    if i > 0 {
      FrontAgain(Without(t, s, i), s, t.chains[s][i]);
      assert (t.home - {t.chains[s][i]})[t.chains[s][i] := s] == t.home;
    }
  }

  lemma MemberOfSlot(t: Table, s: Slot, i: nat)
    requires Shape(t) && IsSlot(t, s) && i < |ChainAt(t, s)|
    ensures var o := t.chains[s][i];
      o != 0 && o in t.home && t.home[o] == s && o in t.node && Fits(t, t.node[o], s)
  {
    assert SlotOk(t, s);
    assert t.chains[s][i] in t.chains[s];
  }

  lemma FrontAgain(w: Table, s: Slot, o: Off)
    requires Shape(w) && IsSlot(w, s) && o != 0 && o !in w.home && o in w.node && Fits(w, w.node[o], s)
    ensures s in w.heads && s in w.chains
    ensures var u := Front(w, s, o);
      Shape(u) && u.home == w.home[o := s] && ChainAt(u, s) != [] && ChainAt(u, s)[0] == o
  {
    FrontShape(w, s, o);
  }

  lemma MovedFrontElsewhere(t: Table, s: Slot, i: nat)
    requires HasSlots(t) && IsSlot(t, s) && i < |t.chains[s]| && t.chains[s][i] in t.next
    ensures var u := MovedFront(t, s, i);
      && u.node == t.node && u.countOld == t.countOld && u.countNew == t.countNew && u.hash == t.hash
      && forall r :: r != s ==> ChainAt(u, r) == ChainAt(t, r)
  {
  }

  lemma MovedFrontKeeps(t: Table, s: Slot, i: nat, m: map<Key, Val>, active: bool, cursor: nat, retired: set<Off>, items: int)
    requires Linked(t, active, cursor, retired, items) && IsSlot(t, s) && i < |ChainAt(t, s)|
    ensures HasSlots(t) && t.chains[s][i] in t.next
    ensures var u := MovedFront(t, s, i);
      && Linked(u, active, cursor, retired, items) && ChainAt(u, s) != [] && ChainAt(u, s)[0] == t.chains[s][i]
      && (Stands(t, m, items) ==> Stands(u, m, items))
  {
    hide Shape, Means;
    MovedFrontOk(t, s, i);
    MovedFrontElsewhere(t, s, i);
    HomeIsNode(t);
    SameMeansIff(t, MovedFront(t, s, i), m);
  }

  // ---- Put ----------------------------------------------------------------------------

  /** Put stored val under key; the tables still stand for a map exactly when the key was not
      waiting in the old table. */
  ghost predicate PutMeans(t: Table, u: Table, m: map<Key, Val>, key: Key, val: Val) {
    Means(t, m) ==>
      && (UniqueKeys(u) <==> !WaitsInOld(t, key))
      && (UniqueKeys(u) ==> Means(u, m[key := val]))
  }

  lemma InMapMeansWaiting(t: Table, m: map<Key, Val>, key: Key)
    requires Shape(t) && Means(t, m)
    ensures match FirstIn(t.node, NewChain(t, key), key)
      case Some(o) => key in m && !WaitsInOld(t, key)
      case None => key in m <==> WaitsInOld(t, key)
  {
    var s := NewSlot(t, t.hash(key));
    assert IsSlot(t, s) && SlotOk(t, s);
    FirstInSpec(t.node, t.chains[s], key);
    if key in m {
      assert Stored(t, key);
      var o :| o in t.home && o in t.node && t.node[o].key == key;
      assert Fits(t, t.node[o], t.home[o]);
    }
  }

  lemma {:induction false} PutFreshOk(t: Table, m: map<Key, Val>, o: Off, key: Key, val: Val, active: bool, cursor: nat)
    requires Shape(t) && Drained(t, active, cursor) && o != 0 && o !in t.node
    requires FirstIn(t.node, NewChain(t, key), key) == None
    ensures var u := PutNew(t, o, Node(t.hash(key), key, val));
      && Shape(u) && Drained(u, active, cursor) && PutMeans(t, u, m, key, val)
      && u.home.Keys == t.home.Keys + {o} && |u.home| == |t.home| + 1
  {
    hide Shape, Means, UniqueKeys;
    var nd := Node(t.hash(key), key, val);
    PutNewShape(t, o, nd);
    var u := PutNew(t, o, nd);
    assert o !in t.home by { HomeIsNode(t); }
    assert |u.home| == |t.home| + 1;
    if Means(t, m) {
      InMapMeansWaiting(t, m, key);
      HomeIsNode(t);
      InsertMeans(t, u, m, o);
    }
  }

  lemma HomeIsNode(t: Table)
    requires Shape(t)
    ensures forall o :: o in t.home ==> o in t.node
  {
  }

  /** The value of a linked node overwritten in place. */
  function Rewritten(t: Table, o: Off, nd: Node): Table { t.(node := t.node[o := nd]) }

  lemma RewrittenShape(t: Table, o: Off, nd: Node)
    requires Shape(t) && o in t.home && o in t.node && nd.hash == t.node[o].hash && nd.key == t.node[o].key
    ensures Shape(Rewritten(t, o, nd))
  {
    var u := Rewritten(t, o, nd);
    forall s | IsSlot(u, s) ensures SlotOk(u, s) {
      assert SlotOk(t, s);
    }
  }

  lemma {:induction false} RewrittenOk(t: Table, m: map<Key, Val>, s: Slot, o: Off, val: Val)
    requires Shape(t) && o in t.home && o in t.node && t.node[o].hash == t.hash(t.node[o].key)
    requires FirstIn(t.node, NewChain(t, t.node[o].key), t.node[o].key) == Some(o)
    ensures var key := t.node[o].key;
      var u := Rewritten(t, o, Node(t.hash(key), key, val));
      Shape(u) && PutMeans(t, u, m, key, val)
  {
    hide Shape, Means;
    var key := t.node[o].key;
    var nd := Node(t.hash(key), key, val);
    RewrittenShape(t, o, nd);
    if Means(t, m) {
      InMapMeansWaiting(t, m, key);
      HomeIsNode(t);
      ReplaceMeans(t, Rewritten(t, o, nd), m, o, o);
      MeansUnique(Rewritten(t, o, nd), m[key := val]);
    }
  }

  lemma MeansUnique(t: Table, m: map<Key, Val>)
    requires Means(t, m)
    ensures UniqueKeys(t)
  {
  }

  /** The i-th node of chain s replaced by the fresh node p with record nd. */
  function Replaced(t: Table, s: Slot, i: nat, p: Off, nd: Node): Table
    requires s in t.heads && s in t.chains && i < |t.chains[s]| && t.chains[s][i] in t.next
  {
    Swapped(t.(node := t.node[p := nd]), s, i, p)
  }

  lemma {:induction false} FreshNodeShape(t: Table, p: Off, nd: Node)
    requires Shape(t) && p !in t.node
    ensures Shape(t.(node := t.node[p := nd]))
  {
    var u := t.(node := t.node[p := nd]);
    forall s | IsSlot(u, s) ensures SlotOk(u, s) {
      assert SlotOk(t, s);
    }
  }

  lemma {:induction false} ReplacedShape(t: Table, s: Slot, i: nat, p: Off, nd: Node)
    requires Shape(t) && IsSlot(t, s) && i < |ChainAt(t, s)|
    requires p != 0 && p !in t.node && Fits(t, nd, s)
    ensures HasSlots(t) && t.chains[s][i] in t.next && t.chains[s][i] in t.home && Shape(Replaced(t, s, i, p, nd))
  {
    hide Shape;
    ShapeHasSlots(t);
    HomeIsNode(t);
    FreshNodeShape(t, p, nd);
    SwappedShape(t.(node := t.node[p := nd]), s, i, p);
  }

  lemma {:induction false} ReplacedOk(t: Table, m: map<Key, Val>, s: Slot, i: nat, p: Off, val: Val, active: bool, cursor: nat)
    requires Shape(t) && s.New? && IsSlot(t, s) && i < |ChainAt(t, s)| && p != 0 && p !in t.node && Drained(t, active, cursor)
    requires t.chains[s][i] in t.node && t.node[t.chains[s][i]].hash == t.hash(t.node[t.chains[s][i]].key)
    requires s == NewSlot(t, t.hash(t.node[t.chains[s][i]].key))
    requires FirstIn(t.node, t.chains[s], t.node[t.chains[s][i]].key) == Some(t.chains[s][i])
    ensures HasSlots(t) && t.chains[s][i] in t.next && t.chains[s][i] in t.home
    ensures var o := t.chains[s][i];
      var key := t.node[o].key;
      var u := Replaced(t, s, i, p, Node(t.hash(key), key, val));
      && Shape(u) && Drained(u, active, cursor) && PutMeans(t, u, m, key, val)
      && u.home.Keys == t.home.Keys - {o} + {p} && |u.home| == |t.home|
  {
    hide Shape, Means, UniqueKeys;
    var o := t.chains[s][i];
    var key := t.node[o].key;
    var nd := Node(t.hash(key), key, val);
    ReplacedShape(t, s, i, p, nd);
    HomeIsNode(t);
    var u := Replaced(t, s, i, p, nd);
    HomeSwapped(t.home, o, p, s);
    if Means(t, m) {
      InMapMeansWaiting(t, m, key);
      ReplaceMeans(t, u, m, o, p);
      MeansUnique(u, m[key := val]);
    }
  }

  lemma HomeSwapped(home: map<Off, Slot>, o: Off, p: Off, s: Slot)
    requires o in home && p !in home
    ensures (home - {o})[p := s].Keys == home.Keys - {o} + {p}
    ensures |(home - {o})[p := s]| == |home|
  {
    assert (home - {o}).Keys == home.Keys - {o};
    assert |(home - {o}).Keys| == |home.Keys| - 1;
  }

  lemma KeysPut(nodes: set<Off>, homes: set<Off>, retired: set<Off>, o: Off)
    requires nodes == homes + retired && retired !! homes && o !in nodes
    ensures nodes + {o} == homes + {o} + retired && retired !! homes + {o}
  {
  }

  lemma PutFreshKeeps(t: Table, m: map<Key, Val>, o: Off, key: Key, val: Val,
                      active: bool, cursor: nat, retired: set<Off>, items: int)
    requires Linked(t, active, cursor, retired, items) && o != 0 && o !in t.node && key != []
    requires FirstIn(t.node, NewChain(t, key), key) == None
    ensures var u := PutNew(t, o, Node(t.hash(key), key, val));
      && Linked(u, active, cursor, retired, items + 1)
      && (Stands(t, m, items) ==> (Stands(u, m[key := val], items + 1) <==> !WaitsInOld(t, key)))
  {
    hide Shape, Means, Drained, IsPow2, WaitsInOld, FirstIn, PutMeans, Stands;
    var nd := Node(t.hash(key), key, val);
    PutFreshOk(t, m, o, key, val, active, cursor);
    PutNewShape(t, o, nd);
    KeysPut(t.node.Keys, t.home.Keys, retired, o);
    assert t.node[o := nd].Keys == t.node.Keys + {o};
    PutFreshStands(t, PutNew(t, o, nd), m, key, val, items);
  }

  lemma PutFreshStands(t: Table, u: Table, m: map<Key, Val>, key: Key, val: Val, items: int)
    requires Shape(t) && key != [] && PutMeans(t, u, m, key, val) && FirstIn(t.node, NewChain(t, key), key) == None
    ensures Stands(t, m, items) ==> (Stands(u, m[key := val], items + 1) <==> !WaitsInOld(t, key))
  {
    hide Shape, Means, UniqueKeys, WaitsInOld, FirstIn;
    if Means(t, m) {
      InMapMeansWaiting(t, m, key);
      if Means(u, m[key := val]) {
        MeansUnique(u, m[key := val]);
      }
    }
  }

  /** A Put that overwrites in place and moves the node to the front. */
  ghost function Overwritten(t: Table, s: Slot, i: nat, val: Val): Table
    requires HasSlots(t) && IsSlot(t, s) && i < |t.chains[s]| && t.chains[s][i] in t.next && t.chains[s][i] in t.node
  {
    var o := t.chains[s][i];
    MovedFront(Rewritten(t, o, Node(t.node[o].hash, t.node[o].key, val)), s, i)
  }

  lemma OverwrittenKeeps(t: Table, m: map<Key, Val>, s: Slot, i: nat, key: Key, val: Val,
                         active: bool, cursor: nat, retired: set<Off>, items: int)
    requires Linked(t, active, cursor, retired, items) && IsSlot(t, s) && i < |ChainAt(t, s)| && key != []
    requires t.countNew > 0 && s == NewSlot(t, t.hash(key)) && FirstIn(t.node, NewChain(t, key), key) == Some(ChainAt(t, s)[i])
    requires ChainAt(t, s)[i] in t.node && t.node[ChainAt(t, s)[i]].key == key
    ensures HasSlots(t) && t.chains[s][i] in t.next && t.node[t.chains[s][i]].hash == t.hash(key)
    ensures var u := Overwritten(t, s, i, val);
      && Linked(u, active, cursor, retired, items)
      && (Stands(t, m, items) ==> Stands(u, m[key := val], items) && !WaitsInOld(t, key))
  {
    hide Shape, Means, Drained, MovedFront, WaitsInOld, FirstIn, IsPow2, UniqueKeys;
    ShapeHasSlots(t);
    MemberOfSlot(t, s, i);
    var o := t.chains[s][i];
    RewrittenOk(t, m, s, o, val);
    var w := Rewritten(t, o, Node(t.hash(key), key, val));
    DrainedFrame(t, w, active, cursor);
    assert w.node.Keys == t.node.Keys;
    MovedFrontKeeps(w, s, i, m[key := val], active, cursor, retired, items);
    WithoutShape(t, s, i);
    if Means(t, m) {
      InMapMeansWaiting(t, m, key);
      assert |m[key := val]| == |m|;
    }
  }

  lemma ReplacedKeeps(t: Table, m: map<Key, Val>, s: Slot, i: nat, p: Off, key: Key, val: Val,
                      active: bool, cursor: nat, retired: set<Off>, items: int)
    requires Linked(t, active, cursor, retired, items) && IsSlot(t, s) && i < |ChainAt(t, s)| && key != []
    requires t.countNew > 0 && s == NewSlot(t, t.hash(key)) && FirstIn(t.node, NewChain(t, key), key) == Some(ChainAt(t, s)[i])
    requires ChainAt(t, s)[i] in t.node && t.node[ChainAt(t, s)[i]].key == key
    requires p != 0 && p !in t.node
    ensures HasSlots(t) && t.chains[s][i] in t.next
    ensures var u := Replaced(t, s, i, p, Node(t.hash(key), key, val));
      && Linked(u, active, cursor, retired + {t.chains[s][i]}, items)
      && (Stands(t, m, items) ==> Stands(u, m[key := val], items) && !WaitsInOld(t, key))
  {
    hide Shape, Means, Drained, WaitsInOld, FirstIn, IsPow2, UniqueKeys, Swapped;
    ShapeHasSlots(t);
    MemberOfSlot(t, s, i);
    HomeIsNode(t);
    ReplacedOk(t, m, s, i, p, val, active, cursor);
    SwappedNode(t.(node := t.node[p := Node(t.hash(key), key, val)]), s, i, p);
    if Means(t, m) {
      InMapMeansWaiting(t, m, key);
      assert |m[key := val]| == |m|;
    }
  }

  lemma SwappedNode(t: Table, s: Slot, i: nat, p: Off)
    requires s in t.heads && s in t.chains && i < |t.chains[s]| && t.chains[s][i] in t.next
    ensures var u := Swapped(t, s, i, p);
      u.node == t.node && u.countOld == t.countOld && u.countNew == t.countNew && u.hash == t.hash
  {
  }

  // ---- Erase --------------------------------------------------------------------------

  lemma {:induction false} ErasedOk(t: Table, m: map<Key, Val>, s: Slot, i: nat, active: bool, cursor: nat)
    requires Shape(t) && IsSlot(t, s) && i < |ChainAt(t, s)| && Drained(t, active, cursor)
    ensures HasSlots(t) && t.chains[s][i] in t.next && t.chains[s][i] in t.home && t.chains[s][i] in t.node
    ensures var o := t.chains[s][i];
      var u := Without(t, s, i);
      && Shape(u) && Drained(u, active, cursor)
      && u.home.Keys == t.home.Keys - {o} && |u.home| == |t.home| - 1
      && (Means(t, m) ==> t.node[o].key in m && Means(u, m - {t.node[o].key}))
  {
    hide Shape, Means;
    ShapeHasSlots(t);
    HomeIsNode(t);
    WithoutShape(t, s, i);
    var o := t.chains[s][i];
    assert (t.home - {o}).Keys == t.home.Keys - {o};
    if Means(t, m) {
      RemoveMeans(t, Without(t, s, i), m, o);
      KeyInMap(t, m, o);
    }
  }

  lemma KeyInMap(t: Table, m: map<Key, Val>, o: Off)
    requires Means(t, m) && o in t.home
    ensures o in t.node && t.node[o].key in m
  {
  }

  lemma ErasedKeeps(t: Table, m: map<Key, Val>, s: Slot, i: nat, active: bool, cursor: nat, retired: set<Off>, items: int)
    requires Linked(t, active, cursor, retired, items) && IsSlot(t, s) && i < |ChainAt(t, s)|
    ensures HasSlots(t) && t.chains[s][i] in t.next && t.chains[s][i] in t.node
    ensures var o := t.chains[s][i];
      var u := Without(t, s, i);
      && Linked(u, active, cursor, retired + {o}, items - 1)
      && (Stands(t, m, items) ==> t.node[o].key in m && Stands(u, m - {t.node[o].key}, items - 1))
  {
    hide Shape, Means, Drained, IsPow2;
    ErasedOk(t, m, s, i, active, cursor);
    var k := t.node[t.chains[s][i]].key;
    assert k in m ==> (m - {k}).Keys == m.Keys - {k};
  }

  /** A key no chain of its two buckets holds is not in the map. */
  lemma NotStored(t: Table, m: map<Key, Val>, key: Key, items: int)
    requires Shape(t) && Stands(t, m, items)
    requires FirstIn(t.node, NewChain(t, key), key) == None
    requires t.countOld > 0 ==> FirstIn(t.node, ChainAt(t, OldSlot(t, t.hash(key))), key) == None
    ensures key !in m && m - {key} == m
  {
    hide Shape, Means;
    CountsPositive(t);
    FindIsLookup(t, m, key);
  }

  lemma NoEmptyKey(t: Table, m: map<Key, Val>, items: int)
    requires Stands(t, m, items)
    ensures [] !in m && m - {[]} == m
  {
  }

  // ---- rehash -------------------------------------------------------------------------

  lemma {:induction false} MoveStep(t: Table, cur: Off, rest: seq<Off>)
    requires Shape(t) && Floating(t, rest) && ChainTo(t.next, cur, rest, 0) && cur != 0
    ensures rest != [] && cur == rest[0] && cur in t.node && cur in t.next && HasSlots(t)
    ensures var u := Front(t, NewSlot(t, t.node[cur].hash), cur);
      && Moved(t, rest) == Moved(u, rest[1..]) && u.countNew == t.countNew
      && Shape(u) && Floating(u, rest[1..]) && ChainTo(u.next, t.next[cur], rest[1..], 0)
  {
    hide Shape;
    MoveFirst(t, rest);
    var u := MovedOne(t, cur);
    var tail := rest[1..];
    assert Floating(u, tail);
    forall o | o in tail ensures o != cur {
      var j :| 0 <= j < |tail| && tail[j] == o;
      assert rest[j + 1] == o;
    }
    ChainFrame(t.next, u.next, t.next[cur], tail, 0);
  }

  lemma MoveDone(t: Table, rest: seq<Off>)
    requires Floating(t, rest) && ChainTo(t.next, 0, rest, 0) && t.countNew > 0
    ensures Moved(t, rest) == t
  {
    ChainNull(t.next, rest);
  }

  lemma {:induction false} EmptyBucket(t: Table, b: nat)
    requires Shape(t) && b < t.countOld && Old(b) in t.heads && t.heads[Old(b)] == 0
    ensures t.countNew > 0 && Migrated(t, b) == t
  {
    assert IsSlot(t, Old(b)) && SlotOk(t, Old(b));
    ChainNull(t.next, t.chains[Old(b)]);
    var u := Emptied(t, Old(b));
    assert u.heads == t.heads && u.chains == t.chains && u.home == t.home;
  }

  /** Migrating the bucket under the cursor keeps what the tables mean. */
  lemma {:induction false} MigratedOk(t: Table, b: nat, active: bool)
    requires Shape(t) && b < t.countOld && Drained(t, active, b)
    ensures t.countNew > 0
    ensures var u := Migrated(t, b);
      && Shape(u) && Drained(u, active, b + 1) && u.node == t.node && u.home.Keys == t.home.Keys
      && u.countOld == t.countOld && u.countNew == t.countNew && u.hash == t.hash && |u.home| == |t.home|
  {
    assert t.countNew > 0;
    hide Shape;
    MigratedShape(t, b);
    assert |Migrated(t, b).home| == |Migrated(t, b).home.Keys|;
  }

  /** Tables that link the same nodes with the same records mean the same. */
  lemma SameMeansIff(t: Table, u: Table, m: map<Key, Val>)
    requires u.home.Keys == t.home.Keys
    requires forall o :: o in t.home ==> o in t.node && o in u.node && u.node[o] == t.node[o]
    ensures Means(t, m) <==> Means(u, m)
  {
    hide Means;
    assert forall o :: o in u.home <==> o in t.home.Keys;
    if Means(t, m) {
      SameMeans(t, u, m);
    }
    if Means(u, m) {
      SameMeans(u, t, m);
    }
  }

  /** The filled table becomes the old one, in front of n empty new buckets. */
  function Restarted(t: Table, n: nat): Table {
    t.(countOld := t.countNew, countNew := n,
       heads := map s | s in OldSlots(t.countNew) + NewSlots(n) :: if s.Old? && New(s.b) in t.heads then t.heads[New(s.b)] else 0,
       chains := map s | s in OldSlots(t.countNew) + NewSlots(n) :: if s.Old? && New(s.b) in t.chains then t.chains[New(s.b)] else [],
       home := map o | o in t.home :: Old(t.home[o].b))
  }

  function OldSlots(n: nat): set<Slot> { set b: nat | b < n :: Old(b) }

  function NewSlots(n: nat): set<Slot> { set b: nat | b < n :: New(b) }

  lemma {:induction false} RestartedShape(t: Table, n: nat)
    requires Shape(t) && Drained(t, false, 0) && n > 0
    ensures Shape(Restarted(t, n)) && Restarted(t, n).home.Keys == t.home.Keys
  {
    hide SlotOk;
    var u := Restarted(t, n);
    AllInNew(t);
    forall r | IsSlot(u, r) ensures SlotOk(u, r) {
      assert r.Old? ==> IsSlot(t, New(r.b)) && SlotOk(t, New(r.b));
      RestartedSlot(t, n, r);
    }
  }

  lemma RestartedSlot(t: Table, n: nat, r: Slot)
    requires IsSlot(Restarted(t, n), r) && (r.Old? ==> SlotOk(t, New(r.b)))
    requires forall o :: o in t.home ==> t.home[o].New?
    ensures SlotOk(Restarted(t, n), r)
  {
    hide ChainTo, Distinct;
    if r.New? {
      EmptyChainOk(t.next);
    }
  }

  lemma EmptyChainOk(nx: map<Off, Off>)
    ensures ChainTo(nx, 0, [], 0) && Distinct([])
  {
  }

  lemma AllInNew(t: Table)
    requires Shape(t) && Drained(t, false, 0)
    ensures forall o :: o in t.home ==> t.home[o].New?
  {
    forall o | o in t.home ensures t.home[o].New? {
      assert SlotOk(t, t.home[o]);
    }
  }

  /** Unlinked nodes may go. */
  lemma {:induction false} FreedOk(t: Table, u: Table, gone: set<Off>, m: map<Key, Val>)
    requires Shape(t) && gone !! t.home.Keys
    requires u == t.(node := t.node - gone, next := t.next - gone)
    ensures Shape(u) && (Means(t, m) <==> Means(u, m))
  {
    forall r | IsSlot(u, r) ensures SlotOk(u, r) {
      assert SlotOk(t, r);
      SlotFrame(t, u, r);
    }
    assert forall o :: o in t.home ==> o in t.home.Keys;
    SameMeansIff(t, u, m);
  }

  lemma FreedKeeps(t: Table, u: Table, gone: set<Off>, m: map<Key, Val>, active: bool, cursor: nat, retired: set<Off>, items: int)
    requires Linked(t, active, cursor, retired, items) && gone <= retired
    requires u == t.(node := t.node - gone, next := t.next - gone)
    ensures Linked(u, active, cursor, retired - gone, items) && (Stands(t, m, items) <==> Stands(u, m, items))
  {
    hide Shape, Means, Drained, PowerCounts;
    KeysFreed(t.node.Keys, t.home.Keys, retired, gone);
    FreedOk(t, u, gone, m);
    DrainedFrame(t, u, active, cursor);
    NodeKeysFreed(t.node, gone);
    SameCounts(t, u);
  }

  lemma SameCounts(t: Table, u: Table)
    requires u.countNew == t.countNew && u.countOld == t.countOld
    ensures PowerCounts(u) == PowerCounts(t)
  {
  }

  lemma KeysFreed(nodes: set<Off>, homes: set<Off>, retired: set<Off>, gone: set<Off>)
    requires nodes == homes + retired && retired !! homes && gone <= retired
    ensures nodes - gone == homes + (retired - gone) && retired - gone !! homes && gone !! homes
  {
  }

  lemma NodeKeysFreed(node: map<Off, Node>, gone: set<Off>)
    ensures (node - gone).Keys == node.Keys - gone
  {
  }

  lemma DrainedFrame(t: Table, u: Table, active: bool, cursor: nat)
    requires Drained(t, active, cursor) && u.countOld == t.countOld && u.chains == t.chains
    ensures Drained(u, active, cursor)
  {
  }

  lemma LinkedShape(t: Table, active: bool, cursor: nat, retired: set<Off>, items: int)
    requires Linked(t, active, cursor, retired, items)
    ensures Shape(t) && HasSlots(t) && (active ==> cursor <= t.countOld)
  {
    ShapeHasSlots(t);
  }

  function Min(a: int, b: int): int { if a < b then a else b }

  lemma RehashDone(t: Table, b: nat, retired: set<Off>, items: int)
    requires Linked(t, true, b, retired, items) && b >= t.countOld
    ensures Linked(t, false, b + 1, retired, items)
  {
    hide Shape;
  }

  lemma EmptiedChain(t: Table, s: Slot)
    requires SlotOk(t, s)
    ensures ChainTo(t.next, t.heads[s], t.chains[s], 0)
  {
  }

  lemma RestartedKeeps(t: Table, n: nat, m: map<Key, Val>, cursor: nat, retired: set<Off>, items: int)
    requires Linked(t, false, cursor, retired, items) && n > 0 && IsPow2(n)
    ensures var u := Restarted(t, n);
      && Linked(u, true, 0, retired, items) && (Stands(t, m, items) <==> Stands(u, m, items))
      && u.home.Keys == t.home.Keys && u.countOld == t.countNew && u.countNew == n
  {
    hide Shape, Means, IsPow2;
    CountsPositive(t);
    RestartedShape(t, n);
    HomeIsNode(t);
    var u := Restarted(t, n);
    assert |u.home| == |u.home.Keys|;
    SameMeansIff(t, u, m);
  }

  lemma MigratedKeeps(t: Table, b: nat, m: map<Key, Val>, retired: set<Off>, items: int)
    requires Linked(t, true, b, retired, items) && b < t.countOld
    ensures t.countNew > 0
    ensures var u := Migrated(t, b);
      && Linked(u, true, b + 1, retired, items) && (Stands(t, m, items) <==> Stands(u, m, items))
      && u.home.Keys == t.home.Keys
  {
    hide Shape, Means, Drained;
    MigratedOk(t, b, true);
    HomeIsNode(t);
    SameMeansIff(t, Migrated(t, b), m);
  }

  lemma NewSlotIn(t: Table, cur: Off)
    requires HasSlots(t) && cur in t.node
    ensures var bn := New(t.node[cur].hash % t.countNew);
      bn == NewSlot(t, t.node[cur].hash) && bn in t.heads && bn in t.chains
  {
    assert IsSlot(t, NewSlot(t, t.node[cur].hash));
  }

  lemma CountsPositive(t: Table)
    requires Shape(t)
    ensures t.countNew > 0
  {
  }

  lemma EmptiedIs(t: Table, u: Table, b: nat)
    requires t.countNew > 0 && Old(b) in t.chains
    requires u == t.(heads := t.heads[Old(b) := 0], chains := t.chains[Old(b) := []],
                     home := map o | o in t.home && t.home[o] != Old(b) :: t.home[o])
    ensures u == Emptied(t, Old(b)) && Moved(u, t.chains[Old(b)]) == Migrated(t, b)
  {
  }

  /** The new table holds the key with a value of that length. */
  predicate FitsInPlace(t: Table, key: Key, val: Val) {
    && t.countNew > 0
    && match FirstIn(t.node, ChainAt(t, NewSlot(t, t.hash(key))), key)
       case Some(o) => o in t.node && |t.node[o].val| == |val|
       case None => false
  }

  // ---- what Put does to the chains ------------------------------------------------------

  /** The i-th node of the key's new chain gets the value and moves to the front. */
  ghost predicate PutOverwrites(t: Table, u: Table, key: Key, val: Val, i: nat) {
    && t.countNew > 0 && HasSlots(t)
    && var s := NewSlot(t, t.hash(key));
       && IsSlot(t, s) && i < |t.chains[s]| && t.chains[s][i] in t.next && t.chains[s][i] in t.node
       && FirstIn(t.node, t.chains[s], key) == Some(t.chains[s][i])
       && |t.node[t.chains[s][i]].val| == |val| && u == Overwritten(t, s, i, val)
  }

  /** The i-th node of the key's new chain gives way to node p. */
  ghost predicate PutReplaces(t: Table, u: Table, key: Key, val: Val, p: Off, i: nat) {
    && t.countNew > 0 && HasSlots(t)
    && var s := NewSlot(t, t.hash(key));
       && IsSlot(t, s) && i < |t.chains[s]| && t.chains[s][i] in t.next && t.chains[s][i] in t.node
       && FirstIn(t.node, t.chains[s], key) == Some(t.chains[s][i])
       && |t.node[t.chains[s][i]].val| != |val| && u == Replaced(t, s, i, p, Node(t.hash(key), key, val))
  }

  /** The three ways a Put ends: over the node in place, in the place of it, or in front. */
  ghost predicate PutEffect(t: Table, u: Table, key: Key, val: Val, p: Off) {
    || (exists i: nat :: PutOverwrites(t, u, key, val, i))
    || (exists i: nat :: PutReplaces(t, u, key, val, p, i))
    || (t.countNew > 0 && FirstIn(t.node, NewChain(t, key), key) == None && u == PutNew(t, p, Node(t.hash(key), key, val)))
  }

  /** The node a Put of another size retires. */
  function Outgrown(t: Table, key: Key, val: Val): set<Off> {
    if t.countNew == 0 then {}
    else
      match FirstIn(t.node, ChainAt(t, NewSlot(t, t.hash(key))), key)
      case Some(o) => if o in t.node && |t.node[o].val| != |val| then {o} else {}
      case None => {}
  }

  /** The first node with the key on its new chain has this value. */
  ghost predicate Shows(t: Table, key: Key, val: Val) {
    && t.countNew > 0
    && match FirstIn(t.node, NewChain(t, key), key)
       case Some(o) => o in t.node && t.node[o].val == val
       case None => false
  }

  lemma OverwriteEffect(t: Table, u: Table, s: Slot, key: Key, val: Val, p: Off, i: nat)
    requires t.countNew > 0 && HasSlots(t) && s == NewSlot(t, t.hash(key)) && IsSlot(t, s)
    requires i < |t.chains[s]| && t.chains[s][i] in t.next && t.chains[s][i] in t.node
    requires FirstIn(t.node, t.chains[s], key) == Some(t.chains[s][i])
    requires |t.node[t.chains[s][i]].val| == |val| && u == Overwritten(t, s, i, val)
    ensures PutEffect(t, u, key, val, p) && Outgrown(t, key, val) == {} && Shows(u, key, val)
  {
    assert PutOverwrites(t, u, key, val, i) by {
      hide Overwritten;
    }
    FirstInSpec(t.node, t.chains[s], key);
    var o := t.chains[s][i];
    assert u.node == t.node[o := Node(t.node[o].hash, t.node[o].key, val)];
    assert NewSlot(u, u.hash(key)) == s && u.chains[s] != [] && u.chains[s][0] == o;
    assert FirstIn(u.node, u.chains[s], key) == Some(o);
  }

  lemma ReplaceEffect(t: Table, u: Table, s: Slot, key: Key, val: Val, p: Off, i: nat)
    requires t.countNew > 0 && HasSlots(t) && s == NewSlot(t, t.hash(key)) && IsSlot(t, s)
    requires i < |t.chains[s]| && t.chains[s][i] in t.next && t.chains[s][i] in t.node
    requires FirstIn(t.node, t.chains[s], key) == Some(t.chains[s][i]) && Distinct(t.chains[s]) && p !in t.node
    requires |t.node[t.chains[s][i]].val| != |val| && u == Replaced(t, s, i, p, Node(t.hash(key), key, val))
    ensures PutEffect(t, u, key, val, p) && Outgrown(t, key, val) == {t.chains[s][i]} && Shows(u, key, val)
  {
    assert PutReplaces(t, u, key, val, p, i) by {
      hide Replaced;
    }
    FirstInReplaced(t.node, t.chains[s], i, p, Node(t.hash(key), key, val));
    assert NewSlot(u, u.hash(key)) == s && u.chains[s] == t.chains[s][..i] + [p] + t.chains[s][i + 1..];
    assert u.node == t.node[p := Node(t.hash(key), key, val)];
  }

  lemma InsertEffect(t: Table, u: Table, key: Key, val: Val, p: Off)
    requires t.countNew > 0 && HasSlots(t) && FirstIn(t.node, NewChain(t, key), key) == None
    requires u == PutNew(t, p, Node(t.hash(key), key, val))
    ensures PutEffect(t, u, key, val, p) && Outgrown(t, key, val) == {} && Shows(u, key, val)
  {
    var s := NewSlot(t, t.hash(key));
    assert NewSlot(u, u.hash(key)) == s && u.node == t.node[p := Node(t.hash(key), key, val)];
    assert s in u.chains && u.chains[s] != [] && u.chains[s][0] == p;
    assert FirstIn(u.node, u.chains[s], key) == Some(p);
  }

  lemma ShowsIs(t: Table, key: Key, val: Val)
    requires Shows(t, key, val)
    ensures t.countNew != 0
    ensures match FirstIn(t.node, ChainAt(t, New(t.hash(key) % t.countNew)), key)
      case Some(o) => o in t.node && t.node[o].val == val
      case None => false
  {
  }

  lemma ChainDistinct(t: Table, s: Slot)
    requires Shape(t) && IsSlot(t, s)
    ensures s in t.chains && Distinct(t.chains[s])
  {
    assert SlotOk(t, s);
  }
}
