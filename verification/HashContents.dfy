// What the chained tables mean: lookup over the chains, and the effect of each edit on the
// finite map they stand for.
module HashContents {
  import opened Wrappers
  import opened Chains
  import opened HashTable

  // ---- lookup -----------------------------------------------------------------------

  /** First node of a chain with key k. */
  function FirstIn(node: map<Off, Node>, c: seq<Off>, k: Key): Option<Off> {
    if c == [] then None
    else if c[0] in node && node[c[0]].key == k then Some(c[0])
    else FirstIn(node, c[1..], k)
  }

  lemma {:induction false} FirstInSpec(node: map<Off, Node>, c: seq<Off>, k: Key)
    ensures match FirstIn(node, c, k)
      case Some(o) => o in c && o in node && node[o].key == k
      case None => forall o :: o in c && o in node ==> node[o].key != k
    decreases |c|
  {
    if c != [] && !(c[0] in node && node[c[0]].key == k) {
      FirstInSpec(node, c[1..], k);
      assert forall o :: o in c <==> o == c[0] || o in c[1..];
    }
  }

  /** It is the first: no member before it is a node with the key. */
  lemma {:induction false} FirstInIsFirst(node: map<Off, Node>, c: seq<Off>, k: Key) returns (i: nat)
    requires FirstIn(node, c, k).Some?
    ensures i < |c| && FirstIn(node, c, k) == Some(c[i]) && c[i] in node && node[c[i]].key == k
    ensures forall j :: 0 <= j < i ==> !(c[j] in node && node[c[j]].key == k)
    decreases |c|
  {
    if c[0] in node && node[c[0]].key == k {
      i := 0;
    } else {
      i := FirstInIsFirst(node, c[1..], k);
      i := i + 1;
    }
  }

  /** A node that takes the place of the first with its key is the first. */
  lemma {:induction false} FirstInReplaced(node: map<Off, Node>, c: seq<Off>, i: nat, p: Off, nd: Node)
    requires Distinct(c) && i < |c| && FirstIn(node, c, nd.key) == Some(c[i]) && p !in node
    ensures FirstIn(node[p := nd], c[..i] + [p] + c[i + 1..], nd.key) == Some(p)
    decreases |c|
  {
    var d := c[..i] + [p] + c[i + 1..];
    if i > 0 && c[0] != p {
      assert c[1..][i - 1] == c[i] && Distinct(c[1..]);
      FirstInReplaced(node, c[1..], i - 1, p, nd);
      assert d[1..] == c[1..][..i - 1] + [p] + c[1..][i..] && c[1..][i..] == c[i + 1..];
    }
  }

  /** What Get finds: the new table first, then the old one if there is one. */
  function Find(t: Table, k: Key): Option<Off>
    requires t.countNew > 0
  {
    var h := t.hash(k);
    var found := FirstIn(t.node, ChainAt(t, NewSlot(t, h)), k);
    if found.Some? || t.countOld == 0 then found else FirstIn(t.node, ChainAt(t, OldSlot(t, h)), k)
  }

  function ChainAt(t: Table, s: Slot): seq<Off> { if s in t.chains then t.chains[s] else [] }

  lemma ShapeHasSlots(t: Table)
    requires Shape(t)
    ensures HasSlots(t)
  {
    assert forall s :: IsSlot(t, s) ==> SlotOk(t, s);
  }

  lemma {:induction false} FindIsHome(t: Table, k: Key)
    requires Shape(t)
    ensures HasSlots(t)
    ensures match Find(t, k)
      case Some(o) => o in t.home && o in t.node && t.node[o].key == k
      case None => !Stored(t, k)
  {
    ShapeHasSlots(t);
    var h := t.hash(k);
    assert IsSlot(t, NewSlot(t, h)) && SlotOk(t, NewSlot(t, h));
    FirstInSpec(t.node, t.chains[NewSlot(t, h)], k);
    if t.countOld > 0 {
      assert IsSlot(t, OldSlot(t, h)) && SlotOk(t, OldSlot(t, h));
      FirstInSpec(t.node, t.chains[OldSlot(t, h)], k);
    }
    if Find(t, k).None? {
      forall o | o in t.home && o in t.node ensures t.node[o].key != k {
        assert SlotOk(t, t.home[o]);
      }
    }
  }

  /** Get agrees with lookup in the finite map. */
  lemma {:induction false} FindIsLookup(t: Table, m: map<Key, Val>, k: Key)
    requires Shape(t) && Means(t, m)
    ensures HasSlots(t)
    ensures match Find(t, k)
      case Some(o) => o in t.node && k in m && m[k] == t.node[o].val
      case None => k !in m
  {
    FindIsHome(t, k);
  }

  /** A table stands for one map only. */
  lemma MeansOne(t: Table, m: map<Key, Val>, n: map<Key, Val>)
    requires Means(t, m) && Means(t, n)
    ensures m == n
  {
    forall k | k in m || k in n ensures k in m && k in n && m[k] == n[k] {
      assert Stored(t, k);
      var o :| o in t.home && o in t.node && t.node[o].key == k;
    }
  }

  // ---- effect of the edits ----------------------------------------------------------

  /** Same linked nodes, same records: same map. */
  lemma SameMeans(t: Table, t': Table, m: map<Key, Val>)
    requires Means(t, m) && t'.home.Keys == t.home.Keys
    requires forall o :: o in t.home ==> o in t'.node && o in t.node && t'.node[o] == t.node[o]
    ensures Means(t', m)
  {
    assert forall o :: o in t'.home <==> o in t.home.Keys;
    forall k | k in m ensures Stored(t', k) {
      assert Stored(t, k);
    }
  }

  /** One more node: a map update when its key is new, a broken table when it is not. */
  lemma InsertMeans(t: Table, t': Table, m: map<Key, Val>, o: Off)
    requires Means(t, m) && o !in t.home && o in t'.node
    requires t'.home.Keys == t.home.Keys + {o}
    requires forall p :: p in t.home ==> p in t'.node && p in t.node && t'.node[p] == t.node[p]
    ensures UniqueKeys(t') <==> t'.node[o].key !in m
    ensures UniqueKeys(t') ==> Means(t', m[t'.node[o].key := t'.node[o].val])
  {
    assert o in t'.home.Keys;
    assert forall p :: p in t'.home <==> p in t.home.Keys + {o};
    var k := t'.node[o].key;
    if k in m {
      assert Stored(t, k);
      var p :| p in t.home && p in t.node && t.node[p].key == k;
      assert p in t'.home && p != o;
    } else {
      forall j | j in m ensures Stored(t', j) {
        assert Stored(t, j);
      }
    }
  }

  lemma RemoveMeans(t: Table, t': Table, m: map<Key, Val>, o: Off)
    requires Means(t, m) && o in t.home
    requires t'.home.Keys == t.home.Keys - {o}
    requires forall p :: p in t'.home ==> p in t.node && p in t'.node && t'.node[p] == t.node[p]
    ensures o in t.node && Means(t', m - {t.node[o].key})
  {
    assert forall p :: p in t'.home <==> p in t.home.Keys - {o};
    forall k | k in m && k != t.node[o].key ensures Stored(t', k) {
      assert Stored(t, k);
    }
  }

  /** The record of a linked node is rewritten, or node n takes over from node o. */
  lemma ReplaceMeans(t: Table, t': Table, m: map<Key, Val>, o: Off, n: Off)
    requires Means(t, m) && o in t.home && (n == o || n !in t.home)
    requires t'.home.Keys == t.home.Keys - {o} + {n} && n in t'.node
    requires o in t.node && t'.node[n].key == t.node[o].key
    requires forall p :: p in t.home && p != o ==> p in t'.node && p in t.node && t'.node[p] == t.node[p]
    ensures Means(t', m[t.node[o].key := t'.node[n].val])
  {
    hide UniqueKeys, Stored;
    assert n in t'.home.Keys;
    assert forall p :: p in t'.home <==> p in t.home.Keys - {o} + {n};
    ReplaceUnique(t, t', o, n);
    forall k | k in m ensures Stored(t', k) {
      assert Stored(t, k);
      ReplaceStored(t, t', o, n, k);
    }
  }

  lemma ReplaceStored(t: Table, t': Table, o: Off, n: Off, k: Key)
    requires Stored(t, k) && n in t'.home && n in t'.node && o in t.node && t'.node[n].key == t.node[o].key
    requires forall p :: p in t.home && p != o ==> p in t'.home && p in t'.node && p in t.node && t'.node[p] == t.node[p]
    ensures Stored(t', k)
  {
    var p :| p in t.home && p in t.node && t.node[p].key == k;
    assert (if p == o then n else p) in t'.home;
  }

  lemma ReplaceUnique(t: Table, t': Table, o: Off, n: Off)
    requires UniqueKeys(t) && o in t.home && o in t.node && n in t'.node && t'.node[n].key == t.node[o].key
    requires forall p :: p in t'.home <==> (p in t.home && p != o) || p == n
    requires forall p :: p in t.home && p != o ==> p in t'.node && p in t.node && t'.node[p] == t.node[p]
    requires n == o || n !in t.home
    ensures UniqueKeys(t')
  {
    forall p, q | p in t'.home && q in t'.home && p in t'.node && q in t'.node && t'.node[p].key == t'.node[q].key
      ensures p == q
    {
      var p0, q0 := if p == n then o else p, if q == n then o else q;
      assert t.node[p0].key == t.node[q0].key;
    }
  }

  // ---- moving a bucket --------------------------------------------------------------

  /** Nodes of an emptied bucket pushed one by one onto the chains of the new table. */
  function Moved(t: Table, rest: seq<Off>): (u: Table)
    requires t.countNew > 0
    ensures u.countNew == t.countNew
    decreases |rest|
  {
    if rest == [] then t else Moved(MovedOne(t, rest[0]), rest[1..])
  }

  function MovedOne(t: Table, o: Off): (u: Table)
    requires t.countNew > 0
    ensures u.countNew == t.countNew
  {
    if o in t.node then
      var s := NewSlot(t, t.node[o].hash);
      if s in t.heads && s in t.chains then Front(t, s, o) else t
    else t
  }

  ghost predicate Floating(t: Table, rest: seq<Off>) {
    && Distinct(rest)
    && forall o :: o in rest ==> o != 0 && o !in t.home && o in t.node && t.node[o].hash == t.hash(t.node[o].key)
  }

  lemma {:induction false} MoveFirst(t: Table, rest: seq<Off>)
    requires Shape(t) && Floating(t, rest) && rest != []
    ensures var u := MovedOne(t, rest[0]);
      && HasSlots(t) && rest[0] in t.node && u == Front(t, NewSlot(t, t.node[rest[0]].hash), rest[0])
      && Shape(u) && Floating(u, rest[1..])
  {
    var o := rest[0];
    assert o in rest;
    var s := NewSlot(t, t.node[o].hash);
    assert IsSlot(t, s);
    ShapeHasSlots(t);
    FrontShape(t, s, o);
    forall p | p in rest[1..] ensures p in rest && p != o {
      var j :| 0 <= j < |rest[1..]| && rest[1..][j] == p;
      assert rest[j + 1] == p;
    }
  }

  lemma {:induction false} MovedShape(t: Table, rest: seq<Off>)
    requires Shape(t) && Floating(t, rest)
    ensures var u := Moved(t, rest);
      && Shape(u) && u.node == t.node && u.hash == t.hash
      && u.countOld == t.countOld && u.countNew == t.countNew
      && (forall o :: o in u.home <==> o in t.home || o in rest)
      && (forall b: nat :: ChainAt(u, Old(b)) == ChainAt(t, Old(b)))
    decreases |rest|
  {
    if rest != [] {
      MoveFirst(t, rest);
      MovedShape(MovedOne(t, rest[0]), rest[1..]);
      assert forall o :: o in rest <==> o == rest[0] || o in rest[1..];
    }
  }

  /** MigrateOneBucket on bucket b of the old table. */
  function Migrated(t: Table, b: nat): (u: Table)
    requires t.countNew > 0
    ensures u.countNew == t.countNew
  {
    if Old(b) in t.chains then Moved(Emptied(t, Old(b)), t.chains[Old(b)]) else t
  }

  /** Migrating a bucket keeps every chain well linked and every node in the table. */
  lemma {:induction false} MigratedShape(t: Table, b: nat)
    requires Shape(t) && b < t.countOld
    ensures var u := Migrated(t, b);
      && Shape(u) && u.node == t.node && u.hash == t.hash && u.home.Keys == t.home.Keys
      && u.countOld == t.countOld && u.countNew == t.countNew
      && (forall c: nat :: ChainAt(u, Old(c)) == if c == b then [] else ChainAt(t, Old(c)))
  {
    BucketFloats(t, b);
    MovedShape(Emptied(t, Old(b)), t.chains[Old(b)]);
    forall o ensures o in Migrated(t, b).home.Keys <==> o in t.home.Keys {
    }
  }

  lemma {:induction false} BucketFloats(t: Table, b: nat)
    requires Shape(t) && b < t.countOld
    ensures Old(b) in t.chains && SlotOk(t, Old(b))
    ensures Shape(Emptied(t, Old(b))) && Floating(Emptied(t, Old(b)), t.chains[Old(b)])
  {
    assert IsSlot(t, Old(b)) && SlotOk(t, Old(b));
    EmptiedShape(t, Old(b));
  }

  // ---- a Put whose key still waits in the old table ---------------------------------

  lemma {:induction false} FirstInFront(node: map<Off, Node>, c: seq<Off>, o: Off, k: Key)
    requires o in node
    ensures FirstIn(node, [o] + c, k) == if node[o].key == k then Some(o) else FirstIn(node, c, k)
  {
    assert ([o] + c)[1..] == c;
  }

  ghost function NewChain(t: Table, k: Key): seq<Off>
    requires t.countNew > 0
  {
    ChainAt(t, NewSlot(t, t.hash(k)))
  }

  /** Moving nodes puts them in front of what the new chains already hold: a moved node with
      key k hides every node of that key that was there before. */
  lemma {:induction false} MovedHides(t: Table, rest: seq<Off>, o: Off, k: Key)
    requires Shape(t) && Floating(t, rest) && o in t.node && t.node[o].key == k
    requires o in rest || FirstIn(t.node, NewChain(t, k), k) == Some(o)
    requires forall p :: p in rest && p in t.node && t.node[p].key == k ==> p == o
    ensures FirstIn(t.node, NewChain(Moved(t, rest), k), k) == Some(o)
    decreases |rest|
  {
    if rest != [] {
      MoveFirst(t, rest);
      HideStep(t, rest, k);
      assert forall p :: p in rest <==> p == rest[0] || p in rest[1..];
      MovedHides(MovedOne(t, rest[0]), rest[1..], o, k);
    }
  }

  lemma HideStep(t: Table, rest: seq<Off>, k: Key)
    requires Shape(t) && Floating(t, rest) && rest != []
    ensures var u := MovedOne(t, rest[0]);
      && rest[0] in t.node && u.node == t.node
      && FirstIn(t.node, NewChain(u, k), k) ==
           if t.node[rest[0]].key == k then Some(rest[0]) else FirstIn(t.node, NewChain(t, k), k)
  {
    MoveFirst(t, rest);
    assert rest[0] in rest;
    var s := NewSlot(t, t.node[rest[0]].hash);
    assert IsSlot(t, s);
    FirstInFront(t.node, t.chains[s], rest[0], k);
  }

  /** Put of a key that the new chain does not hold: a fresh node p at the front of it. */
  function PutNew(t: Table, p: Off, nd: Node): (u: Table)
    requires t.countNew > 0
    ensures u.countNew == t.countNew
  {
    MovedOne(t.(node := t.node[p := nd]), p)
  }

  lemma {:induction false} PutNewShape(t: Table, p: Off, nd: Node)
    requires Shape(t) && p != 0 && p !in t.node && nd.hash == t.hash(nd.key)
    ensures var t1 := t.(node := t.node[p := nd]);
      && Shape(t1) && Shape(PutNew(t, p, nd))
      && HasSlots(t1) && PutNew(t, p, nd) == Front(t1, NewSlot(t1, nd.hash), p)
  {
    var t1 := t.(node := t.node[p := nd]);
    assert p !in t.home;
    forall s | IsSlot(t1, s) ensures SlotOk(t1, s) {
      assert SlotOk(t, s);
    }
    MoveFirst(t1, [p]);
  }

  /** A key put while its node o still waits in the old table gets its old value back when
      that bucket is migrated. */
  lemma {:induction false} WaitingKeyGoesStale(t: Table, o: Off, b: nat, p: Off, nd: Node)
    requires Shape(t) && UniqueKeys(t) && b < t.countOld && o in t.home && t.home[o] == Old(b)
    requires p != 0 && p !in t.node && nd.hash == t.hash(nd.key)
    requires o in t.node && nd.key == t.node[o].key
    ensures var put := PutNew(t, p, nd);
      && Find(put, nd.key) == Some(p)
      && Find(Migrated(put, b), nd.key) == Some(o)
  {
    PutNewShape(t, p, nd);
    var put := PutNew(t, p, nd);
    var s := NewSlot(t, nd.hash);
    assert IsSlot(t, s);
    FirstInFront(put.node, t.chains[s], p, nd.key);
    StaleAfterMove(t, o, b, put, nd.key);
  }

  lemma {:induction false} StaleAfterMove(t: Table, o: Off, b: nat, put: Table, k: Key)
    requires Shape(t) && UniqueKeys(t) && b < t.countOld && o in t.home && t.home[o] == Old(b)
    requires Shape(put) && put.countOld == t.countOld && put.countNew == t.countNew && put.hash == t.hash
    requires forall x :: x in t.home ==> x in put.node && x in t.node && put.node[x] == t.node[x]
    requires ChainAt(put, Old(b)) == ChainAt(t, Old(b)) && o in put.node && put.node[o].key == k
    ensures Find(Migrated(put, b), k) == Some(o)
  {
    BucketFloats(t, b);
    BucketFloats(put, b);
    var rest := t.chains[Old(b)];
    forall x | x in rest && x in put.node && put.node[x].key == k ensures x == o {
      assert x in t.home && t.node[x].key == t.node[o].key;
    }
    MovedHides(Emptied(put, Old(b)), rest, o, k);
    MovedShape(Emptied(put, Old(b)), rest);
  }
}
