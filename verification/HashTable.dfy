// The two-table chained layout of server/core/shm/shm_hashmap.cpp, seen as a value: bucket
// heads, next pointers, nodes, and the node sequences the chains stand for.
module HashTable {
  import opened Wrappers
  import opened Chains

  type Byte = bv8
  type Key = seq<Byte>
  type Val = seq<Byte>

  datatype Node = Node(hash: nat, key: Key, val: Val)

  /** The address of a bucket head: in the table being filled or in the one being emptied. */
  datatype Slot = New(b: nat) | Old(b: nat)

  datatype Table = Table(
    hash: Key -> nat,             // HashBytes; no property of it is used
    countOld: nat, countNew: nat,
    heads: map<Slot, Off>, next: map<Off, Off>, node: map<Off, Node>,
    chains: map<Slot, seq<Off>>,  // what the chains run through
    home: map<Off, Slot>)         // the chain each linked node is on

  predicate IsSlot(t: Table, s: Slot) {
    match s
    case New(b) => b < t.countNew
    case Old(b) => b < t.countOld
  }

  /** Bucket counts are powers of two, so `h & (n - 1)` is the remainder of h. */
  function NewSlot(t: Table, h: nat): Slot
    requires t.countNew > 0
  {
    New(h % t.countNew)
  }

  function OldSlot(t: Table, h: nat): Slot
    requires t.countOld > 0
  {
    Old(h % t.countOld)
  }

  /** The node may live on chain s. */
  predicate Fits(t: Table, nd: Node, s: Slot) {
    && nd.hash == t.hash(nd.key)
    && match s
       case New(_) => t.countNew > 0 && s == NewSlot(t, nd.hash)
       case Old(_) => t.countOld > 0 && s == OldSlot(t, nd.hash)
  }

  ghost predicate SlotOk(t: Table, s: Slot) {
    && s in t.heads && s in t.chains
    && ChainTo(t.next, t.heads[s], t.chains[s], 0)
    && Distinct(t.chains[s])
    && (forall o :: o in t.chains[s] <==> o in t.home && t.home[o] == s)
  }

  /** Every chain is well linked, every node is on one chain, once, in the bucket of its hash. */
  ghost predicate Shape(t: Table) {
    && t.countNew > 0
    && (forall s :: s in t.heads ==> IsSlot(t, s))
    && (forall s :: IsSlot(t, s) ==> SlotOk(t, s))
    && HomeOk(t)
  }

  ghost predicate HomeOk(t: Table) {
    forall o :: o in t.home ==> o != 0 && o in t.node && IsSlot(t, t.home[o]) && Fits(t, t.node[o], t.home[o])
  }

  /** No two linked nodes have the same key. */
  ghost predicate UniqueKeys(t: Table) {
    forall o, p :: o in t.home && p in t.home && o in t.node && p in t.node && t.node[o].key == t.node[p].key ==> o == p
  }

  /** m is the finite map the two tables stand for. */
  ghost predicate Means(t: Table, m: map<Key, Val>) {
    && UniqueKeys(t)
    && (forall o :: o in t.home ==> o in t.node && t.node[o].key in m && m[t.node[o].key] == t.node[o].val)
    && (forall k :: k in m ==> Stored(t, k))
  }

  /** All bucket cells are there. */
  ghost predicate HasSlots(t: Table) { t.countNew > 0 && forall s :: IsSlot(t, s) ==> s in t.heads && s in t.chains }

  /** Key k is stored on a chain of the old table. */
  ghost predicate WaitsInOld(t: Table, k: Key) {
    exists o :: o in t.home && o in t.node && t.home[o].Old? && t.node[o].key == k
  }

  ghost predicate Stored(t: Table, k: Key) {
    exists o :: o in t.home && o in t.node && t.node[o].key == k
  }

  /** A chain whose head, next pointers and members are untouched stays as it is. */
  lemma {:induction false} SlotFrame(t: Table, t': Table, r: Slot)
    requires SlotOk(t, r) && r in t'.heads && r in t'.chains
    requires t'.heads[r] == t.heads[r] && t'.chains[r] == t.chains[r]
    requires forall o :: o in t.home && t.home[o] == r <==> o in t'.home && t'.home[o] == r
    requires forall o :: o in t.home && t.home[o] == r && o in t.next ==> o in t'.next && t'.next[o] == t.next[o]
    ensures SlotOk(t', r)
  {
    ChainFrame(t.next, t'.next, t.heads[r], t.chains[r], 0);
  }

  // ---- edits of one chain -----------------------------------------------------------

  /** A node becomes the head of chain s. */
  function Front(t: Table, s: Slot, o: Off): Table
    requires s in t.heads && s in t.chains
  {
    t.(next := t.next[o := t.heads[s]], heads := t.heads[s := o],
       chains := t.chains[s := [o] + t.chains[s]], home := t.home[o := s])
  }

  lemma {:induction false} FrontShape(t: Table, s: Slot, o: Off)
    requires Shape(t) && IsSlot(t, s)
    requires o != 0 && o !in t.home && o in t.node && Fits(t, t.node[o], s)
    ensures s in t.heads && s in t.chains && Shape(Front(t, s, o))
  {
    assert SlotOk(t, s);
    var t' := Front(t, s, o);
    FrontSlot(t, s, o);
    forall r | IsSlot(t, r) ensures SlotOk(t', r) {
      assert SlotOk(t, r);
      if r != s {
        SlotFrame(t, t', r);
      }
    }
  }

  lemma {:induction false} FrontSlot(t: Table, s: Slot, o: Off)
    requires SlotOk(t, s) && o != 0 && o !in t.home
    ensures SlotOk(Front(t, s, o), s)
  {
    var t' := Front(t, s, o);
    ChainFrame(t.next, t'.next, t.heads[s], t.chains[s], 0);
    assert t'.chains[s][1..] == t.chains[s];
    assert forall i :: 0 <= i < |t.chains[s]| ==> t.chains[s][i] in t.chains[s];
  }

  /** Between operations the predecessor on its chain, or the bucket head, is the only pointer
      to a node: the one EraseFromList and Put redirect is the only one a reader can follow. */
  lemma {:induction false} SolePointer(t: Table, s: Slot, i: nat)
    requires Shape(t) && IsSlot(t, s) && s in t.chains && i < |t.chains[s]|
    ensures forall r :: IsSlot(t, r) && r in t.heads && t.heads[r] == t.chains[s][i] ==> r == s && i == 0
    ensures forall p :: p in t.home && p in t.next && t.next[p] == t.chains[s][i] ==> i > 0 && p == t.chains[s][i - 1]
  {
    var o := t.chains[s][i];
    assert SlotOk(t, s) && o in t.chains[s] && t.home[o] == s && o != 0;
    forall r | IsSlot(t, r) && r in t.heads && t.heads[r] == o ensures r == s && i == 0 {
      HeadOnChain(t, r);
    }
    forall p | p in t.home && p in t.next && t.next[p] == o ensures i > 0 && p == t.chains[s][i - 1] {
      var r := t.home[p];
      assert SlotOk(t, r);
      var j :| 0 <= j < |t.chains[r]| && t.chains[r][j] == p;
      NextOnChain(t, r, j);
      assert t.chains[r][j + 1] in t.chains[r];
    }
  }

  lemma HeadOnChain(t: Table, r: Slot)
    requires SlotOk(t, r) && t.heads[r] != 0
    ensures t.chains[r] != [] && t.heads[r] == t.chains[r][0] && t.heads[r] in t.home && t.home[t.heads[r]] == r
  {
    if t.chains[r] != [] {
      assert t.chains[r][0] in t.chains[r];
    }
  }

  lemma NextOnChain(t: Table, r: Slot, j: nat)
    requires SlotOk(t, r) && j < |t.chains[r]| && t.chains[r][j] in t.next && t.next[t.chains[r][j]] != 0
    ensures j + 1 < |t.chains[r]| && t.next[t.chains[r][j]] == t.chains[r][j + 1]
  {
    var c := t.chains[r];
    ChainSplit(t.next, t.heads[r], c, 0, j);
    assert c[j + 1..] == [] || c[j + 1..][0] == c[j + 1];
  }

  /** The pointer to the i-th member of chain s. */
  function Without(t: Table, s: Slot, i: nat): Table
    requires s in t.heads && s in t.chains && i < |t.chains[s]| && t.chains[s][i] in t.next
  {
    var c := t.chains[s];
    var nxt := t.next[c[i]];
    var u := if i == 0 then t.(heads := t.heads[s := nxt]) else t.(next := t.next[c[i - 1] := nxt]);
    u.(chains := u.chains[s := c[..i] + c[i + 1..]], home := u.home - {c[i]})
  }

  lemma {:induction false} ChainWithout(nx: map<Off, Off>, head: Off, c: seq<Off>, i: nat)
    requires i < |c| && Distinct(c) && ChainTo(nx, head, c, 0)
    ensures c[i] in nx
    ensures i == 0 ==> ChainTo(nx, nx[c[0]], c[1..], 0)
    ensures i > 0 ==> ChainTo(nx[c[i - 1] := nx[c[i]]], head, c[..i] + c[i + 1..], 0)
  {
    ChainSplit(nx, head, c, 0, i);
    if i > 0 {
      var pre, nxt := c[..i], nx[c[i]];
      var nx' := nx[c[i - 1] := nxt];
      assert pre[|pre| - 1] == c[i - 1];
      ChainRedirect(nx, head, pre, c[i], nxt);
      var post := c[i + 1..];
      forall o | o in post ensures o != c[i - 1] {
        var j :| i + 1 <= j < |c| && c[j] == o;
      }
      ChainFrame(nx, nx', nxt, post, 0);
      ChainConcat(nx', head, pre, nxt, post, 0);
    }
  }

  lemma DistinctWithout(c: seq<Off>, i: nat)
    requires i < |c| && Distinct(c)
    ensures Distinct(c[..i] + c[i + 1..])
    ensures forall o :: o in c[..i] + c[i + 1..] <==> o in c && o != c[i]
  {
    var d := c[..i] + c[i + 1..];
    assert forall j :: 0 <= j < |d| ==> d[j] == if j < i then c[j] else c[j + 1];
    forall o | o in c && o != c[i] ensures o in d {
      var j :| 0 <= j < |c| && c[j] == o;
      assert d[if j < i then j else j - 1] == o;
    }
  }

  lemma {:induction false} WithoutShape(t: Table, s: Slot, i: nat)
    requires Shape(t) && IsSlot(t, s) && s in t.chains && i < |t.chains[s]|
    ensures s in t.heads && t.chains[s][i] in t.next && t.chains[s][i] in t.home && Shape(Without(t, s, i))
  {
    assert SlotOk(t, s);
    WithoutSlot(t, s, i);
    var c := t.chains[s];
    assert c[i] in c && (i > 0 ==> c[i - 1] in c);
    forall r | IsSlot(t, r) ensures SlotOk(Without(t, s, i), r) {
      assert SlotOk(t, r);
      if r != s {
        SlotFrame(t, Without(t, s, i), r);
      }
    }
  }

  lemma {:induction false} WithoutSlot(t: Table, s: Slot, i: nat)
    requires SlotOk(t, s) && i < |t.chains[s]|
    ensures t.chains[s][i] in t.next && SlotOk(Without(t, s, i), s)
  {
    var c := t.chains[s];
    ChainWithout(t.next, t.heads[s], c, i);
    DistinctWithout(c, i);
    assert i == 0 ==> c[..i] + c[i + 1..] == c[1..];
  }

  /** Node m takes the place of the i-th member of chain s. */
  function Swapped(t: Table, s: Slot, i: nat, m: Off): Table
    requires s in t.heads && s in t.chains && i < |t.chains[s]| && t.chains[s][i] in t.next
  {
    var c := t.chains[s];
    var u := t.(next := t.next[m := t.next[c[i]]]);
    var v := if i == 0 then u.(heads := u.heads[s := m]) else u.(next := u.next[c[i - 1] := m]);
    v.(chains := v.chains[s := c[..i] + [m] + c[i + 1..]], home := (v.home - {c[i]})[m := s])
  }

  lemma {:induction false} ChainSwapped(nx: map<Off, Off>, head: Off, c: seq<Off>, i: nat, m: Off)
    requires i < |c| && Distinct(c) && ChainTo(nx, head, c, 0) && m !in c
    ensures c[i] in nx
    ensures var nx' := nx[m := nx[c[i]]];
      && (i == 0 ==> ChainTo(nx', m, [m] + c[1..], 0))
      && (i > 0 ==> ChainTo(nx'[c[i - 1] := m], head, c[..i] + ([m] + c[i + 1..]), 0))
  {
    ChainSplit(nx, head, c, 0, i);
    var nxt := nx[c[i]];
    var nx1 := nx[m := nxt];
    var post := c[i + 1..];
    assert forall o :: o in post ==> o in c;
    ChainFrame(nx, nx1, nxt, post, 0);
    assert ([m] + post)[1..] == post;
    assert ChainTo(nx1, m, [m] + post, 0);
    if i > 0 {
      var pre := c[..i];
      var nx2 := nx1[c[i - 1] := m];
      assert pre[|pre| - 1] == c[i - 1];
      assert forall o :: o in pre ==> o in c;
      ChainFrame(nx, nx1, head, pre, c[i]);
      ChainRedirect(nx1, head, pre, c[i], m);
      forall o | o in [m] + post ensures o != c[i - 1] {
        if o in post {
          var j :| i + 1 <= j < |c| && c[j] == o;
        } else {
          assert c[i - 1] in c;
        }
      }
      ChainFrame(nx1, nx2, m, [m] + post, 0);
      ChainConcat(nx2, head, pre, m, [m] + post, 0);
    }
  }

  lemma DistinctSwapped(c: seq<Off>, i: nat, m: Off)
    requires i < |c| && Distinct(c) && m !in c
    ensures Distinct(c[..i] + [m] + c[i + 1..])
    ensures forall o :: o in c[..i] + [m] + c[i + 1..] <==> o == m || (o in c && o != c[i])
  {
    var d := c[..i] + [m] + c[i + 1..];
    assert d == c[i := m];
    forall o | o in c && o != c[i] ensures o in d {
      var j :| 0 <= j < |c| && c[j] == o;
      assert d[j] == o;
    }
    assert d[i] == m;
    forall o | o in d && o != m ensures o in c && o != c[i] {
      var j :| 0 <= j < |d| && d[j] == o;
      assert c[j] == o && j != i;
    }
  }

  lemma {:induction false} SwappedShape(t: Table, s: Slot, i: nat, m: Off)
    requires Shape(t) && IsSlot(t, s) && s in t.chains && i < |t.chains[s]|
    requires m != 0 && m !in t.home && m in t.node && Fits(t, t.node[m], s)
    ensures s in t.heads && t.chains[s][i] in t.next && t.chains[s][i] in t.home && Shape(Swapped(t, s, i, m))
  {
    assert SlotOk(t, s);
    assert m !in t.chains[s];
    SwappedSlot(t, s, i, m);
    assert t.chains[s][i] in t.chains[s];
    forall r | IsSlot(t, r) && r != s ensures SlotOk(Swapped(t, s, i, m), r) {
      assert SlotOk(t, r);
      SwappedElsewhere(t, s, i, m, r);
    }
  }

  lemma SwappedElsewhere(t: Table, s: Slot, i: nat, m: Off, r: Slot)
    requires SlotOk(t, s) && SlotOk(t, r) && r != s && i < |t.chains[s]| && m !in t.home
    requires t.chains[s][i] in t.next
    ensures SlotOk(Swapped(t, s, i, m), r)
  {
    var c := t.chains[s];
    assert c[i] in c && (i > 0 ==> c[i - 1] in c);
    SlotFrame(t, Swapped(t, s, i, m), r);
  }

  lemma {:induction false} SwappedSlot(t: Table, s: Slot, i: nat, m: Off)
    requires SlotOk(t, s) && i < |t.chains[s]| && m !in t.chains[s]
    ensures t.chains[s][i] in t.next && SlotOk(Swapped(t, s, i, m), s)
  {
    var c := t.chains[s];
    var d := c[..i] + [m] + c[i + 1..];
    ChainSwapped(t.next, t.heads[s], c, i, m);
    DistinctSwapped(c, i, m);
    if i == 0 {
      assert d == [m] + c[1..];
    } else {
      assert d == c[..i] + ([m] + c[i + 1..]);
    }
  }

  /** Bucket s is emptied; its nodes are linked nowhere for the moment. */
  function Emptied(t: Table, s: Slot): Table
    requires s in t.chains
  {
    t.(heads := t.heads[s := 0], chains := t.chains[s := []],
       home := map o | o in t.home && t.home[o] != s :: t.home[o])
  }

  lemma {:induction false} EmptiedShape(t: Table, s: Slot)
    requires Shape(t) && IsSlot(t, s)
    ensures s in t.chains && Shape(Emptied(t, s))
  {
    assert SlotOk(t, s);
    var t' := Emptied(t, s);
    forall r | IsSlot(t, r) ensures SlotOk(t', r) {
      assert SlotOk(t, r);
    }
  }
}
