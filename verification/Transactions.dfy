// Transactions bound to pooled connections (server/dbproxy/TransactionManager.cpp).  A region
// under the manager's mutex is one step; acquiring a connection, BEGIN, COMMIT and ROLLBACK
// happen outside it.  Connections are shared pointers: a copy may outlive the transaction, and
// the pool gets a connection back when its last owner lets go.
module Transactions {
  import opened Wrappers

  type Conn = nat
  type TxId = nat
  type Tid = nat

  datatype Ctx = Ctx(conn: Conn, deadline: int)

  datatype Pc =
    | Idle
    | Acquired(conn: Conn)                                 // begin: BEGIN is being sent
    | HasId(conn: Conn, id: TxId)                          // begin: id drawn, not in active_txs_ yet
    | Using(conn: Conn)                                    // a copy from getConnection
    | Finishing(conn: Conn, id: TxId)                      // finalize: taken out, COMMIT or ROLLBACK
    | Expiring(todo: seq<TxId>)                            // checkTimeouts: ids still to roll back
    | RollingBack(conn: Conn, id: TxId, todo: seq<TxId>)

  datatype State = State(
    active: map<TxId, Ctx>,
    gen: nat,                // tx_id_gen_
    pcs: seq<Pc>,
    lent: set<Conn>,         // connections the pool has lent to the manager
    begun: seq<TxId>,        // auxiliary: ids in the order their transactions went live
    ended: seq<TxId>)        // auxiliary: ids in the order they were finalized

  function Has(pc: Pc): Option<Conn> {
    match pc
    case Idle => None
    case Expiring(_) => None
    case _ => Some(pc.conn)
  }

  ghost predicate InTx(s: State, c: Conn) { exists id :: id in s.active && s.active[id].conn == c }

  ghost predicate InHand(s: State, c: Conn) { exists t :: 0 <= t < |s.pcs| && Has(s.pcs[t]) == Some(c) }

  /** Somebody still owns a pointer to c. */
  ghost predicate Owned(s: State, c: Conn) { InTx(s, c) || InHand(s, c) }

  // ---- steps --------------------------------------------------------------------------

  datatype Action =
    | Acquire(t: Tid, c: Conn)        // the pool lends a connection nobody has
    | DrawId(t: Tid)
    | Emplace(t: Tid, deadline: int)
    | Get(t: Tid, id: TxId, now: int)
    | Finalize(t: Tid, id: TxId)      // commit or rollback by a client
    | Scan(t: Tid, now: int, todo: seq<TxId>)
    | ExpireNext(t: Tid)
    | ScanDone(t: Tid)
    | LetGo(t: Tid)                   // the thread's shared pointer dies

  ghost predicate Distinct(list: seq<TxId>) {
    forall i, j :: 0 <= i < j < |list| ==> list[i] != list[j]
  }

  ghost predicate Enabled(s: State, a: Action) {
    && a.t < |s.pcs|
    && match a
       case Acquire(t, c) => s.pcs[t].Idle? && c !in s.lent
       case DrawId(t) => s.pcs[t].Acquired?
       case Emplace(t, _) => s.pcs[t].HasId?
       case Get(t, id, now) => s.pcs[t].Idle? && id in s.active && now <= s.active[id].deadline
       case Finalize(t, id) => s.pcs[t].Idle? && id in s.active
       case Scan(t, now, todo) =>
         s.pcs[t].Idle? && Distinct(todo) && forall id :: id in todo <==> id in s.active && now > s.active[id].deadline
       case ExpireNext(t) => s.pcs[t].Expiring? && s.pcs[t].todo != []
       case ScanDone(t) => s.pcs[t] == Expiring([])
       case LetGo(t) => Has(s.pcs[t]).Some? && !s.pcs[t].HasId?
  }

  function Rest(pc: Pc): Pc { if pc.RollingBack? then Expiring(pc.todo) else Idle }

  ghost function Apply(s: State, a: Action): State
    requires Enabled(s, a)
  {
    match a
    case Acquire(t, c) => s.(pcs := s.pcs[t := Acquired(c)], lent := s.lent + {c})
    case DrawId(t) => s.(pcs := s.pcs[t := HasId(s.pcs[t].conn, s.gen)], gen := s.gen + 1)
    case Emplace(t, deadline) =>
      var id := s.pcs[t].id;
      s.(pcs := s.pcs[t := Idle], active := s.active[id := Ctx(s.pcs[t].conn, deadline)], begun := s.begun + [id])
    case Get(t, id, _) => s.(pcs := s.pcs[t := Using(s.active[id].conn)])
    case Finalize(t, id) =>
      s.(pcs := s.pcs[t := Finishing(s.active[id].conn, id)], active := s.active - {id}, ended := s.ended + [id])
    case Scan(t, _, todo) => s.(pcs := s.pcs[t := Expiring(todo)])
    case ExpireNext(t) =>
      var id, rest := s.pcs[t].todo[0], s.pcs[t].todo[1..];
      if id in s.active then
        s.(pcs := s.pcs[t := RollingBack(s.active[id].conn, id, rest)], active := s.active - {id}, ended := s.ended + [id])
      else s.(pcs := s.pcs[t := Expiring(rest)])
    case ScanDone(t) => s.(pcs := s.pcs[t := Idle])
    case LetGo(t) =>
      var s' := s.(pcs := s.pcs[t := Rest(s.pcs[t])]);
      var c := Has(s.pcs[t]).value;
      if Owned(s', c) then s' else s'.(lent := s.lent - {c})
  }

  ghost predicate Legal(s: State, acts: seq<Action>)
    decreases |acts|
  {
    acts == [] || (Enabled(s, acts[0]) && Legal(Apply(s, acts[0]), acts[1..]))
  }

  ghost function Final(s: State, acts: seq<Action>): State
    requires Legal(s, acts)
    decreases |acts|
  {
    if acts == [] then s else Final(Apply(s, acts[0]), acts[1..])
  }

  predicate Initial(s: State) {
    && s.active == map[] && s.gen == 1 && s.lent == {} && s.begun == [] && s.ended == []
    && forall t :: 0 <= t < |s.pcs| ==> s.pcs[t] == Idle
  }

  // ---- invariant ----------------------------------------------------------------------

  /** Live transactions have distinct ids and distinct connections. */
  ghost predicate Live(s: State) {
    && (forall id :: id in s.active ==> 1 <= id < s.gen)
    && (forall i, j :: i in s.active && j in s.active && s.active[i].conn == s.active[j].conn ==> i == j)
  }

  /** The pool has lent exactly what somebody owns. */
  ghost predicate LentIsOwned(s: State) {
    && (forall id :: id in s.active ==> s.active[id].conn in s.lent)
    && (forall t :: 0 <= t < |s.pcs| && Has(s.pcs[t]).Some? ==> Has(s.pcs[t]).value in s.lent)
    && (forall c :: c in s.lent ==> Owned(s, c))
  }

  predicate Beginning(pc: Pc) { pc.Acquired? || pc.HasId? }

  predicate Ending(pc: Pc) { pc.Finishing? || pc.RollingBack? }

  /** A connection on its way into a transaction has one owner; one on its way out is in no
      transaction and no other thread is ending it. */
  ghost predicate Exclusive(s: State) {
    && (forall t, u :: 0 <= t < |s.pcs| && 0 <= u < |s.pcs| && t != u && Beginning(s.pcs[t]) ==> Has(s.pcs[u]) != Has(s.pcs[t]))
    && (forall t, id :: 0 <= t < |s.pcs| && id in s.active && (Beginning(s.pcs[t]) || Ending(s.pcs[t])) ==>
          s.active[id].conn != s.pcs[t].conn)
    && (forall t, u :: 0 <= t < |s.pcs| && 0 <= u < |s.pcs| && t != u && Ending(s.pcs[t]) && Ending(s.pcs[u]) ==>
          s.pcs[t].conn != s.pcs[u].conn)
  }

  /** Every id goes live at most once and ends at most once, after it has gone live. */
  ghost predicate Ids(s: State) {
    && s.gen >= 1
    && Distinct(s.begun) && Distinct(s.ended)
    && (forall id :: id in s.begun ==> 1 <= id < s.gen)
    && (forall id :: id in s.begun <==> id in s.active || id in s.ended)
    && (forall id :: id in s.active ==> id !in s.ended)
    && (forall t :: 0 <= t < |s.pcs| && s.pcs[t].HasId? ==> 1 <= s.pcs[t].id < s.gen && s.pcs[t].id !in s.begun)
    && (forall t, u :: 0 <= t < |s.pcs| && 0 <= u < |s.pcs| && t != u && s.pcs[t].HasId? && s.pcs[u].HasId? ==>
          s.pcs[t].id != s.pcs[u].id)
  }

  ghost predicate Inv(s: State) { Live(s) && LentIsOwned(s) && Exclusive(s) && Ids(s) }

  lemma InitInv(s: State)
    requires Initial(s)
    ensures Inv(s)
  {
  }

  lemma DistinctSnoc(list: seq<TxId>, id: TxId)
    requires Distinct(list) && id !in list
    ensures Distinct(list + [id]) && forall x :: x in list + [id] <==> x in list || x == id
  {
    forall i, j | 0 <= i < j < |list + [id]| ensures (list + [id])[i] != (list + [id])[j] {
      assert list[i] in list;
    }
  }

  // ---- one lemma per part of the invariant ---------------------------------------------

  lemma FreshId(s: State, t: Tid)
    requires Ids(s) && t < |s.pcs| && s.pcs[t].HasId?
    ensures s.pcs[t].id !in s.active && s.pcs[t].id !in s.begun && s.pcs[t].id !in s.ended
  {
  }

  /** Steps that draw no id and move no transaction. */
  predicate Quiet(a: Action) { a.Acquire? || a.Get? || a.Scan? || a.ScanDone? || a.LetGo? }

  lemma QuietIds(s: State, a: Action)
    requires Ids(s) && Live(s) && Enabled(s, a) && Quiet(a)
    ensures Ids(Apply(s, a)) && Live(Apply(s, a))
  {
    hide Owned, Distinct;
  }

  lemma DrawIds(s: State, t: Tid)
    requires Ids(s) && Live(s) && Enabled(s, DrawId(t))
    ensures Ids(Apply(s, DrawId(t))) && Live(Apply(s, DrawId(t)))
  {
    hide Owned, Distinct;
  }

  lemma EmplaceIds(s: State, t: Tid, deadline: int)
    requires Inv(s) && Enabled(s, Emplace(t, deadline))
    ensures Ids(Apply(s, Emplace(t, deadline))) && Live(Apply(s, Emplace(t, deadline)))
  {
    hide Owned, LentIsOwned;
    DistinctSnoc(s.begun, s.pcs[t].id);
  }

  /** Both ways of ending a transaction. */
  lemma EndIds(s: State, s': State, t: Tid, id: TxId)
    requires Ids(s) && Live(s) && t < |s.pcs| && id in s.active && !s.pcs[t].HasId?
    requires s'.active == s.active - {id} && s'.ended == s.ended + [id] && s'.begun == s.begun && s'.gen == s.gen
    requires |s'.pcs| == |s.pcs| && !s'.pcs[t].HasId?
    requires forall u :: 0 <= u < |s.pcs| && u != t ==> s'.pcs[u] == s.pcs[u]
    ensures Ids(s') && Live(s')
  {
    DistinctSnoc(s.ended, id);
  }

  lemma StepIds(s: State, a: Action)
    requires Inv(s) && Enabled(s, a)
    ensures Ids(Apply(s, a)) && Live(Apply(s, a))
  {
    hide LentIsOwned, Ids, Live, Exclusive, Owned, Distinct;
    match a
    case DrawId(t) => DrawIds(s, t);
    case Emplace(t, deadline) => EmplaceIds(s, t, deadline);
    case Finalize(t, id) => EndIds(s, Apply(s, a), t, id);
    case ExpireNext(t) =>
      if s.pcs[t].todo[0] in s.active {
        EndIds(s, Apply(s, a), t, s.pcs[t].todo[0]);
      } else {
        SkipIds(s, Apply(s, a), t);
      }
    case _ => QuietIds(s, a);
  }

  lemma SkipIds(s: State, s': State, t: Tid)
    requires Ids(s) && Live(s) && t < |s.pcs| == |s'.pcs| && s'.pcs == s.pcs[t := s'.pcs[t]] && !s'.pcs[t].HasId?
    requires s'.active == s.active && s'.ended == s.ended && s'.begun == s.begun && s'.gen == s.gen
    ensures Ids(s') && Live(s')
  {
    hide Distinct;
  }

  lemma AcquireExclusive(s: State, t: Tid, c: Conn)
    requires Exclusive(s) && LentIsOwned(s) && Enabled(s, Acquire(t, c))
    ensures Exclusive(Apply(s, Acquire(t, c)))
  {
    hide Owned, Distinct;
  }

  lemma GetExclusive(s: State, t: Tid, id: TxId, now: int)
    requires Exclusive(s) && Enabled(s, Get(t, id, now))
    ensures Exclusive(Apply(s, Get(t, id, now)))
  {
    hide Owned, Distinct;
  }

  /** The thread keeps its connection or lets go of it. */
  lemma SameHandExclusive(s: State, s': State, t: Tid)
    requires Exclusive(s) && t < |s.pcs| == |s'.pcs| && s'.pcs == s.pcs[t := s'.pcs[t]] && s'.active == s.active
    requires Has(s'.pcs[t]) == None || Has(s'.pcs[t]) == Has(s.pcs[t])
    requires !Ending(s'.pcs[t]) && (Beginning(s'.pcs[t]) ==> Beginning(s.pcs[t]))
    ensures Exclusive(s')
  {
  }

  lemma EmplaceExclusive(s: State, t: Tid, deadline: int)
    requires Exclusive(s) && Live(s) && Enabled(s, Emplace(t, deadline))
    ensures Exclusive(Apply(s, Emplace(t, deadline)))
  {
    hide Owned, Distinct;
  }

  /** The connection of a transaction that ends was in no beginning or ending thread's hand. */
  lemma EndExclusive(s: State, s': State, t: Tid, id: TxId)
    requires Exclusive(s) && Live(s) && t < |s.pcs| && id in s.active && Has(s.pcs[t]) == None
    requires s'.active == s.active - {id} && |s'.pcs| == |s.pcs|
    requires Ending(s'.pcs[t]) && s'.pcs[t].conn == s.active[id].conn
    requires forall u :: 0 <= u < |s.pcs| && u != t ==> s'.pcs[u] == s.pcs[u]
    ensures Exclusive(s')
  {
  }

  lemma StepExclusive(s: State, a: Action)
    requires Inv(s) && Enabled(s, a)
    ensures Exclusive(Apply(s, a))
  {
    hide Ids, Live, LentIsOwned, Exclusive, Owned, Distinct;
    match a
    case Emplace(t, deadline) => EmplaceExclusive(s, t, deadline);
    case Finalize(t, id) => EndExclusive(s, Apply(s, a), t, id);
    case ExpireNext(t) =>
      if s.pcs[t].todo[0] in s.active {
        EndExclusive(s, Apply(s, a), t, s.pcs[t].todo[0]);
      } else {
        SameHandExclusive(s, Apply(s, a), t);
      }
    case Acquire(t, c) => AcquireExclusive(s, t, c);
    case Get(t, id, now) => GetExclusive(s, t, id, now);
    case _ => SameHandExclusive(s, Apply(s, a), a.t);
  }

  lemma StepLent(s: State, a: Action)
    requires Inv(s) && Enabled(s, a)
    ensures LentIsOwned(Apply(s, a))
  {
    hide Ids, Distinct, Live, Exclusive;
    var s' := Apply(s, a);
    forall c | c in s'.lent ensures Owned(s', c) {
      StillOwned(s, a, c);
    }
  }

  lemma StillOwned(s: State, a: Action, c: Conn)
    requires Inv(s) && Enabled(s, a) && c in Apply(s, a).lent
    ensures Owned(Apply(s, a), c)
  {
    hide Ids, Distinct, Live, Exclusive;
    var s' := Apply(s, a);
    if a.Emplace? {
      FreshId(s, a.t);
    }
    if c in s.lent {
      assert Owned(s, c);
      if InTx(s, c) {
        var id :| id in s.active && s.active[id].conn == c;
        if id in s'.active {
          assert InTx(s', c);
        } else {
          assert Has(s'.pcs[a.t]) == Some(c);
        }
      } else {
        var t :| 0 <= t < |s.pcs| && Has(s.pcs[t]) == Some(c);
        if t != a.t || Has(s'.pcs[t]) == Some(c) {
          assert Has(s'.pcs[t]) == Some(c);
        } else if a.Emplace? {
          assert s'.active[s.pcs[t].id].conn == c;
        }
      }
    } else {
      assert Has(s'.pcs[a.t]) == Some(c);
    }
  }

  lemma {:induction false} StepInv(s: State, a: Action)
    requires Inv(s) && Enabled(s, a)
    ensures Inv(Apply(s, a))
  {
    hide Enabled, Apply, Ids, Live, Exclusive, LentIsOwned;
    StepIds(s, a);
    StepExclusive(s, a);
    StepLent(s, a);
  }

  lemma {:induction false} RunInv(s: State, acts: seq<Action>)
    requires Inv(s) && Legal(s, acts)
    ensures Inv(Final(s, acts))
    decreases |acts|
  {
    hide Enabled, Apply, Inv;
    if acts != [] {
      StepInv(s, acts[0]);
      RunInv(Apply(s, acts[0]), acts[1..]);
    }
  }

  // ---- under every interleaving --------------------------------------------------------

  lemma {:induction false} TransactionsSafe(s: State, acts: seq<Action>)
    requires Initial(s) && Legal(s, acts)
    ensures var z := Final(s, acts);
      && (forall id :: id in z.active ==> z.active[id].conn in z.lent)
      && (forall i, j :: i in z.active && j in z.active && i != j ==> z.active[i].conn != z.active[j].conn)
      && Distinct(z.begun) && Distinct(z.ended)
      && (forall id :: id in z.begun <==> id in z.active || id in z.ended)
      && (forall id :: id in z.ended ==> id !in z.active) && 0 !in z.begun
  {
    hide Legal, Final;
    InitInv(s);
    RunInv(s, acts);
  }

  /** A connection goes back to the pool only when no transaction has it, before or after. */
  lemma ReturnedAfterLeaving(s: State, a: Action, c: Conn)
    requires Inv(s) && Enabled(s, a) && c in s.lent && c !in Apply(s, a).lent
    ensures a.LetGo? && !InTx(s, c) && !InHand(Apply(s, a), c)
  {
    hide Inv;
    assert a.LetGo?;
    var s' := s.(pcs := s.pcs[a.t := Rest(s.pcs[a.t])]);
    assert !Owned(s', c);
    assert InTx(s, c) ==> InTx(s', c);
  }

  /** A thread works with a copy of c that getConnection gave it. */
  ghost predicate InUse(s: State, c: Conn) { exists u :: 0 <= u < |s.pcs| && s.pcs[u] == Using(c) }

  /** A transaction ends while a copy of its connection is in use exactly when some thread was
      using it before; exactly then the pool does not get the connection back when the thread
      that ended the transaction lets go of it. */
  lemma {:induction false} CopyOutlivesIff(s: State, a: Action)
    requires Inv(s) && Enabled(s, a) && Ending(Apply(s, a).pcs[a.t]) && !Ending(s.pcs[a.t])
    ensures var s', c := Apply(s, a), Apply(s, a).pcs[a.t].conn;
      && InTx(s, c) && !InTx(s', c) && c in s'.lent && (InUse(s', c) <==> InUse(s, c))
      && Enabled(s', LetGo(a.t)) && (c in Apply(s', LetGo(a.t)).lent <==> InUse(s, c))
  {
    hide Inv, InTx, InUse, Owned;
    var s' := Apply(s, a);
    Ended(s, a);
    StepInv(s, a);
    LastPointer(s', a.t);
  }

  lemma Ended(s: State, a: Action)
    requires Inv(s) && Enabled(s, a) && Ending(Apply(s, a).pcs[a.t]) && !Ending(s.pcs[a.t])
    ensures var s', c := Apply(s, a), Apply(s, a).pcs[a.t].conn;
      InTx(s, c) && !InTx(s', c) && (InUse(s', c) <==> InUse(s, c))
  {
    hide Ids, Distinct, Exclusive, LentIsOwned, Owned;
    var t, s' := a.t, Apply(s, a);
    var c := s'.pcs[t].conn;
    var id := if a.Finalize? then a.id else s.pcs[t].todo[0];
    assert id in s.active && s.active[id].conn == c && s'.active == s.active - {id};
    assert s'.pcs == s.pcs[t := s'.pcs[t]];
    if u :| 0 <= u < |s.pcs| && s.pcs[u] == Using(c) {
      assert s'.pcs[u] == Using(c);
    }
  }

  /** What the thread that ended a transaction has is kept from the pool by copies alone. */
  lemma LastPointer(s: State, t: Tid)
    requires Inv(s) && t < |s.pcs| && Ending(s.pcs[t])
    ensures var c := s.pcs[t].conn;
      c in s.lent && Enabled(s, LetGo(t)) && (c in Apply(s, LetGo(t)).lent <==> InUse(s, c))
  {
    hide Ids, Distinct;
    var c := s.pcs[t].conn;
    assert Has(s.pcs[t]) == Some(c);
    var z := s.(pcs := s.pcs[t := Rest(s.pcs[t])]);
    if InHand(z, c) {
      var u :| 0 <= u < |z.pcs| && Has(z.pcs[u]) == Some(c);
      assert u != t && s.pcs[u] == Using(c);
    }
    if InUse(s, c) {
      var u :| 0 <= u < |s.pcs| && s.pcs[u] == Using(c);
      assert Has(z.pcs[u]) == Some(c);
    }
    assert !InTx(z, c);
  }

  /** A finished transaction's connection can still be in use: getConnection's copy keeps it
      from the pool, not from the commit. */
  lemma CopyOutlivesCommit(c: Conn) returns (s: State, acts: seq<Action>)
    ensures Initial(s) && Legal(s, acts)
    ensures Final(s, acts) == State(map[], 2, [Finishing(c, 1), Using(c)], {c}, [1], [1])
  {
    s := State(map[], 1, [Idle, Idle], {}, [], []);
    var a := [Acquire(0, c), DrawId(0), Emplace(0, 5), Get(1, 1, 0), Finalize(0, 1)];
    var s1 := Apply(s, a[0]);
    var s2 := Apply(s1, a[1]);
    var s3 := Apply(s2, a[2]);
    var s4 := Apply(s3, a[3]);
    var s5 := Apply(s4, a[4]);
    assert s5 == State(map[], 2, [Finishing(c, 1), Using(c)], {c}, [1], [1]);
    RunOne(s4, a[4..]);
    RunOne(s3, a[3..]);
    RunOne(s2, a[2..]);
    RunOne(s1, a[1..]);
    RunOne(s, a);
    assert a[1..][1..] == a[2..] && a[2..][1..] == a[3..] && a[3..][1..] == a[4..] && a[4..][1..] == [];
    acts := a;
  }

  lemma RunOne(s: State, acts: seq<Action>)
    requires acts != [] && Enabled(s, acts[0]) && Legal(Apply(s, acts[0]), acts[1..])
    ensures Legal(s, acts) && Final(s, acts) == Final(Apply(s, acts[0]), acts[1..])
  {
  }

  // ---- the class ----------------------------------------------------------------------

  lemma NotYet(list: seq<TxId>, i: nat)
    requires Distinct(list) && i < |list|
    ensures list[i] in list && list[i] !in list[..i]
  {
  }

  function IdSet(list: seq<TxId>): set<TxId> { set id | id in list }

  /** Between s0 and s thread t has ended the first i of its late transactions. */
  ghost predicate Apart(s0: State, s: State, t: Tid, expired: seq<TxId>, i: nat)
    requires i <= |expired|
  {
    && t < |s0.pcs| && s.pcs == s0.pcs[t := Expiring(expired[i..])] && s.begun == s0.begun
    && s.active == s0.active - IdSet(expired[..i]) && s.ended == s0.ended + expired[..i] && s.lent <= s0.lent
    && forall id :: id in expired ==> id in s0.active
  }

  lemma ScanMeans(s: State, t: Tid, now: int, expired: seq<TxId>)
    requires Enabled(s, Scan(t, now, expired))
    ensures Apart(s, Apply(s, Scan(t, now, expired)), t, expired, 0) && Distinct(expired)
    ensures Apply(s, Scan(t, now, expired)).gen == s.gen
    ensures forall id :: id in expired <==> id in s.active && now > s.active[id].deadline
  {
    assert expired[0..] == expired && s.active - IdSet(expired[..0]) == s.active;
  }

  lemma ExpireTurn(s0: State, s: State, t: Tid, expired: seq<TxId>, i: nat)
    requires i < |expired| && expired[i] !in expired[..i] && Apart(s0, s, t, expired, i)
    ensures t < |s.pcs| && s.pcs[t].Expiring? && s.pcs[t].todo != [] && s.pcs[t].todo[0] == expired[i]
    ensures Enabled(s, ExpireNext(t)) && Enabled(Apply(s, ExpireNext(t)), LetGo(t))
    ensures Apart(s0, Apply(Apply(s, ExpireNext(t)), LetGo(t)), t, expired, i + 1)
  {
    hide Owned;
    assert expired[i] in expired;
    assert expired[..i + 1] == expired[..i] + [expired[i]] && expired[i..][1..] == expired[i + 1..];
    assert IdSet(expired[..i + 1]) == IdSet(expired[..i]) + {expired[i]};
  }

  lemma DoneMeans(s0: State, s: State, t: Tid, now: int, expired: seq<TxId>)
    requires Apart(s0, s, t, expired, |expired|) && s0.pcs[t] == Idle
    requires forall id :: id in expired <==> id in s0.active && now > s0.active[id].deadline
    ensures Enabled(s, ScanDone(t))
    ensures var z := Apply(s, ScanDone(t));
      && z.pcs == s0.pcs && z.begun == s0.begun && z.ended == s0.ended + expired && z.lent <= s0.lent && z.gen == s.gen
      && z.active == s.active == (map id | id in s0.active && now <= s0.active[id].deadline :: s0.active[id])
      && (forall c :: InHand(z, c) <==> InHand(s0, c))
  {
    assert expired[..|expired|] == expired;
  }

  lemma LentMeans(s: State)
    requires Inv(s)
    ensures forall c :: c in s.lent <==> InTx(s, c) || InHand(s, c)
  {
    hide Live, Exclusive, Ids;
    forall c ensures c in s.lent <==> InTx(s, c) || InHand(s, c) {
      assert c in s.lent ==> Owned(s, c);
    }
  }

  /** `sys` is the whole system as the steps above see it; the class has two of its fields.
      Each method is one step of thread t, or, where it covers several, says so. */
  class TransactionManager {
    var activeTxs: map<TxId, Ctx>
    var txIdGen: nat
    ghost var sys: State

    ghost predicate Valid()
      reads this
    {
      sys.active == activeTxs && sys.gen == txIdGen && Inv(sys)
    }

    constructor (ghost threads: nat)
      ensures Valid() && Initial(sys) && |sys.pcs| == threads
    {
      activeTxs, txIdGen := map[], 1;
      sys := State(map[], 1, seq(threads, _ => Idle), {}, [], []);
      new;
      InitInv(sys);
    }

    /** begin: the atomic fetch_add. */
    method NextId(ghost t: Tid) returns (id: TxId)
      requires Valid() && Enabled(sys, DrawId(t))
      modifies this
      ensures Valid() && sys == old(Apply(sys, DrawId(t))) && sys.pcs[t].id == id
    {
      hide Inv;
      StepInv(sys, DrawId(t));
      id := txIdGen;
      txIdGen := txIdGen + 1;
      sys := Apply(sys, DrawId(t));
    }

    /** begin: the emplace, under the lock.  It never meets an entry that is already there. */
    method Insert(id: TxId, conn: Conn, deadline: int, ghost t: Tid)
      requires Valid() && t < |sys.pcs| && sys.pcs[t] == HasId(conn, id)
      modifies this
      ensures Valid() && sys == old(Apply(sys, Emplace(t, deadline)))
    {
      FreshId(sys, t);
      hide Inv;
      StepInv(sys, Emplace(t, deadline));
      if id !in activeTxs {
        activeTxs := activeTxs[id := Ctx(conn, deadline)];
      }
      sys := Apply(sys, Emplace(t, deadline));
    }

    method GetConnection(id: TxId, now: int, ghost t: Tid) returns (conn: Option<Conn>)
      requires Valid() && t < |sys.pcs| && sys.pcs[t].Idle?
      modifies `sys
      ensures Valid()
      ensures conn.Some? <==> old(Enabled(sys, Get(t, id, now)))
      ensures conn.Some? ==> sys == old(Apply(sys, Get(t, id, now))) && sys.pcs[t] == Using(conn.value)
      ensures conn.None? ==> sys == old(sys)
    {
      hide Inv;
      if id !in activeTxs {
        return None;
      }
      if now > activeTxs[id].deadline {
        return None;
      }
      StepInv(sys, Get(t, id, now));
      conn := Some(activeTxs[id].conn);
      sys := Apply(sys, Get(t, id, now));
    }

    /** finalize's locked region, for a client or for checkTimeouts: whoever takes the entry
        out ends the transaction. */
    method TakeOut(id: TxId, ghost t: Tid) returns (conn: Option<Conn>)
      requires Valid() && t < |sys.pcs|
      requires sys.pcs[t].Idle? || (sys.pcs[t].Expiring? && sys.pcs[t].todo != [] && sys.pcs[t].todo[0] == id)
      modifies this
      ensures Valid() && (conn.Some? <==> id in old(activeTxs))
      ensures conn.Some? ==> t < |sys.pcs| && Ending(sys.pcs[t]) && sys.pcs[t].conn == conn.value && sys.pcs[t].id == id
      ensures old(sys.pcs[t]).Expiring? ==> sys == old(Apply(sys, ExpireNext(t)))
      ensures old(sys.pcs[t]).Expiring? && conn.None? ==> sys.pcs == old(sys.pcs[t := Expiring(sys.pcs[t].todo[1..])])
      ensures old(sys.pcs[t]).Idle? ==> sys == old(if id in sys.active then Apply(sys, Finalize(t, id)) else sys)
    {
      hide Inv;
      ghost var a := if sys.pcs[t].Idle? then Finalize(t, id) else ExpireNext(t);
      if Enabled(sys, a) {
        StepInv(sys, a);
        sys := Apply(sys, a);
      }
      if id !in activeTxs {
        return None;
      }
      conn := Some(activeTxs[id].conn);
      activeTxs := activeTxs - {id};
    }

    /** The thread's shared pointer goes out of scope. */
    ghost method DropPointer(t: Tid)
      requires Valid() && Enabled(sys, LetGo(t))
      modifies `sys
      ensures Valid() && sys == old(Apply(sys, LetGo(t)))
    {
      hide Inv;
      StepInv(sys, LetGo(t));
      sys := Apply(sys, LetGo(t));
    }

    /** checkTimeouts' locked region. */
    method Expired(now: int, ghost t: Tid) returns (expired: seq<TxId>)
      requires Valid() && t < |sys.pcs| && sys.pcs[t].Idle?
      modifies `sys
      ensures Valid() && old(Enabled(sys, Scan(t, now, expired))) && sys == old(Apply(sys, Scan(t, now, expired)))
    {
      hide Inv;
      expired := [];
      var left := activeTxs.Keys;
      while left != {}
        invariant left <= activeTxs.Keys && Distinct(expired) && sys == old(sys)
        invariant forall id :: id in expired <==> id in activeTxs && id !in left && now > activeTxs[id].deadline
        decreases left
      {
        var id :| id in left;
        left := left - {id};
        if now > activeTxs[id].deadline {
          DistinctSnoc(expired, id);
          expired := expired + [id];
        }
      }
      assert Enabled(sys, Scan(t, now, expired));
      StepInv(sys, Scan(t, now, expired));
      sys := Apply(sys, Scan(t, now, expired));
    }

    /** checkTimeouts when no other thread comes in between: exactly the late transactions end,
        each once, and the pool gets back those of their connections that nobody is using. */
    method CheckTimeouts(now: int, ghost t: Tid)
      requires Valid() && t < |sys.pcs| && sys.pcs[t].Idle?
      modifies this
      ensures Valid() && sys.pcs == old(sys.pcs) && sys.begun == old(sys.begun)
      ensures activeTxs == map id | id in old(activeTxs) && now <= old(activeTxs)[id].deadline :: old(activeTxs)[id]
      ensures old(sys.ended) <= sys.ended && sys.lent <= old(sys.lent)
      ensures forall c :: c in old(sys.lent) ==> (c in sys.lent <==> InTx(sys, c) || old(InHand(sys, c)))
    {
      hide Inv, Enabled, Apply, InTx, InHand;
      ghost var s0 := sys;
      var expired := Expired(now, t);
      ScanMeans(s0, t, now, expired);
      var i := 0;
      assert expired[0..] == expired;
      while i < |expired|
        invariant 0 <= i <= |expired| && Valid() && Apart(s0, sys, t, expired, i)
        decreases |expired| - i
      {
        NotYet(expired, i);
        ExpireTurn(s0, sys, t, expired, i);
        var _ := TakeOut(expired[i], t);
        DropPointer(t);
        i := i + 1;
      }
      DoneMeans(s0, sys, t, now, expired);
      StepInv(sys, ScanDone(t));
      sys := Apply(sys, ScanDone(t));
      LentMeans(sys);
    }
  }
}
